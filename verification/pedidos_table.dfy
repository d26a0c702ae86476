/**
 * The order table: free-text search, column sort, pagination of 10 rows
 * and the row click that records the selected order.
 */
module PedidosTable {
  import opened Wrappers
  import opened Seqs
  import opened Text
  import opened Sorting
  import opened TableControls
  import opened MockData
  import opened FilterContext
  import Dashboard

  const RowsPerPage: nat := 10

  datatype SortField = ByNMov | ByPedido | ByTipoServico | ByModalidade | ByCidadeOrigem | ByEstado

  /** Every column of this table sorts as text. */
  function KeyOf(field: SortField, p: Pedido): SortKey
  {
    match field
    case ByNMov => Str(p.nMov)
    case ByPedido => Str(p.pedido)
    case ByTipoServico => Str(p.tipoServico)
    case ByModalidade => Str(p.modalidade)
    case ByCidadeOrigem => Str(p.cidadeOrigem)
    case ByEstado => Str(p.estado)
  }

  function KeyFor(field: SortField): Pedido -> SortKey
  {
    p => KeyOf(field, p)
  }

  /** The lower-cased search text occurs in the movement number, order number, service type, modality or origin city. */
  predicate Matches(search: string, p: Pedido)
  {
    var needle := Lower(search);
    || Contains(Lower(p.nMov), needle)
    || Contains(Lower(p.pedido), needle)
    || Contains(Lower(p.tipoServico), needle)
    || Contains(Lower(p.modalidade), needle)
    || Contains(Lower(p.cidadeOrigem), needle)
  }

  function MatchesWith(search: string): Pedido -> bool
  {
    p => Matches(search, p)
  }

  /** Every order matches the empty search: the empty string occurs in every text. */
  lemma EmptySearchMatchesAll()
    ensures forall p :: Matches("", p)
  {
    assert Lower("") == "";
    forall p ensures Matches("", p) {
      ContainsEmpty(Lower(p.nMov));
    }
  }

  /**
   * The search step: an empty search keeps every order, otherwise the
   * orders that match. Either way the orders kept are exactly the matching
   * ones, each as often as in the input.
   */
  function SearchPedidos(ps: seq<Pedido>, search: string): (r: seq<Pedido>)
    ensures |r| <= |ps|
    ensures forall p :: p in r <==> p in ps && Matches(search, p)
    ensures forall p :: multiset(r)[p] == if Matches(search, p) then multiset(ps)[p] else 0
  {
    if search == "" then
      EmptySearchMatchesAll();
      ps
    else
      FilterMembership(ps, MatchesWith(search));
      FilterMultiset(ps, MatchesWith(search));
      Filter(ps, MatchesWith(search))
  }

  /** The search keeps the orders in their input order. */
  lemma SearchPedidosSpec(ps: seq<Pedido>, search: string)
    ensures IsSubsequence(SearchPedidos(ps, search), ps)
  {
    FilterIsSubsequence(ps, MatchesWith(search));
    if search == "" {
      EmptySearchMatchesAll();
      FilterKeepsAll(ps, MatchesWith(search));
    }
  }

  /** The rows the table lists, before pagination. */
  function View(ps: seq<Pedido>, search: string, field: SortField, dir: SortDirection): (r: seq<Pedido>)
    ensures forall p :: multiset(r)[p] == if Matches(search, p) then multiset(ps)[p] else 0
  {
    SortSeq(SearchPedidos(ps, search), KeyFor(field), dir == Desc)
  }

  /**
   * The listed rows are the matching rows, each as often as in the input,
   * in the text order of the sort column (reversed for descending), rows
   * with equal text in their input order.
   */
  lemma ViewSpec(ps: seq<Pedido>, search: string, field: SortField, dir: SortDirection)
    ensures multiset(View(ps, search, field, dir)) == multiset(SearchPedidos(ps, search))
    ensures forall i, j :: 0 <= i < j < |View(ps, search, field, dir)| ==>
      var c := StrCompare(KeyOf(field, View(ps, search, field, dir)[i]).s, KeyOf(field, View(ps, search, field, dir)[j]).s);
      if dir == Asc then c <= 0 else c >= 0
    ensures forall k :: WithKey(View(ps, search, field, dir), KeyFor(field), k) == WithKey(SearchPedidos(ps, search), KeyFor(field), k)
  {
    SortSpec(SearchPedidos(ps, search), KeyFor(field), dir == Desc);
  }

  /** The "next page" button: disabled only on the last page, otherwise `Math.min(totalPages, page + 1)`. */
  function NextPage(page: int, totalPages: nat): (p: int)
    ensures page == totalPages ==> p == page
    ensures page < totalPages ==> p == page + 1
    ensures totalPages < page ==> p == totalPages
    ensures page >= 0 ==> p >= 0
  {
    if page == totalPages then page else Min(totalPages, page + 1)
  }

  /**
   * With no matching rows the "next" button stays enabled on page 1 and
   * leads to page 0; page 0 shows no row even once rows come back.
   */
  lemma NextWithoutRowsReachesPageZero(rows: seq<Pedido>)
    ensures NextPage(1, TotalPages(0, RowsPerPage)) == 0
    ensures Page(rows, 0, RowsPerPage) == []
  {
  }

  /** The component's own state, with the order list it receives. */
  class PedidosTableView {
    var pedidos: seq<Pedido>
    var search: string
    var sortField: SortField
    var sortDirection: SortDirection
    var currentPage: int

    /** The page shown is never negative (it can be 0, see `NextPage`). */
    ghost predicate Valid()
      reads this
    {
      currentPage >= 0
    }

    constructor(pedidos: seq<Pedido>)
      ensures Valid()
      ensures this.pedidos == pedidos && search == "" && sortField == ByNMov && sortDirection == Desc
      ensures currentPage == 1
    {
      this.pedidos := pedidos;
      search := "";
      sortField := ByNMov;
      sortDirection := Desc;
      currentPage := 1;
    }

    /** `filteredAndSorted`: a copy of the rows, searched and then sorted. */
    method FilteredAndSorted() returns (result: seq<Pedido>)
      ensures result == View(pedidos, search, sortField, sortDirection)
    {
      result := pedidos;
      if search != "" {
        result := Filter(result, MatchesWith(search));
      }
      result := SortedCopy(result, KeyFor(sortField), sortDirection == Desc);
    }

    /** `paginatedData`: the current page of the listed rows, never more than 10. */
    method PaginatedData() returns (rows: seq<Pedido>)
      ensures rows == Page(View(pedidos, search, sortField, sortDirection), currentPage, RowsPerPage)
      ensures |rows| <= RowsPerPage
    {
      var all := FilteredAndSorted();
      rows := JsSlice(all, (currentPage - 1) * RowsPerPage, currentPage * RowsPerPage);
    }

    method HandleSort(field: SortField)
      modifies this`sortField, this`sortDirection
      ensures (sortField, sortDirection) == SortToggle(old(sortField), old(sortDirection), field)
    {
      if sortField == field {
        sortDirection := if sortDirection == Asc then Desc else Asc;
      } else {
        sortField := field;
        sortDirection := Asc;
      }
    }

    /** Typing in the search box: the text changes and the table goes back to page 1. */
    method SetSearch(text: string)
      modifies this`search, this`currentPage
      ensures Valid()
      ensures search == text && currentPage == 1
    {
      search := text;
      currentPage := 1;
    }

    /** The "previous page" button. */
    method ClickPrevious()
      requires Valid()
      modifies this`currentPage
      ensures Valid()
      ensures currentPage == PrevPage(old(currentPage))
    {
      if currentPage != 1 {
        currentPage := Max(1, currentPage - 1);
      }
    }

    /** The "next page" button. */
    method ClickNext()
      requires Valid()
      modifies this`currentPage
      ensures Valid()
      ensures currentPage == NextPage(old(currentPage), TotalPages(|View(pedidos, search, sortField, sortDirection)|, RowsPerPage))
    {
      var all := FilteredAndSorted();
      var totalPages := TotalPages(|all|, RowsPerPage);
      if currentPage != totalPages {
        currentPage := Min(totalPages, currentPage + 1);
      }
    }

    /** New rows from the page (the filters changed); the current page is kept. */
    method ReceivePedidos(newPedidos: seq<Pedido>)
      modifies this`pedidos
      ensures pedidos == newPedidos
    {
      pedidos := newPedidos;
    }

    /** A click on a row records its order's identifier as the selected order. */
    method HandleRowClick(p: Pedido, provider: FilterProvider)
      modifies provider
      ensures provider.filters == WithUpdate(old(provider.filters), SetSelectedPedido(Some(p.id)))
    {
      provider.UpdateFilter(SetSelectedPedido(Some(p.id)));
    }
  }

  /** Selecting an order in the table changes no other filter and so none of the orders the page shows. */
  lemma RowClickKeepsView(f: Filters, p: Pedido, ps: seq<Pedido>)
    ensures var g := WithUpdate(f, SetSelectedPedido(Some(p.id)));
      g.selectedPedido == Some(p.id) && AgreeOutside(f, g, SelectedPedido)
      && Dashboard.FilteredPedidos(g, ps) == Dashboard.FilteredPedidos(f, ps)
  {
    Dashboard.YearAndSelectionIgnored(f, f.year, Some(p.id), ps);
  }
}

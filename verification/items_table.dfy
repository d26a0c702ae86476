/**
 * The line-item table: free-text search, column sort, pagination of 8 rows
 * and the row click that narrows the dashboard to the clicked item's order.
 */
module ItemsTable {
  import opened Wrappers
  import opened Seqs
  import opened Text
  import opened Sorting
  import opened TableControls
  import opened MockData
  import opened FilterContext

  const ItemsPerPage: nat := 8

  datatype SortField = ByPedido | ByCodItem | ByDescricao | BySubgrupo | ByQtde | ByVolumeTotal

  /** The value a column sorts by: the two numeric columns by number, the others as text. */
  function KeyOf(field: SortField, it: ItemPedido): SortKey
  {
    match field
    case ByPedido => Str(it.pedido)
    case ByCodItem => Str(it.codItem)
    case ByDescricao => Str(it.descricao)
    case BySubgrupo => Str(it.subgrupo)
    case ByQtde => Num(it.qtde as real)
    case ByVolumeTotal => Num(it.volumeTotal)
  }

  function KeyFor(field: SortField): ItemPedido -> SortKey
  {
    it => KeyOf(field, it)
  }

  /** The lower-cased search text occurs in the lower-cased order number, item code or description. */
  predicate Matches(search: string, it: ItemPedido)
  {
    var needle := Lower(search);
    Contains(Lower(it.pedido), needle) || Contains(Lower(it.codItem), needle) || Contains(Lower(it.descricao), needle)
  }

  function MatchesWith(search: string): ItemPedido -> bool
  {
    it => Matches(search, it)
  }

  /** Every row matches the empty search: the empty string occurs in every text. */
  lemma EmptySearchMatchesAll()
    ensures forall it :: Matches("", it)
  {
    assert Lower("") == "";
    forall it ensures Matches("", it) {
      ContainsEmpty(Lower(it.pedido));
    }
  }

  /**
   * The search step: an empty search keeps every row, otherwise the rows
   * that match. Either way the rows kept are exactly the matching ones, each
   * as often as in the input.
   */
  function SearchItems(items: seq<ItemPedido>, search: string): (r: seq<ItemPedido>)
    ensures |r| <= |items|
    ensures forall it :: it in r <==> it in items && Matches(search, it)
    ensures forall it :: multiset(r)[it] == if Matches(search, it) then multiset(items)[it] else 0
  {
    if search == "" then
      EmptySearchMatchesAll();
      items
    else
      FilterMembership(items, MatchesWith(search));
      FilterMultiset(items, MatchesWith(search));
      Filter(items, MatchesWith(search))
  }

  /** The search keeps the rows in their input order. */
  lemma SearchItemsSpec(items: seq<ItemPedido>, search: string)
    ensures IsSubsequence(SearchItems(items, search), items)
  {
    FilterIsSubsequence(items, MatchesWith(search));
    if search == "" {
      EmptySearchMatchesAll();
      FilterKeepsAll(items, MatchesWith(search));
    }
  }

  /** The rows the table lists, before pagination. */
  function View(items: seq<ItemPedido>, search: string, field: SortField, dir: SortDirection): (r: seq<ItemPedido>)
    ensures forall it :: multiset(r)[it] == if Matches(search, it) then multiset(items)[it] else 0
  {
    SortSeq(SearchItems(items, search), KeyFor(field), dir == Desc)
  }

  /**
   * The listed rows are the matching rows, each as often as in the input,
   * ordered by the sort column in the chosen direction, rows with equal
   * sort values in their input order.
   */
  lemma ViewSpec(items: seq<ItemPedido>, search: string, field: SortField, dir: SortDirection)
    ensures multiset(View(items, search, field, dir)) == multiset(SearchItems(items, search))
    ensures forall i, j :: 0 <= i < j < |View(items, search, field, dir)| ==>
      Cmp(View(items, search, field, dir)[i], View(items, search, field, dir)[j], KeyFor(field), dir == Desc) <= 0
    ensures forall k :: WithKey(View(items, search, field, dir), KeyFor(field), k) == WithKey(SearchItems(items, search), KeyFor(field), k)
  {
    SortSpec(SearchItems(items, search), KeyFor(field), dir == Desc);
  }

  /** The quantity and volume columns order rows by their numeric value. */
  lemma NumericColumnsByValue(x: ItemPedido, y: ItemPedido)
    ensures Cmp(x, y, KeyFor(ByQtde), false) < 0 <==> x.qtde < y.qtde
    ensures Cmp(x, y, KeyFor(ByQtde), false) == 0 <==> x.qtde == y.qtde
    ensures Cmp(x, y, KeyFor(ByVolumeTotal), false) < 0 <==> x.volumeTotal < y.volumeTotal
    ensures Cmp(x, y, KeyFor(ByVolumeTotal), false) == 0 <==> x.volumeTotal == y.volumeTotal
  {
  }

  /** Reversing the direction reverses the order between rows whose sort values differ. */
  lemma DirectionReverses(x: ItemPedido, y: ItemPedido, field: SortField)
    ensures Cmp(x, y, KeyFor(field), true) == -Cmp(x, y, KeyFor(field), false)
  {
  }

  /** `pedidos.find(p => p.pedido === number)`: the first order with that number, if any. */
  function Find(orders: seq<Pedido>, number: string): (r: Option<Pedido>)
    ensures r.None? <==> forall i :: 0 <= i < |orders| ==> orders[i].pedido != number
    ensures r.Some? ==> exists i :: (0 <= i < |orders| && orders[i] == r.value && r.value.pedido == number
      && forall j :: 0 <= j < i ==> orders[j].pedido != number)
  {
    if orders == [] then None
    else if orders[0].pedido == number then
      assert orders[0] == orders[0];
      Some(orders[0])
    else
      var r := Find(orders[1..], number);
      if r.Some? then
        var i :| (0 <= i < |orders[1..]| && orders[1..][i] == r.value && r.value.pedido == number
          && forall j :: 0 <= j < i ==> orders[1..][j].pedido != number);
        assert orders[i + 1] == r.value;
        r
      else
        r
  }

  /** The identity of a row for selection: order number and item code joined by a dash. */
  function RowKey(it: ItemPedido): string
  {
    it.pedido + "-" + it.codItem
  }

  /** Toggle `v` in `key` when `cond` holds. */
  function ToggleIf(f: Filters, cond: bool, key: ListKey, v: string): (r: Filters)
    ensures AgreeOutside(f, r, List(key))
  {
    if cond then WithToggle(f, key, v) else f
  }

  /**
   * The filter change of a row click on an item of order `p`. Selecting
   * toggles each of the order's state, modality, service type and region
   * that is not yet selected; deselecting toggles each that is. Every test
   * reads the filters as they were before the click.
   */
  function RowClickFilters(f: Filters, p: Pedido, deselect: bool): (r: Filters)
    ensures r.months == f.months && r.year == f.year
    ensures r.selectedPedido == f.selectedPedido && r.prazoStatus == f.prazoStatus
  {
    var f1 := ToggleIf(f, (p.estado in f.states) == deselect, States, p.estado);
    var f2 := ToggleIf(f1, (p.modalidade in f.modalities) == deselect, Modalities, p.modalidade);
    var f3 := ToggleIf(f2, (p.tipoServico in f.serviceTypes) == deselect, ServiceTypes, p.tipoServico);
    ToggleIf(f3, (p.regiao in f.regions) == deselect, Regions, p.regiao)
  }

  /**
   * Selecting a row adds its order's state, modality, service type and
   * region to the filters, keeps every value already selected and changes
   * nothing else.
   */
  lemma RowSelectAdds(f: Filters, p: Pedido)
    ensures var r := RowClickFilters(f, p, false);
      && p.estado in r.states && p.modalidade in r.modalities
      && p.tipoServico in r.serviceTypes && p.regiao in r.regions
      && (forall x :: x in f.states ==> x in r.states)
      && (forall x :: x in f.modalities ==> x in r.modalities)
      && (forall x :: x in f.serviceTypes ==> x in r.serviceTypes)
      && (forall x :: x in f.regions ==> x in r.regions)
      && r.months == f.months && r.year == f.year
      && r.selectedPedido == f.selectedPedido && r.prazoStatus == f.prazoStatus
  {
    RowClickFrame(f, p, false);
  }

  /**
   * Deselecting a row removes its order's state, modality, service type and
   * region from the filters, keeps every other selected value and changes
   * nothing else.
   */
  lemma RowDeselectRemoves(f: Filters, p: Pedido)
    ensures var r := RowClickFilters(f, p, true);
      && p.estado !in r.states && p.modalidade !in r.modalities
      && p.tipoServico !in r.serviceTypes && p.regiao !in r.regions
      && (forall x :: x in f.states && x != p.estado ==> x in r.states)
      && (forall x :: x in f.modalities && x != p.modalidade ==> x in r.modalities)
      && (forall x :: x in f.serviceTypes && x != p.tipoServico ==> x in r.serviceTypes)
      && (forall x :: x in f.regions && x != p.regiao ==> x in r.regions)
      && r.months == f.months && r.year == f.year
      && r.selectedPedido == f.selectedPedido && r.prazoStatus == f.prazoStatus
  {
    RowClickFrame(f, p, true);
  }

  /** Each list after a row click is the toggle of that list alone, or the list unchanged. */
  lemma RowClickFrame(f: Filters, p: Pedido, deselect: bool)
    ensures var r := RowClickFilters(f, p, deselect);
      && r.states == (if (p.estado in f.states) == deselect then Toggle(f.states, p.estado) else f.states)
      && r.modalities == (if (p.modalidade in f.modalities) == deselect then Toggle(f.modalities, p.modalidade) else f.modalities)
      && r.serviceTypes == (if (p.tipoServico in f.serviceTypes) == deselect then Toggle(f.serviceTypes, p.tipoServico) else f.serviceTypes)
      && r.regions == (if (p.regiao in f.regions) == deselect then Toggle(f.regions, p.regiao) else f.regions)
      && r.months == f.months && r.year == f.year
      && r.selectedPedido == f.selectedPedido && r.prazoStatus == f.prazoStatus
  {
    var f1 := ToggleIf(f, (p.estado in f.states) == deselect, States, p.estado);
    var f2 := ToggleIf(f1, (p.modalidade in f.modalities) == deselect, Modalities, p.modalidade);
    var f3 := ToggleIf(f2, (p.tipoServico in f.serviceTypes) == deselect, ServiceTypes, p.tipoServico);
    assert GetList(f1, Months) == GetList(f, Months) && GetList(f1, Modalities) == GetList(f, Modalities);
    assert GetList(f1, ServiceTypes) == GetList(f, ServiceTypes) && GetList(f1, Regions) == GetList(f, Regions);
    assert GetList(f2, Months) == GetList(f1, Months) && GetList(f2, States) == GetList(f1, States);
    assert GetList(f2, ServiceTypes) == GetList(f1, ServiceTypes) && GetList(f2, Regions) == GetList(f1, Regions);
    assert GetList(f3, Months) == GetList(f2, Months) && GetList(f3, States) == GetList(f2, States);
    assert GetList(f3, Modalities) == GetList(f2, Modalities) && GetList(f3, Regions) == GetList(f2, Regions);
    var r := ToggleIf(f3, (p.regiao in f.regions) == deselect, Regions, p.regiao);
    assert GetList(r, Months) == GetList(f3, Months) && GetList(r, States) == GetList(f3, States);
    assert GetList(r, Modalities) == GetList(f3, Modalities) && GetList(r, ServiceTypes) == GetList(f3, ServiceTypes);
  }

  /**
   * Clicking a row and then clicking it again restores the filters when
   * none of its order's values was selected before the first click.
   */
  lemma RowClickTwiceRestores(f: Filters, p: Pedido)
    requires p.estado !in f.states && p.modalidade !in f.modalities
    requires p.tipoServico !in f.serviceTypes && p.regiao !in f.regions
    ensures RowClickFilters(RowClickFilters(f, p, false), p, true) == f
  {
    var g := RowClickFilters(f, p, false);
    RowClickFrame(f, p, false);
    RowClickFrame(g, p, true);
    ToggleTwiceAbsent(f.states, p.estado);
    ToggleTwiceAbsent(f.modalities, p.modalidade);
    ToggleTwiceAbsent(f.serviceTypes, p.tipoServico);
    ToggleTwiceAbsent(f.regions, p.regiao);
  }

  /** The "next page" button: disabled on the last page and when there are no pages, otherwise `Math.min(totalPages, page + 1)`. */
  function NextPage(page: int, totalPages: nat): (p: int)
    ensures totalPages == 0 || page == totalPages ==> p == page
    ensures 0 < totalPages && page < totalPages ==> p == page + 1
    ensures 0 < totalPages < page ==> p == totalPages
    ensures page >= 1 ==> p >= 1
  {
    if page == totalPages || totalPages == 0 then page else Min(totalPages, page + 1)
  }

  /** The component's own state, with the order list it receives. */
  class ItemsTableView {
    var items: seq<ItemPedido>
    var search: string
    var sortField: SortField
    var sortDirection: SortDirection
    var currentPage: int
    var selectedRow: Option<string>

    /** The page shown is always 1 or later. */
    ghost predicate Valid()
      reads this
    {
      currentPage >= 1
    }

    constructor(items: seq<ItemPedido>)
      ensures Valid()
      ensures this.items == items && search == "" && sortField == ByPedido && sortDirection == Desc
      ensures currentPage == 1 && selectedRow == None
    {
      this.items := items;
      search := "";
      sortField := ByPedido;
      sortDirection := Desc;
      currentPage := 1;
      selectedRow := None;
    }

    /** `filteredAndSorted`: a copy of the rows, searched and then sorted. */
    method FilteredAndSorted() returns (result: seq<ItemPedido>)
      ensures result == View(items, search, sortField, sortDirection)
    {
      result := items;
      if search != "" {
        result := Filter(result, MatchesWith(search));
      }
      result := SortedCopy(result, KeyFor(sortField), sortDirection == Desc);
    }

    /** `paginatedData`: the current page of the listed rows, never more than 8. */
    method PaginatedData() returns (rows: seq<ItemPedido>)
      ensures rows == Page(View(items, search, sortField, sortDirection), currentPage, ItemsPerPage)
      ensures |rows| <= ItemsPerPage
    {
      var all := FilteredAndSorted();
      rows := JsSlice(all, (currentPage - 1) * ItemsPerPage, currentPage * ItemsPerPage);
    }

    method HandleSort(field: SortField)
      modifies this`sortField, this`sortDirection
      ensures (sortField, sortDirection) == SortToggle(old(sortField), old(sortDirection), field)
    {
      if sortField == field {
        sortDirection := if sortDirection == Asc then Desc else Asc;
      } else {
        sortField := field;
        sortDirection := Asc;
      }
    }

    /** Typing in the search box: the text changes and the table goes back to page 1. */
    method SetSearch(text: string)
      modifies this`search, this`currentPage
      ensures Valid()
      ensures search == text && currentPage == 1
    {
      search := text;
      currentPage := 1;
    }

    /** The "previous page" button. */
    method ClickPrevious()
      requires Valid()
      modifies this`currentPage
      ensures Valid()
      ensures currentPage == PrevPage(old(currentPage))
    {
      if currentPage != 1 {
        currentPage := Max(1, currentPage - 1);
      }
    }

    /** The "next page" button. */
    method ClickNext()
      requires Valid()
      modifies this`currentPage
      ensures Valid()
      ensures currentPage == NextPage(old(currentPage), TotalPages(|View(items, search, sortField, sortDirection)|, ItemsPerPage))
    {
      var all := FilteredAndSorted();
      var totalPages := TotalPages(|all|, ItemsPerPage);
      if !(currentPage == totalPages || totalPages == 0) {
        currentPage := Min(totalPages, currentPage + 1);
      }
    }

    /** New rows from the page (the filters changed); the current page is kept. */
    method ReceiveItems(newItems: seq<ItemPedido>)
      modifies this`items
      ensures items == newItems
    {
      items := newItems;
    }

    /**
     * A click on the row of `item`. Its order is looked up among all
     * `orders`; if there is none nothing happens. A click on the selected
     * row clears the selection and the order's facet values, a click on any
     * other row selects it and adds them.
     */
    method HandleRowClick(item: ItemPedido, orders: seq<Pedido>, provider: FilterProvider)
      modifies this`selectedRow, provider
      ensures Find(orders, item.pedido).None? ==> selectedRow == old(selectedRow) && provider.filters == old(provider.filters)
      ensures Find(orders, item.pedido).Some? ==>
        var deselect := old(selectedRow) == Some(RowKey(item));
        && selectedRow == (if deselect then None else Some(RowKey(item)))
        && provider.filters == RowClickFilters(old(provider.filters), Find(orders, item.pedido).value, deselect)
    {
      var found := Find(orders, item.pedido);
      if found.None? {
        return;
      }
      var pedido := found.value;
      var rowKey := RowKey(item);
      var filters := provider.filters;
      if selectedRow == Some(rowKey) {
        selectedRow := None;
        if pedido.estado in filters.states {
          provider.ToggleArrayFilter(States, pedido.estado);
        }
        if pedido.modalidade in filters.modalities {
          provider.ToggleArrayFilter(Modalities, pedido.modalidade);
        }
        if pedido.tipoServico in filters.serviceTypes {
          provider.ToggleArrayFilter(ServiceTypes, pedido.tipoServico);
        }
        if pedido.regiao in filters.regions {
          provider.ToggleArrayFilter(Regions, pedido.regiao);
        }
      } else {
        selectedRow := Some(rowKey);
        if pedido.estado !in filters.states {
          provider.ToggleArrayFilter(States, pedido.estado);
        }
        if pedido.modalidade !in filters.modalities {
          provider.ToggleArrayFilter(Modalities, pedido.modalidade);
        }
        if pedido.tipoServico !in filters.serviceTypes {
          provider.ToggleArrayFilter(ServiceTypes, pedido.tipoServico);
        }
        if pedido.regiao !in filters.regions {
          provider.ToggleArrayFilter(Regions, pedido.regiao);
        }
      }
    }
  }
}

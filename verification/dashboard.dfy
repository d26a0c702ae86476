/**
 * The dashboard page: the multi-facet predicate that selects the orders
 * every card, chart and table shows, the join that selects their line
 * items, and the status count.
 */
module Dashboard {
  import opened Wrappers
  import opened Seqs
  import opened MockData
  import opened FilterContext

  // ------------------------------------------------------------ delivery month

  predicate IsDigit(c: char) { '0' <= c <= '9' }

  function DigitValue(c: char): nat
    requires IsDigit(c)
  {
    c as int - '0' as int
  }

  function TwoDigits(s: string, i: nat): nat
    requires i + 1 < |s| && IsDigit(s[i]) && IsDigit(s[i + 1])
  {
    10 * DigitValue(s[i]) + DigitValue(s[i + 1])
  }

  /** A date-only string `YYYY-MM-DD` with a month 01..12 and a day 01..31. */
  predicate IsIsoDate(d: string)
  {
    && |d| == 10
    && d[4] == '-' && d[7] == '-'
    && (forall i :: 0 <= i < 10 && i != 4 && i != 7 ==> IsDigit(d[i]))
    && 1 <= TwoDigits(d, 5) <= 12
    && 1 <= TwoDigits(d, 8) <= 31
  }

  /**
   * The zero-based calendar month of a delivery date, read from its digits;
   * `None` for a string that is not a date, for which `getMonth()` is NaN.
   */
  function MonthIndex(date: string): (r: Option<nat>)
    ensures r.Some? <==> IsIsoDate(date)
    ensures r.Some? ==> r.value < 12
  {
    if IsIsoDate(date) then Some(TwoDigits(date, 5) - 1) else None
  }

  /**
   * What `new Date(date).getMonth()` returns on a machine whose clock is
   * `offsetMinutes` away from UTC: a date-only string denotes UTC midnight,
   * and `getMonth` reads the local calendar. West of UTC (a negative offset,
   * less than a day in every real zone) local time is still on the previous
   * day, so the first of a month is read as the previous month.
   */
  function LocalMonthIndex(date: string, offsetMinutes: int): (r: Option<nat>)
    ensures r.Some? <==> IsIsoDate(date)
    ensures r.Some? ==> r.value < 12
  {
    if !IsIsoDate(date) then None
    else
      var m := TwoDigits(date, 5) - 1;
      if offsetMinutes < 0 && TwoDigits(date, 8) == 1 then Some(if m == 0 then 11 else m - 1)
      else Some(m)
  }

  /** Away from the first of a month, or east of UTC, local and calendar month agree. */
  lemma LocalMonthAgrees(date: string, offsetMinutes: int)
    requires offsetMinutes >= 0 || !IsIsoDate(date) || TwoDigits(date, 8) != 1
    ensures LocalMonthIndex(date, offsetMinutes) == MonthIndex(date)
  {
  }

  /** A delivery on 1 March read in Brasília time (UTC-3) is filed under February. */
  lemma LocalMonthShiftsFirstOfMonth()
    ensures MonthIndex("2024-03-01") == Some(2)
    ensures LocalMonthIndex("2024-03-01", -180) == Some(1)
  {
    assert IsIsoDate("2024-03-01");
  }

  /** Two-digit zero-padded rendering, as `String(n).padStart(2, '0')`. */
  function Pad2(n: nat): (s: string)
    requires n < 100
    ensures |s| == 2 && IsDigit(s[0]) && IsDigit(s[1])
    ensures 10 * DigitValue(s[0]) + DigitValue(s[1]) == n
  {
    [(('0' as int) + n / 10) as char, (('0' as int) + n % 10) as char]
  }

  /** The delivery date the sample generator writes: `2024-MM-DD`. */
  function GeneratedDate(month: nat, day: nat): string
    requires 1 <= month <= 12 && 1 <= day <= 28
  {
    "2024-" + Pad2(month) + "-" + Pad2(day)
  }

  /** Reading the month back from any 2024 date, whatever its day, gives the month it was written with. */
  lemma MonthOfDate(month: nat, day: nat)
    requires 1 <= month <= 12 && 1 <= day <= 31
    ensures MonthIndex("2024-" + Pad2(month) + "-" + Pad2(day)) == Some(month - 1)
  {
    var d := "2024-" + Pad2(month) + "-" + Pad2(day);
    assert d[5..7] == Pad2(month) && d[8..] == Pad2(day);
    assert TwoDigits(d, 5) == month;
    assert TwoDigits(d, 8) == day;
  }

  /** Reading the month back from a generated date gives the month it was written with. */
  lemma MonthOfGeneratedDate(month: nat, day: nat)
    requires 1 <= month <= 12 && 1 <= day <= 28
    ensures MonthIndex(GeneratedDate(month, day)) == Some(month - 1)
  {
    MonthOfDate(month, day);
  }

  /**
   * The Portuguese name of the delivery month, as the month chips list it:
   * the entry of `Meses` for the month written in the date.
   */
  function MonthName(date: string): (r: Option<string>)
    ensures r.Some? <==> IsIsoDate(date)
    ensures r.Some? ==> 1 <= TwoDigits(date, 5) <= 12 && r.value == Meses[TwoDigits(date, 5) - 1]
  {
    match MonthIndex(date)
    case Some(i) => Some(Meses[i])
    case None => None
  }

  /** A generated order is filed under the name of the month its date was generated with. */
  lemma MonthNameOfGenerated(month: nat, day: nat)
    requires 1 <= month <= 12 && 1 <= day <= 28
    ensures MonthName(GeneratedDate(month, day)) == Some(Meses[month - 1])
  {
    MonthOfGeneratedDate(month, day);
  }

  /** Selecting a month's name selects exactly the dates of that month. */
  lemma MonthNameSelects(date: string, k: nat)
    requires k < 12
    ensures MonthName(date) == Some(Meses[k]) <==> MonthIndex(date) == Some(k)
  {
    MesesDistinct();
    if MonthName(date) == Some(Meses[k]) {
      var i := MonthIndex(date).value;
      assert Meses[i] == Meses[k];
    }
  }

  // ------------------------------------------------------------ the predicate

  /**
   * The page's filter callback, with its early returns: each non-empty list
   * facet must contain the order's value, then the delivery-status selector
   * applies. The chain amounts to one independent test per facet.
   */
  predicate Passes(f: Filters, p: Pedido): (b: bool)
    ensures b <==>
      && Accepts(f.months, MonthName(p.dataEntrega))
      && Accepts(f.regions, Some(p.regiao))
      && Accepts(f.states, Some(p.estado))
      && Accepts(f.modalities, Some(p.modalidade))
      && Accepts(f.serviceTypes, Some(p.tipoServico))
      && PrazoAccepts(f.prazoStatus, p.noPrazo)
  {
    if |f.months| > 0 && !(MonthName(p.dataEntrega).Some? && MonthName(p.dataEntrega).value in f.months) then false
    else if |f.regions| > 0 && p.regiao !in f.regions then false
    else if |f.states| > 0 && p.estado !in f.states then false
    else if |f.modalities| > 0 && p.modalidade !in f.modalities then false
    else if |f.serviceTypes| > 0 && p.tipoServico !in f.serviceTypes then false
    else if f.prazoStatus == NoPrazo && !p.noPrazo then false
    else if f.prazoStatus == ForaPrazo && p.noPrazo then false
    else true
  }

  /** An empty selection lets everything through; otherwise the value must be selected. */
  predicate Accepts(selected: seq<string>, value: Option<string>)
  {
    selected == [] || (value.Some? && value.value in selected)
  }

  predicate PrazoAccepts(status: PrazoStatus, noPrazo: bool)
  {
    match status
    case All => true
    case NoPrazo => noPrazo
    case ForaPrazo => !noPrazo
  }

  function PassesWith(f: Filters): Pedido -> bool
  {
    p => Passes(f, p)
  }

  /** `filteredPedidos`: the orders that pass, in their original order. */
  function FilteredPedidos(f: Filters, ps: seq<Pedido>): (r: seq<Pedido>)
    ensures |r| <= |ps|
  {
    Filter(ps, PassesWith(f))
  }

  /**
   * The filtered orders are exactly the orders that pass, each passing order
   * as often as in the input, and they keep their relative order.
   */
  lemma FilteredPedidosSpec(f: Filters, ps: seq<Pedido>)
    ensures forall p :: p in FilteredPedidos(f, ps) <==> p in ps && Passes(f, p)
    ensures forall p :: multiset(FilteredPedidos(f, ps))[p] == if Passes(f, p) then multiset(ps)[p] else 0
    ensures IsSubsequence(FilteredPedidos(f, ps), ps)
  {
    FilterMembership(ps, PassesWith(f));
    FilterMultiset(ps, PassesWith(f));
    FilterIsSubsequence(ps, PassesWith(f));
  }

  /** With no facet restricted, every order is shown: empty selections mean pass-through. */
  lemma NoRestrictionPassesAll(f: Filters, ps: seq<Pedido>)
    requires NoRestriction(f)
    ensures FilteredPedidos(f, ps) == ps
  {
    assert GetList(f, Months) == [] && GetList(f, Regions) == [] && GetList(f, States) == [];
    assert GetList(f, Modalities) == [] && GetList(f, ServiceTypes) == [];
    FilterKeepsAll(ps, PassesWith(f));
  }

  /** After `clearFilters` the page shows every order. */
  lemma ClearedFiltersShowAll(ps: seq<Pedido>)
    ensures FilteredPedidos(DefaultFilters(), ps) == ps
  {
    NoRestrictionPassesAll(DefaultFilters(), ps);
  }

  /** The year selector and the selected order do not take part in the predicate. */
  lemma YearAndSelectionIgnored(f: Filters, year: int, selected: Option<string>, ps: seq<Pedido>)
    ensures FilteredPedidos(f.(year := year, selectedPedido := selected), ps) == FilteredPedidos(f, ps)
  {
    var g := f.(year := year, selectedPedido := selected);
    FilterAgree(ps, PassesWith(g), PassesWith(f));
  }

  /**
   * Toggling a new value into a facet that is already restricted widens the
   * selection: every order shown before is still shown.
   */
  lemma ToggleWidens(f: Filters, key: ListKey, v: string, ps: seq<Pedido>)
    requires GetList(f, key) != [] && v !in GetList(f, key)
    ensures forall p :: p in FilteredPedidos(f, ps) ==> p in FilteredPedidos(WithToggle(f, key, v), ps)
  {
    var g := WithToggle(f, key, v);
    FilteredPedidosSpec(f, ps);
    FilteredPedidosSpec(g, ps);
    forall p | p in FilteredPedidos(f, ps) ensures Passes(g, p) {
      assert GetList(g, Months) == GetList(f, Months) || (key == Months && GetList(g, Months) == GetList(f, Months) + [v]);
    }
  }

  /**
   * Restricting to on-time deliveries shows exactly the on-time orders
   * counted when the delivery-status selector is off.
   */
  lemma OnTimeSelectionMatchesMetric(f: Filters, ps: seq<Pedido>)
    ensures FilteredPedidos(f.(prazoStatus := NoPrazo), ps) == Filter(FilteredPedidos(f.(prazoStatus := All), ps), OnTime)
    ensures GetMetrics(FilteredPedidos(f.(prazoStatus := NoPrazo), ps)).total == GetMetrics(FilteredPedidos(f.(prazoStatus := All), ps)).noPrazo
  {
    FilterCompose(ps, PassesWith(f.(prazoStatus := All)), OnTime, PassesWith(f.(prazoStatus := NoPrazo)));
  }

  // ---------------------------------------------------------------- the join

  function BelongsTo(ids: set<string>): ItemPedido -> bool
  {
    (it: ItemPedido) => it.pedido in ids
  }

  /** `filteredItems`: the line items whose order number is that of some filtered order. */
  function FilteredItems(filtered: seq<Pedido>, items: seq<ItemPedido>): (r: seq<ItemPedido>)
    ensures |r| <= |items|
  {
    var pedidoIds := set p | p in filtered :: p.pedido;
    Filter(items, BelongsTo(pedidoIds))
  }

  /**
   * An item is shown exactly when some filtered order carries its order
   * number, as often as it occurs in the input; items keep their order.
   */
  lemma FilteredItemsSpec(filtered: seq<Pedido>, items: seq<ItemPedido>)
    ensures forall it :: it in FilteredItems(filtered, items) <==> it in items && exists p :: p in filtered && p.pedido == it.pedido
    ensures forall it :: (multiset(FilteredItems(filtered, items))[it] ==
      if exists p :: p in filtered && p.pedido == it.pedido then multiset(items)[it] else 0)
    ensures IsSubsequence(FilteredItems(filtered, items), items)
  {
    var pedidoIds := set p | p in filtered :: p.pedido;
    FilterMembership(items, BelongsTo(pedidoIds));
    FilterMultiset(items, BelongsTo(pedidoIds));
    FilterIsSubsequence(items, BelongsTo(pedidoIds));
  }

  /** Narrowing the orders never adds items. */
  lemma FilteredItemsMonotone(a: seq<Pedido>, b: seq<Pedido>, items: seq<ItemPedido>)
    requires forall p :: p in a ==> p in b
    ensures |FilteredItems(a, items)| <= |FilteredItems(b, items)|
    ensures forall it :: it in FilteredItems(a, items) ==> it in FilteredItems(b, items)
  {
    FilteredItemsSpec(a, items);
    FilteredItemsSpec(b, items);
    var ia := set p | p in a :: p.pedido;
    var ib := set p | p in b :: p.pedido;
    FilterWeaker(items, BelongsTo(ia), BelongsTo(ib));
  }

  // ---------------------------------------------------------------- status card

  function IsFinalizado(p: Pedido): bool { p.status == Finalizado }

  /** The "FINALIZADO" tile: how many filtered orders are completed. */
  function StatusCount(filtered: seq<Pedido>): (n: nat)
    ensures n <= |filtered|
    ensures n == |filtered| <==> forall i :: 0 <= i < |filtered| ==> filtered[i].status == Finalizado
  {
    StatusCountFacts(filtered);
    |Filter(filtered, IsFinalizado)|
  }

  lemma StatusCountFacts(filtered: seq<Pedido>)
    ensures |Filter(filtered, IsFinalizado)| == |filtered| <==> forall i :: 0 <= i < |filtered| ==> filtered[i].status == Finalizado
  {
    if forall i :: 0 <= i < |filtered| ==> filtered[i].status == Finalizado {
      FilterKeepsAll(filtered, IsFinalizado);
    } else {
      var i :| 0 <= i < |filtered| && filtered[i].status != Finalizado;
      FilterShrinks(filtered, IsFinalizado, i);
    }
  }
}

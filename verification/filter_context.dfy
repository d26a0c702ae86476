/**
 * The dashboard's shared filter state and the three ways the components
 * change it: set one field, toggle one value of a list field, reset all.
 */
module FilterContext {
  import opened Wrappers
  import opened Seqs

  datatype PrazoStatus = All | NoPrazo | ForaPrazo

  /**
   * The active filters. An empty list field means "no restriction on that
   * field"; `selectedPedido` is the record id of the order picked in the
   * orders table, if any.
   */
  datatype Filters = Filters(
    year: int,
    months: seq<string>,
    regions: seq<string>,
    states: seq<string>,
    modalities: seq<string>,
    serviceTypes: seq<string>,
    selectedPedido: Option<string>,
    prazoStatus: PrazoStatus)

  /** The five list fields that `toggleArrayFilter` accepts. */
  datatype ListKey = Months | Regions | States | Modalities | ServiceTypes

  /** Every field of `Filters`, as the key argument of `updateFilter`. */
  datatype Field = Year | List(key: ListKey) | SelectedPedido | Prazo

  /**
   * `updateFilter(key, value)`: the key together with a value of that key's
   * type.
   */
  datatype Update =
    | SetYear(year: int)
    | SetList(key: ListKey, values: seq<string>)
    | SetSelectedPedido(selected: Option<string>)
    | SetPrazoStatus(status: PrazoStatus)
  {
    function Target(): Field
    {
      match this
      case SetYear(_) => Year
      case SetList(k, _) => List(k)
      case SetSelectedPedido(_) => SelectedPedido
      case SetPrazoStatus(_) => Prazo
    }
  }

  function GetList(f: Filters, key: ListKey): seq<string>
  {
    match key
    case Months => f.months
    case Regions => f.regions
    case States => f.states
    case Modalities => f.modalities
    case ServiceTypes => f.serviceTypes
  }

  /** No list field restricts anything and every delivery status is accepted. */
  predicate NoRestriction(f: Filters)
  {
    forall key :: GetList(f, key) == [] && f.prazoStatus == All
  }

  /** `f` and `g` hold the same value in every field except possibly `field`. */
  predicate AgreeOutside(f: Filters, g: Filters, field: Field)
  {
    && (field != Year ==> f.year == g.year)
    && (forall key :: field != List(key) ==> GetList(f, key) == GetList(g, key))
    && (field != SelectedPedido ==> f.selectedPedido == g.selectedPedido)
    && (field != Prazo ==> f.prazoStatus == g.prazoStatus)
  }

  /** `u` has taken effect in `f`: the field it names holds the value it carries. */
  predicate Applied(f: Filters, u: Update)
  {
    match u
    case SetYear(y) => f.year == y
    case SetList(k, vs) => GetList(f, k) == vs
    case SetSelectedPedido(s) => f.selectedPedido == s
    case SetPrazoStatus(p) => f.prazoStatus == p
  }

  /** The state the dashboard starts in and `clearFilters` returns to: year 2024 and nothing restricted. */
  function DefaultFilters(): (f: Filters)
    ensures f.year == 2024
    ensures NoRestriction(f) && f.selectedPedido == None
  {
    Filters(2024, [], [], [], [], [], None, All)
  }

  /** `{ ...f, [key]: values }` for a list field. */
  function WithList(f: Filters, key: ListKey, values: seq<string>): (r: Filters)
    ensures GetList(r, key) == values
    ensures AgreeOutside(f, r, List(key))
  {
    match key
    case Months => f.(months := values)
    case Regions => f.(regions := values)
    case States => f.(states := values)
    case Modalities => f.(modalities := values)
    case ServiceTypes => f.(serviceTypes := values)
  }

  /** `updateFilter`: the named field takes the new value, every other field keeps its value. */
  function WithUpdate(f: Filters, u: Update): (r: Filters)
    ensures Applied(r, u)
    ensures AgreeOutside(f, r, u.Target())
  {
    match u
    case SetYear(y) => f.(year := y)
    case SetList(k, vs) => WithList(f, k, vs)
    case SetSelectedPedido(s) => f.(selectedPedido := s)
    case SetPrazoStatus(p) => f.(prazoStatus := p)
  }

  /** Two states that agree outside one field and hold the same value in it are equal. */
  lemma {:induction false} Extensionality(f: Filters, g: Filters, u: Update)
    requires AgreeOutside(f, g, u.Target()) && Applied(f, u) && Applied(g, u)
    ensures f == g
  {
    assert GetList(f, Months) == GetList(g, Months);
    assert GetList(f, Regions) == GetList(g, Regions);
    assert GetList(f, States) == GetList(g, States);
    assert GetList(f, Modalities) == GetList(g, Modalities);
    assert GetList(f, ServiceTypes) == GetList(g, ServiceTypes);
  }

  /** A second update of the same field overrides the first. */
  lemma UpdateOverwrites(f: Filters, u: Update, w: Update)
    requires u.Target() == w.Target()
    ensures WithUpdate(WithUpdate(f, u), w) == WithUpdate(f, w)
  {
    Extensionality(WithUpdate(WithUpdate(f, u), w), WithUpdate(f, w), w);
  }

  /** Updates of different fields commute. */
  lemma UpdatesCommute(f: Filters, u: Update, w: Update)
    requires u.Target() != w.Target()
    ensures WithUpdate(WithUpdate(f, u), w) == WithUpdate(WithUpdate(f, w), u)
  {
    var a := WithUpdate(WithUpdate(f, u), w);
    var b := WithUpdate(WithUpdate(f, w), u);
    assert GetList(a, Months) == GetList(b, Months);
    assert GetList(a, Regions) == GetList(b, Regions);
    assert GetList(a, States) == GetList(b, States);
    assert GetList(a, Modalities) == GetList(b, Modalities);
    assert GetList(a, ServiceTypes) == GetList(b, ServiceTypes);
  }

  // ---------------------------------------------------------- toggleArrayFilter

  function NotEqual(v: string): string -> bool
  {
    x => x != v
  }

  /** `values.filter(x => x !== v)`: every other value stays, each as often as before, in order; `v` goes. */
  function RemoveAll(values: seq<string>, v: string): (r: seq<string>)
    ensures forall x :: x in r <==> x in values && x != v
    ensures forall x :: x != v ==> multiset(r)[x] == multiset(values)[x]
    ensures IsSubsequence(r, values)
  {
    FilterMembership(values, NotEqual(v));
    FilterMultiset(values, NotEqual(v));
    FilterIsSubsequence(values, NotEqual(v));
    Filter(values, NotEqual(v))
  }

  /**
   * A chip or chart click: a value already in the list is removed (every
   * occurrence of it); an absent value is appended at the end.
   */
  function Toggle(values: seq<string>, v: string): (r: seq<string>)
    ensures v in r <==> v !in values
    ensures forall x :: x != v ==> (x in r <==> x in values)
    ensures v !in values ==> r == values + [v]
    ensures v in values ==> |r| < |values| && IsSubsequence(r, values)
  {
    if v in values then
      RemoveAllFacts(values, v);
      RemoveAll(values, v)
    else
      values + [v]
  }

  lemma RemoveAllFacts(values: seq<string>, v: string)
    requires v in values
    ensures v !in RemoveAll(values, v)
    ensures forall x :: x != v ==> (x in RemoveAll(values, v) <==> x in values)
    ensures |RemoveAll(values, v)| < |values| && IsSubsequence(RemoveAll(values, v), values)
  {
    FilterMembership(values, NotEqual(v));
    FilterIsSubsequence(values, NotEqual(v));
    var i :| 0 <= i < |values| && values[i] == v;
    FilterShrinks(values, NotEqual(v), i);
  }

  /** Removing a value deletes exactly its occurrences and keeps every other value's multiplicity. */
  lemma {:induction false} RemoveAllMultiset(values: seq<string>, v: string)
    ensures multiset(RemoveAll(values, v)) == multiset(values)[v := 0]
  {
    if values != [] {
      RemoveAllMultiset(values[1..], v);
      assert values == [values[0]] + values[1..];
    }
  }

  /**
   * Toggling a present value removes every occurrence of it and nothing
   * else, the remaining values in their order.
   */
  lemma ToggleRemovesAll(values: seq<string>, v: string)
    requires v in values
    ensures v !in Toggle(values, v)
    ensures IsSubsequence(Toggle(values, v), values)
    ensures multiset(Toggle(values, v)) == multiset(values)[v := 0]
  {
    RemoveAllMultiset(values, v);
  }

  /** Toggling an absent value twice gives back the original list. */
  lemma ToggleTwiceAbsent(values: seq<string>, v: string)
    requires v !in values
    ensures Toggle(Toggle(values, v), v) == values
  {
    var t := values + [v];
    FilterAppend(values, [v], NotEqual(v));
    FilterKeepsAll(values, NotEqual(v));
    assert [v][1..] == [];
  }

  /** Toggling a present value twice leaves one occurrence of it, moved to the end. */
  lemma ToggleTwicePresent(values: seq<string>, v: string)
    requires v in values
    ensures Toggle(Toggle(values, v), v) == RemoveAll(values, v) + [v]
  {
  }

  /** A list without repeated values stays without them. */
  lemma ToggleKeepsDistinct(values: seq<string>, v: string)
    requires NoDuplicates(values)
    ensures NoDuplicates(Toggle(values, v))
  {
    if v in values {
      RemoveAllFacts(values, v);
      SubsequenceDistinct(RemoveAll(values, v), values);
    } else {
      var r := values + [v];
      forall i, j | 0 <= i < j < |r| ensures r[i] != r[j] {
        if j == |values| {
          assert r[i] == values[i];
        }
      }
    }
  }

  /** `toggleArrayFilter(key, v)`: toggles `v` in the list field `key` and leaves every other field alone. */
  function WithToggle(f: Filters, key: ListKey, v: string): (r: Filters)
    ensures AgreeOutside(f, r, List(key))
    ensures v in GetList(r, key) <==> v !in GetList(f, key)
    ensures forall x :: x != v ==> (x in GetList(r, key) <==> x in GetList(f, key))
  {
    WithList(f, key, Toggle(GetList(f, key), v))
  }

  /** A toggle is the `updateFilter` of the toggled list. */
  lemma ToggleIsUpdate(f: Filters, key: ListKey, v: string)
    ensures WithToggle(f, key, v) == WithUpdate(f, SetList(key, Toggle(GetList(f, key), v)))
  {
  }

  /** The `FilterProvider` component: the one piece of state every view reads. */
  class FilterProvider {
    var filters: Filters

    constructor()
      ensures filters == DefaultFilters()
    {
      filters := DefaultFilters();
    }

    method UpdateFilter(u: Update)
      modifies this
      ensures filters == WithUpdate(old(filters), u)
    {
      filters := WithUpdate(filters, u);
    }

    method ClearFilters()
      modifies this
      ensures filters == DefaultFilters()
    {
      filters := DefaultFilters();
    }

    method ToggleArrayFilter(key: ListKey, v: string)
      modifies this
      ensures filters == WithToggle(old(filters), key, v)
    {
      var currentValues := GetList(filters, key);
      var newValues := if v in currentValues then RemoveAll(currentValues, v) else currentValues + [v];
      filters := WithList(filters, key, newValues);
    }
  }
}

/**
 * The order records, their line items, the fixed enumerations and the
 * aggregations the dashboard draws its cards and charts from.
 */
module MockData {
  import opened Seqs
  import opened Sorting

  datatype Status = Finalizado | EmTransito | Pendente

  /** One logistics order. `dataEntrega` is a `YYYY-MM-DD` date string. */
  datatype Pedido = Pedido(
    id: string,
    nMov: string,
    pedido: string,
    tipoServico: string,
    modalidade: string,
    cidadeOrigem: string,
    estado: string,
    regiao: string,
    campanha: string,
    status: Status,
    noPrazo: bool,
    dataEntrega: string)

  /** One line item, joined to its order through the order number `pedido`. */
  datatype ItemPedido = ItemPedido(
    pedido: string,
    codItem: string,
    descricao: string,
    subgrupo: string,
    qtde: int,
    volumeTotal: real,
    valorTotal: real)

  const Regioes: seq<string> := ["Sudeste", "Nordeste", "Sul", "Centro-Oeste", "Norte"]

  const Estados: map<string, seq<string>> := map[
    "Sudeste" := ["SP", "RJ", "MG", "ES"],
    "Nordeste" := ["BA", "PE", "CE", "MA", "PB", "RN", "AL", "SE", "PI"],
    "Sul" := ["PR", "SC", "RS"],
    "Centro-Oeste" := ["GO", "MT", "MS", "DF"],
    "Norte" := ["AM", "PA", "AC", "RO", "RR", "AP", "TO"]
  ]

  const Meses: seq<string> := [
    "janeiro", "fevereiro", "março", "abril", "maio", "junho",
    "julho", "agosto", "setembro", "outubro", "novembro", "dezembro"
  ]

  const Modalidades: seq<string> := ["RODOVIÁRIO", "EXCLUSIVO", "AÉREO"]

  const TiposServico: seq<string> := ["ENTREGA", "COLETA", "DIFAL", "REVERSA"]

  /** The state table is keyed by exactly the five regions. */
  lemma EstadosKeys()
    ensures Estados.Keys == set r | r in Regioes
  {
  }

  /** No state code repeats within a region, and there are 27 codes in all. */
  lemma EstadosDistinct()
    ensures forall r :: r in Estados ==> NoDuplicates(Estados[r])
    ensures |Estados["Sudeste"]| + |Estados["Nordeste"]| + |Estados["Sul"]| + |Estados["Centro-Oeste"]| + |Estados["Norte"]| == 27
  {
  }

  /** Every state code belongs to exactly one region. */
  lemma EstadosDisjoint()
    ensures forall r1, r2, s :: r1 in Estados && r2 in Estados && s in Estados[r1] && s in Estados[r2] ==> r1 == r2
  {
  }

  lemma RegioesDistinct()
    ensures NoDuplicates(Regioes)
  {
  }

  /** The twelve month names are distinct, so a name picks out one month. */
  lemma MesesDistinct()
    ensures |Meses| == 12 && NoDuplicates(Meses)
  {
  }

  /** A two-letter state code listed under some region. */
  predicate IsSigla(s: string)
  {
    exists r :: r in Estados && s in Estados[r]
  }

  // ---------------------------------------------------------------- counting

  /** The record fields the charts group by. */
  datatype Facet = Regiao | Estado | Modalidade | TipoServico

  function FacetValue(p: Pedido, facet: Facet): string
  {
    match facet
    case Regiao => p.regiao
    case Estado => p.estado
    case Modalidade => p.modalidade
    case TipoServico => p.tipoServico
  }

  function HasValue(facet: Facet, v: string): Pedido -> bool
  {
    p => FacetValue(p, facet) == v
  }

  function HasValueIn(facet: Facet, names: set<string>): Pedido -> bool
  {
    p => FacetValue(p, facet) in names
  }

  /** How many records carry `v` in the field `facet`. */
  function CountOf(ps: seq<Pedido>, facet: Facet, v: string): nat
  {
    |Filter(ps, HasValue(facet, v))|
  }

  /** How many records carry one of `names` in the field `facet`. */
  function CountIn(ps: seq<Pedido>, facet: Facet, names: set<string>): nat
  {
    |Filter(ps, HasValueIn(facet, names))|
  }

  /** The counts of `names`, added up in order. */
  function SumCounts(ps: seq<Pedido>, facet: Facet, names: seq<string>): int
  {
    if names == [] then 0 else CountOf(ps, facet, names[0]) + SumCounts(ps, facet, names[1..])
  }

  /** Appending one record adds one to the count of its own value and nothing to the others. */
  lemma CountOfSnoc(ps: seq<Pedido>, p: Pedido, facet: Facet)
    ensures forall v :: CountOf(ps + [p], facet, v) == CountOf(ps, facet, v) + (if FacetValue(p, facet) == v then 1 else 0)
  {
    forall v ensures CountOf(ps + [p], facet, v) == CountOf(ps, facet, v) + (if FacetValue(p, facet) == v then 1 else 0) {
      FilterAppend(ps, [p], HasValue(facet, v));
      assert [p][1..] == [];
    }
  }

  /** Counting a set of values is counting one of them plus counting the rest. */
  lemma {:induction false} CountSplit(ps: seq<Pedido>, facet: Facet, names: set<string>, k: string)
    requires k in names
    ensures CountIn(ps, facet, names) == CountOf(ps, facet, k) + CountIn(ps, facet, names - {k})
  {
    if ps != [] {
      CountSplit(ps[1..], facet, names, k);
    }
  }

  /** Over distinct names, the per-name counts add up to the count of the whole set. */
  lemma {:induction false} SumCountsIsCountIn(ps: seq<Pedido>, facet: Facet, names: seq<string>)
    requires NoDuplicates(names)
    ensures SumCounts(ps, facet, names) == CountIn(ps, facet, set n | n in names)
  {
    if names == [] {
      assert (set n | n in names) == {};
      FilterNone(ps, HasValueIn(facet, {}));
    } else {
      var all := set n | n in names;
      var rest := set n | n in names[1..];
      assert all - {names[0]} == rest;
      SumCountsIsCountIn(ps, facet, names[1..]);
      CountSplit(ps, facet, all, names[0]);
    }
  }

  /** When every record's value is one of `names`, the counts of `names` add up to the number of records. */
  lemma SumCountsCoversAll(ps: seq<Pedido>, facet: Facet, names: seq<string>)
    requires NoDuplicates(names)
    requires forall i :: 0 <= i < |ps| ==> FacetValue(ps[i], facet) in names
    ensures SumCounts(ps, facet, names) == |ps|
  {
    SumCountsIsCountIn(ps, facet, names);
    FilterKeepsAll(ps, HasValueIn(facet, set n | n in names));
  }

  /** A sequence whose i-th element holds the count of `names[i]` sums to the counts of `names`. */
  lemma {:induction false} SumOfCounts<T>(r: seq<T>, f: T -> int, ps: seq<Pedido>, facet: Facet, names: seq<string>)
    requires |r| == |names|
    requires forall i :: 0 <= i < |r| ==> f(r[i]) == CountOf(ps, facet, names[i])
    ensures SumOf(r, f) == SumCounts(ps, facet, names)
  {
    if r != [] {
      SumOfCounts(r[1..], f, ps, facet, names[1..]);
    }
  }

  // ------------------------------------------------------------ getMetrics

  datatype Metrics = Metrics(
    total: nat,
    noPrazo: nat,
    foraPrazo: int,
    percentualNoPrazo: real,
    percentualForaPrazo: real)

  function OnTime(p: Pedido): bool { p.noPrazo }

  /**
   * The summary cards: record count, on-time and late counts and their
   * percentages, both 0 when there are no records.
   */
  function GetMetrics(ps: seq<Pedido>): (m: Metrics)
    ensures m.total == |ps|
    ensures m.noPrazo == |Filter(ps, OnTime)|
    ensures m.foraPrazo >= 0 && m.noPrazo + m.foraPrazo == m.total
    ensures m.total == 0 ==> m.percentualNoPrazo == 0.0 && m.percentualForaPrazo == 0.0
    ensures m.total > 0 ==> m.percentualNoPrazo * (m.total as real) == (m.noPrazo as real) * 100.0
    ensures m.total > 0 ==> m.percentualNoPrazo + m.percentualForaPrazo == 100.0
    ensures 0.0 <= m.percentualNoPrazo <= 100.0 && 0.0 <= m.percentualForaPrazo <= 100.0
  {
    var total := |ps|;
    var noPrazo := |Filter(ps, OnTime)|;
    var foraPrazo := total - noPrazo;
    var percentualNoPrazo := if total > 0 then (noPrazo as real / total as real) * 100.0 else 0.0;
    var percentualForaPrazo := if total > 0 then (foraPrazo as real / total as real) * 100.0 else 0.0;
    PercentagesComplement(noPrazo, foraPrazo, total);
    Metrics(total, noPrazo, foraPrazo, percentualNoPrazo, percentualForaPrazo)
  }

  lemma PercentagesComplement(a: nat, b: int, total: nat)
    requires a + b == total && b >= 0
    ensures total > 0 ==> (a as real / total as real) * 100.0 + (b as real / total as real) * 100.0 == 100.0
    ensures total > 0 ==> 0.0 <= (a as real / total as real) * 100.0 <= 100.0
    ensures total > 0 ==> 0.0 <= (b as real / total as real) * 100.0 <= 100.0
    ensures total > 0 ==> (a as real / total as real) * 100.0 * (total as real) == (a as real) * 100.0
  {
    if total > 0 {
      var t := total as real;
      assert a as real / t + b as real / t == (a as real + b as real) / t;
      assert (a as real + b as real) / t == 1.0;
      assert a as real / t <= 1.0;
      assert b as real / t <= 1.0;
    }
  }

  // --------------------------------------------------- the object used as a tally

  /** A JavaScript object used as a dictionary: its keys in insertion order and the value under each. */
  datatype Record = Record(keys: seq<string>, values: map<string, int>)
  {
    ghost predicate Valid()
    {
      NoDuplicates(keys) && forall k :: k in values <==> k in keys
    }

    /** `record[k] = v`: a new key goes to the end of the key order, an existing one keeps its place. */
    function Set(k: string, v: int): (r: Record)
      requires Valid()
      ensures r.Valid()
      ensures r.keys == if k in keys then keys else keys + [k]
      ensures r.values == values[k := v]
    {
      Record(if k in values then keys else keys + [k], values[k := v])
    }
  }

  /**
   * `names.forEach(n => distribution[n] = 0)` and then
   * `ps.forEach(p => distribution[value(p)]++)`: the shared counting loop of
   * the three dense distributions.
   */
  method Tabulate(ps: seq<Pedido>, facet: Facet, names: seq<string>) returns (d: Record)
    requires NoDuplicates(names)
    requires forall i :: 0 <= i < |ps| ==> FacetValue(ps[i], facet) in names
    ensures d.Valid() && d.keys == names
    ensures forall n :: n in d.values ==> d.values[n] == CountOf(ps, facet, n)
  {
    d := Zeros(names);
    assert Counts(d, ps[..0], facet);
    for i := 0 to |ps|
      invariant d.Valid() && d.keys == names
      invariant Counts(d, ps[..i], facet)
    {
      d := Increment(d, ps[..i], ps[i], facet);
      TakeSnoc(ps, i);
    }
    assert ps[..|ps|] == ps;
  }

  /** Each key of `d` holds how many records of `ps` carry it in the field `facet`. */
  ghost predicate Counts(d: Record, ps: seq<Pedido>, facet: Facet)
  {
    forall n :: n in d.values ==> d.values[n] == CountOf(ps, facet, n)
  }

  /** The first loop of the tally: every name gets the value 0, in order. */
  method Zeros(names: seq<string>) returns (d: Record)
    requires NoDuplicates(names)
    ensures d.Valid() && d.keys == names
    ensures forall n :: n in d.values ==> d.values[n] == 0
  {
    d := Record([], map[]);
    for k := 0 to |names|
      invariant d.Valid() && d.keys == names[..k]
      invariant forall n :: n in d.values ==> d.values[n] == 0
    {
      assert names[k] !in names[..k];
      d := d.Set(names[k], 0);
      TakeSnoc(names, k);
    }
    assert names[..|names|] == names;
  }

  /** One step of the second loop: the counter of `p`'s value goes up by one. */
  method Increment(d: Record, ps: seq<Pedido>, p: Pedido, facet: Facet) returns (d': Record)
    requires d.Valid() && FacetValue(p, facet) in d.keys
    requires Counts(d, ps, facet)
    ensures d'.Valid() && d'.keys == d.keys
    ensures Counts(d', ps + [p], facet)
  {
    var v := FacetValue(p, facet);
    CountOfSnoc(ps, p, facet);
    d' := d.Set(v, d.values[v] + 1);
  }

  // --------------------------------------------------- getRegionDistribution

  /** The pie-chart label: the string "0" when there are no records, otherwise the exact share rendered with two decimals. */
  datatype Percentage = PlainZero | TwoDecimals(exact: real)

  datatype RegionSlice = RegionSlice(name: string, value: nat, percentage: Percentage)

  function SliceValue(s: RegionSlice): int { s.value }

  function RegionPercentage(value: nat, total: nat): (p: Percentage)
    ensures total == 0 <==> p == PlainZero
    ensures total > 0 ==> p.exact * (total as real) == (value as real) * 100.0
  {
    if total > 0 then TwoDecimals((value as real / total as real) * 100.0) else PlainZero
  }

  /**
   * One slice per region, in the order of `Regioes`, with the number of
   * records in it and its share of all records.
   */
  method GetRegionDistribution(ps: seq<Pedido>) returns (r: seq<RegionSlice>)
    requires forall i :: 0 <= i < |ps| ==> ps[i].regiao in Regioes
    ensures |r| == |Regioes|
    ensures forall i :: 0 <= i < |r| ==> r[i].name == Regioes[i] && r[i].value == CountOf(ps, Regiao, Regioes[i])
    ensures forall i :: 0 <= i < |r| ==> r[i].percentage == RegionPercentage(r[i].value, |ps|)
    ensures SumOf(r, SliceValue) == |ps|
  {
    RegioesDistinct();
    var distribution := Tabulate(ps, Regiao, Regioes);
    var total := |ps|;
    r := seq(|Regioes|, k requires 0 <= k < |Regioes| =>
      var value := distribution.values[Regioes[k]];
      RegionSlice(Regioes[k], value, RegionPercentage(value, total)));
    SumOfCounts(r, SliceValue, ps, Regiao, Regioes);
    SumCountsCoversAll(ps, Regiao, Regioes);
  }

  // ------------------------------ getModalityDistribution, getServiceTypeDistribution

  datatype Entry = Entry(name: string, value: nat)

  function EntryValue(e: Entry): int { e.value }

  /** Entries are sorted by their count. */
  function EntryKey(e: Entry): SortKey { Num(e.value as real) }

  /** One entry per name, in the order of `names`, holding its count. */
  function Tally(ps: seq<Pedido>, facet: Facet, names: seq<string>): (t: seq<Entry>)
    ensures |t| == |names|
  {
    seq(|names|, i requires 0 <= i < |names| => Entry(names[i], CountOf(ps, facet, names[i])))
  }

  /**
   * The counts of `names`, largest first; `sort` is stable, so equal counts
   * keep the order of `names`.
   */
  method SortedDistribution(ps: seq<Pedido>, facet: Facet, names: seq<string>) returns (r: seq<Entry>)
    requires NoDuplicates(names)
    requires forall i :: 0 <= i < |ps| ==> FacetValue(ps[i], facet) in names
    ensures |r| == |names|
    ensures multiset(r) == multiset(Tally(ps, facet, names))
    ensures forall i, j :: 0 <= i < j < |r| ==> r[i].value >= r[j].value
    ensures forall k :: WithKey(r, EntryKey, k) == WithKey(Tally(ps, facet, names), EntryKey, k)
    ensures SumOf(r, EntryValue) == |ps|
  {
    var distribution := Tabulate(ps, facet, names);
    var entries := seq(|names|, k requires 0 <= k < |names| => Entry(names[k], distribution.values[names[k]]));
    assert entries == Tally(ps, facet, names);
    var a := new Entry[|entries|](k requires 0 <= k < |entries| => entries[k]);
    ghost var before := a[..];
    assert before == entries;
    SortInPlace(a, EntryKey, true);
    r := a[..];
    SortedByCount(before, r);
    TallySum(ps, facet, names);
  }

  /** The counts of a tally over all the names add up to the number of records. */
  lemma TallySum(ps: seq<Pedido>, facet: Facet, names: seq<string>)
    requires NoDuplicates(names)
    requires forall i :: 0 <= i < |ps| ==> FacetValue(ps[i], facet) in names
    ensures SumOf(Tally(ps, facet, names), EntryValue) == |ps|
  {
    SumOfCounts(Tally(ps, facet, names), EntryValue, ps, facet, names);
    SumCountsCoversAll(ps, facet, names);
  }

  /** What sorting entries by count, descending, guarantees. */
  lemma SortedByCount(entries: seq<Entry>, r: seq<Entry>)
    requires r == SortSeq(entries, EntryKey, true)
    ensures |r| == |entries|
    ensures multiset(r) == multiset(entries)
    ensures forall i, j :: 0 <= i < j < |r| ==> r[i].value >= r[j].value
    ensures forall k :: WithKey(r, EntryKey, k) == WithKey(entries, EntryKey, k)
    ensures SumOf(r, EntryValue) == SumOf(entries, EntryValue)
  {
    SortSorted(entries, EntryKey, true);
    forall i, j | 0 <= i < j < |r| ensures r[i].value >= r[j].value {
      assert Cmp(r[i], r[j], EntryKey, true) <= 0;
    }
    forall k ensures WithKey(r, EntryKey, k) == WithKey(entries, EntryKey, k) {
      SortStable(entries, EntryKey, true, k);
    }
    assert |multiset(r)| == |multiset(entries)|;
    SumOfPermutation(entries, r, EntryValue);
  }

  /** The modality bar chart: one entry per modality, largest count first. */
  method GetModalityDistribution(ps: seq<Pedido>) returns (r: seq<Entry>)
    requires forall i :: 0 <= i < |ps| ==> ps[i].modalidade in Modalidades
    ensures |r| == |Modalidades|
    ensures multiset(r) == multiset(Tally(ps, Modalidade, Modalidades))
    ensures forall i, j :: 0 <= i < j < |r| ==> r[i].value >= r[j].value
    ensures forall k :: WithKey(r, EntryKey, k) == WithKey(Tally(ps, Modalidade, Modalidades), EntryKey, k)
    ensures SumOf(r, EntryValue) == |ps|
  {
    r := SortedDistribution(ps, Modalidade, Modalidades);
  }

  /** The service-type bar chart: one entry per service type, largest count first. */
  method GetServiceTypeDistribution(ps: seq<Pedido>) returns (r: seq<Entry>)
    requires forall i :: 0 <= i < |ps| ==> ps[i].tipoServico in TiposServico
    ensures |r| == |TiposServico|
    ensures multiset(r) == multiset(Tally(ps, TipoServico, TiposServico))
    ensures forall i, j :: 0 <= i < j < |r| ==> r[i].value >= r[j].value
    ensures forall k :: WithKey(r, EntryKey, k) == WithKey(Tally(ps, TipoServico, TiposServico), EntryKey, k)
    ensures SumOf(r, EntryValue) == |ps|
  {
    r := SortedDistribution(ps, TipoServico, TiposServico);
  }

  // ---------------------------------------------------- getStateDistribution

  /** A value is counted at least once exactly when some record carries it. */
  lemma CountPositive(ps: seq<Pedido>, facet: Facet, v: string)
    ensures CountOf(ps, facet, v) >= 1 <==> exists j :: 0 <= j < |ps| && FacetValue(ps[j], facet) == v
  {
    FilterMembership(ps, HasValue(facet, v));
    var f := Filter(ps, HasValue(facet, v));
    if |f| >= 1 {
      assert f[0] in f;
    }
    if exists j :: 0 <= j < |ps| && FacetValue(ps[j], facet) == v {
      var j :| 0 <= j < |ps| && FacetValue(ps[j], facet) == v;
      assert ps[j] in f;
    }
  }

  /**
   * The map's input: a key for each state some record has, in order of first
   * appearance, holding how many records have it.
   */
  method GetStateDistribution(ps: seq<Pedido>) returns (d: Record)
    requires forall i :: 0 <= i < |ps| ==> IsSigla(ps[i].estado)
    ensures d.Valid()
    ensures forall s :: s in d.values ==> IsSigla(s)
    ensures forall s :: s in d.values <==> exists i :: 0 <= i < |ps| && ps[i].estado == s
    ensures forall s :: s in d.values ==> d.values[s] == CountOf(ps, Estado, s) && d.values[s] >= 1
    ensures SumCounts(ps, Estado, d.keys) == |ps|
  {
    d := Record([], map[]);
    for i := 0 to |ps|
      invariant StateTally(d, ps[..i])
    {
      var s := ps[i].estado;
      var current := if s in d.values then d.values[s] else 0;
      StateStep(d, ps[..i], ps[i]);
      TakeSnoc(ps, i);
      d := d.Set(s, current + 1);
    }
    assert ps[..|ps|] == ps;
    StateTallyComplete(d, ps);
  }

  /** A tally of all the records has the keys, counts and total the map promises. */
  lemma StateTallyComplete(d: Record, ps: seq<Pedido>)
    requires StateTally(d, ps)
    ensures forall s :: s in d.values <==> exists i :: 0 <= i < |ps| && ps[i].estado == s
    ensures forall s :: s in d.values ==> d.values[s] >= 1
    ensures SumCounts(ps, Estado, d.keys) == |ps|
  {
    forall s ensures s in d.values <==> exists i :: 0 <= i < |ps| && ps[i].estado == s {
      CountPositive(ps, Estado, s);
    }
    SumCountsCoversAll(ps, Estado, d.keys);
  }

  /** `d` holds, for exactly the states counted in `ps`, how many records have each. */
  ghost predicate StateTally(d: Record, ps: seq<Pedido>)
  {
    && d.Valid()
    && (forall s :: s in d.values <==> CountOf(ps, Estado, s) >= 1)
    && (forall s :: s in d.values ==> d.values[s] == CountOf(ps, Estado, s))
  }

  /** One step of the state tally: `(distribution[estado] || 0) + 1`. */
  lemma StateStep(d: Record, ps: seq<Pedido>, p: Pedido)
    requires StateTally(d, ps)
    ensures StateTally(d.Set(p.estado, (if p.estado in d.values then d.values[p.estado] else 0) + 1), ps + [p])
  {
    CountOfSnoc(ps, p, Estado);
  }
}

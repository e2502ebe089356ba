/**
 * The data shaping done by the three chart builders of the chart module:
 * which records reach a chart, in which order, and the parallel label,
 * value and colour arrays handed to the charting library.
 *
 * Records are immutable values here, so the builders' habit of sorting a
 * copy (`[...data]`) rather than the caller's array holds by construction.
 */
module Charts {
  import opened Wrappers
  import opened Ranking
  import opened Decimal
  import PC = ProviderColors

  /**
   * One entry of a composite-score data file: a model, its provider and its
   * numeric fields. A metric that is `null` or missing in the file is a key
   * absent from `fields`.
   */
  datatype Record = Record(model: string, provider: string, fields: map<string, real>)

  /** `m[metric] != null`. */
  predicate HasMetric(r: Record, metric: string) {
    metric in r.fields
  }

  /** The value sorted on; only ever applied to records that have the metric. */
  function MetricOf(r: Record, metric: string): real {
    if metric in r.fields then r.fields[metric] else 0.0
  }

  /** The sort key of the builders' comparator `b[metric] - a[metric]`. */
  function KeyOf(metric: string): Record -> real {
    (r: Record) => MetricOf(r, metric)
  }

  /** `data.filter(m => m[metric] != null)`. */
  function Candidates(data: seq<Record>, metric: string): (r: seq<Record>)
    ensures forall i :: 0 <= i < |r| ==> HasMetric(r[i], metric)
  {
    if data == [] then []
    else (if HasMetric(data[0], metric) then [data[0]] else []) + Candidates(data[1..], metric)
  }

  /**
   * The candidates are exactly the records that have the metric, each as
   * often as in the input.
   */
  lemma {:induction false} CandidatesMultiset(data: seq<Record>, metric: string)
    ensures forall x :: multiset(Candidates(data, metric))[x]
                     == if HasMetric(x, metric) then multiset(data)[x] else 0
  {
    if data != [] {
      CandidatesMultiset(data[1..], metric);
      assert data == [data[0]] + data[1..];
    }
  }

  /** The candidates sorted by the metric, largest first. */
  function Ranked(data: seq<Record>, metric: string): seq<Record> {
    SortDesc(Candidates(data, metric), KeyOf(metric))
  }

  /** The number of bars the index page's charts show when no count is given. */
  const DefaultCount: int := 10

  /** The records of a top-`count` chart: the first `count` ranked records. */
  function TopRecords(data: seq<Record>, metric: string, count: int): seq<Record> {
    Take(Ranked(data, metric), count)
  }

  /** The bar label of the record at 1-based position `rank`: `${rank}. ${model}`. */
  function RankLabel(rank: nat, model: string): string {
    DecimalString(rank) + ". " + model
  }

  /** The three parallel arrays a single-series bar chart receives. */
  datatype BarSeries = BarSeries(labels: seq<string>, values: seq<real>, colors: seq<string>) {
    predicate Aligned() {
      |labels| == |values| == |colors|
    }
  }

  /** The `map` steps of a bar chart builder over the selected records. */
  function Bars(recs: seq<Record>, metric: string, ranked: bool): (c: BarSeries)
    ensures c.Aligned() && |c.labels| == |recs|
  {
    BarSeries(
      seq(|recs|, i requires 0 <= i < |recs| =>
        if ranked then RankLabel(i + 1, recs[i].model) else recs[i].model),
      seq(|recs|, i requires 0 <= i < |recs| => MetricOf(recs[i], metric)),
      seq(|recs|, i requires 0 <= i < |recs| => PC.ColorOf(recs[i].provider)))
  }

  /**
   * Bar `i` of `c` shows record `r`: its label (rank-prefixed if `ranked`),
   * its metric value and its provider's colour.
   */
  ghost predicate ShowsRecord(c: BarSeries, i: nat, r: Record, metric: string, ranked: bool) {
    && i < |c.labels| && i < |c.values| && i < |c.colors|
    && HasMetric(r, metric)
    && c.labels[i] == (if ranked then RankLabel(i + 1, r.model) else r.model)
    && c.values[i] == r.fields[metric]
    && c.colors[i] == PC.ColorOf(r.provider)
  }

  /** Bar `i` of `c` shows some record of `data` that has the metric. */
  ghost predicate BarFrom(c: BarSeries, i: nat, data: seq<Record>, metric: string, ranked: bool) {
    exists r :: r in data && ShowsRecord(c, i, r, metric, ranked)
  }

  /**
   * Bar `i` of `Bars(recs, ...)` shows `recs[i]`, so every bar shows a record
   * of `data` that has the metric.
   */
  lemma BarsFromInput(recs: seq<Record>, data: seq<Record>, metric: string, ranked: bool)
    requires forall i :: 0 <= i < |recs| ==> recs[i] in data && HasMetric(recs[i], metric)
    ensures forall i :: 0 <= i < |recs| ==> ShowsRecord(Bars(recs, metric, ranked), i, recs[i], metric, ranked)
    ensures forall i :: 0 <= i < |recs| ==> BarFrom(Bars(recs, metric, ranked), i, data, metric, ranked)
  {
    var c := Bars(recs, metric, ranked);
    forall i | 0 <= i < |recs| ensures ShowsRecord(c, i, recs[i], metric, ranked) && BarFrom(c, i, data, metric, ranked) {
      assert ShowsRecord(c, i, recs[i], metric, ranked);
    }
  }

  /** The series of `renderTopChart(canvasId, data, metric, label, count)`. */
  function TopChart(data: seq<Record>, metric: string, count: int): BarSeries {
    Bars(TopRecords(data, metric, count), metric, true)
  }

  /** The series of `renderAllModelsChart(canvasId, data, metric, label)`. */
  function AllModelsChart(data: seq<Record>, metric: string): BarSeries {
    Bars(Ranked(data, metric), metric, false)
  }

  /**
   * Filtering keeps input order: the candidates with metric value `k` are the
   * input's records with metric value `k`, in input order.
   */
  lemma {:induction false} CandidatesKeepOrder(data: seq<Record>, metric: string, k: real)
    ensures WithKey(Candidates(data, metric), KeyOf(metric), k)
         == Candidates(WithKey(data, KeyOf(metric), k), metric)
  {
    if data != [] {
      CandidatesKeepOrder(data[1..], metric, k);
      var key := KeyOf(metric);
      var head := if HasMetric(data[0], metric) then [data[0]] else [];
      WithKeyAppend(head, Candidates(data[1..], metric), key, k);
      var wk := (if key(data[0]) == k then [data[0]] else []);
      CandidatesAppend(wk, WithKey(data[1..], key, k), metric);
    }
  }

  lemma {:induction false} WithKeyAppend<T>(a: seq<T>, b: seq<T>, key: T -> real, k: real)
    ensures WithKey(a + b, key, k) == WithKey(a, key, k) + WithKey(b, key, k)
  {
    if a != [] {
      WithKeyAppend(a[1..], b, key, k);
      assert (a + b)[1..] == a[1..] + b;
    } else {
      assert a + b == b;
    }
  }

  lemma {:induction false} CandidatesAppend(a: seq<Record>, b: seq<Record>, metric: string)
    ensures Candidates(a + b, metric) == Candidates(a, metric) + Candidates(b, metric)
  {
    if a != [] {
      CandidatesAppend(a[1..], b, metric);
      assert (a + b)[1..] == a[1..] + b;
    } else {
      assert a + b == b;
    }
  }

  /**
   * The records of the all-models chart: every record that has the metric,
   * each as often as in the input and no other, in non-increasing metric
   * order, records with equal metric in input order.
   */
  lemma RankedIsStableSortOfCandidates(data: seq<Record>, metric: string)
    ensures forall i :: 0 <= i < |Ranked(data, metric)| ==> HasMetric(Ranked(data, metric)[i], metric)
    ensures forall x :: multiset(Ranked(data, metric))[x]
                     == if HasMetric(x, metric) then multiset(data)[x] else 0
    ensures SortedDesc(Ranked(data, metric), KeyOf(metric))
    ensures forall k :: WithKey(Ranked(data, metric), KeyOf(metric), k)
                     == Candidates(WithKey(data, KeyOf(metric), k), metric)
  {
    var c := Candidates(data, metric);
    SortDescCorrect(c, KeyOf(metric));
    CandidatesMultiset(data, metric);
    forall i | 0 <= i < |Ranked(data, metric)| ensures HasMetric(Ranked(data, metric)[i], metric) {
      assert Ranked(data, metric)[i] in multiset(c);
    }
    forall k ensures WithKey(Ranked(data, metric), KeyOf(metric), k)
                  == Candidates(WithKey(data, KeyOf(metric), k), metric) {
      CandidatesKeepOrder(data, metric, k);
    }
  }

  /**
   * The records of a top-`count` chart: `count` of them (or all candidates
   * when there are fewer), drawn from the candidates, in non-increasing metric
   * order, none smaller than a candidate left out, and records with equal
   * metric in input order.
   */
  lemma TopRecordsAreTheBest(data: seq<Record>, metric: string, count: int)
    ensures |TopRecords(data, metric, count)| == SliceEnd(|Candidates(data, metric)|, count)
    ensures multiset(TopRecords(data, metric, count)) <= multiset(Candidates(data, metric))
    ensures SortedDesc(TopRecords(data, metric, count), KeyOf(metric))
    ensures forall y, x :: y in TopRecords(data, metric, count)
              && x in multiset(Candidates(data, metric)) - multiset(TopRecords(data, metric, count))
              ==> MetricOf(y, metric) >= MetricOf(x, metric)
    ensures forall k :: IsPrefix(WithKey(TopRecords(data, metric, count), KeyOf(metric), k),
                                 Candidates(WithKey(data, KeyOf(metric), k), metric))
  {
    var r := Ranked(data, metric);
    RankedIsStableSortOfCandidates(data, metric);
    TakeKeepsLargest(r, count, KeyOf(metric));
    forall k ensures IsPrefix(WithKey(TopRecords(data, metric, count), KeyOf(metric), k),
                              Candidates(WithKey(data, KeyOf(metric), k), metric)) {
      WithKeyOfPrefix(r, SliceEnd(|r|, count), KeyOf(metric), k);
    }
  }

  /**
   * The top-N series: three index-aligned arrays, `min(count, candidates)`
   * long for a non-negative count; bar `i` shows the `i`-th of the top
   * records: rank `i + 1` and its model as label, its metric value and its
   * provider colour; so every bar shows an input record that has the metric,
   * and the values never increase.
   */
  lemma TopChartSeries(data: seq<Record>, metric: string, count: int)
    ensures TopChart(data, metric, count).Aligned()
    ensures count >= 0 ==> |TopChart(data, metric, count).values|
                           == if count < |Candidates(data, metric)| then count else |Candidates(data, metric)|
    ensures forall i, j :: 0 <= i < j < |TopChart(data, metric, count).values|
              ==> TopChart(data, metric, count).values[i] >= TopChart(data, metric, count).values[j]
    ensures |TopChart(data, metric, count).labels| == |TopRecords(data, metric, count)|
    ensures forall i :: 0 <= i < |TopRecords(data, metric, count)| ==>
              ShowsRecord(TopChart(data, metric, count), i, TopRecords(data, metric, count)[i], metric, true)
    ensures forall i :: 0 <= i < |TopChart(data, metric, count).labels| ==>
              BarFrom(TopChart(data, metric, count), i, data, metric, true)
  {
    var top := TopRecords(data, metric, count);
    TopRecordsAreTheBest(data, metric, count);
    CandidatesMultiset(data, metric);
    forall i | 0 <= i < |top| ensures top[i] in data && HasMetric(top[i], metric) {
      assert top[i] in multiset(Candidates(data, metric));
      assert top[i] in multiset(data);
    }
    BarsFromInput(top, data, metric, true);
  }

  /** Each top-N label starts with its 1-based rank, which can be read back. */
  lemma TopChartRanks(data: seq<Record>, metric: string, count: int, i: nat)
    requires i < |TopChart(data, metric, count).labels|
    ensures DecimalValue(LeadingDigits(TopChart(data, metric, count).labels[i])) == i + 1
  {
    var top := TopRecords(data, metric, count);
    LeadingDigitsOfNumeral(DecimalString(i + 1), ". " + top[i].model);
    assert TopChart(data, metric, count).labels[i] == DecimalString(i + 1) + (". " + top[i].model);
    DecimalRoundTrip(i + 1);
  }

  /**
   * The all-models series: three index-aligned arrays with one bar per
   * record that has the metric; bar `i` shows the `i`-th ranked record,
   * labelled with its bare model name, so values never increase and every
   * bar shows an input record that has the metric.
   */
  lemma AllModelsChartSeries(data: seq<Record>, metric: string)
    ensures AllModelsChart(data, metric).Aligned()
    ensures |AllModelsChart(data, metric).values| == |Candidates(data, metric)|
    ensures forall i, j :: 0 <= i < j < |AllModelsChart(data, metric).values|
              ==> AllModelsChart(data, metric).values[i] >= AllModelsChart(data, metric).values[j]
    ensures |AllModelsChart(data, metric).labels| == |Ranked(data, metric)|
    ensures forall i :: 0 <= i < |Ranked(data, metric)| ==>
              ShowsRecord(AllModelsChart(data, metric), i, Ranked(data, metric)[i], metric, false)
    ensures forall i :: 0 <= i < |AllModelsChart(data, metric).labels| ==>
              BarFrom(AllModelsChart(data, metric), i, data, metric, false)
  {
    var ranked := Ranked(data, metric);
    RankedIsStableSortOfCandidates(data, metric);
    forall i | 0 <= i < |ranked| ensures ranked[i] in data && HasMetric(ranked[i], metric) {
      assert multiset(ranked)[ranked[i]] > 0;
      assert multiset(data)[ranked[i]] > 0;
    }
    BarsFromInput(ranked, data, metric, false);
  }

  /** Every input record that has the metric gets a bar in the all-models chart. */
  lemma AllModelsChartCoversInput(data: seq<Record>, metric: string, r: Record)
    requires r in data && HasMetric(r, metric)
    ensures r.model in AllModelsChart(data, metric).labels
  {
    var ranked := Ranked(data, metric);
    RankedIsStableSortOfCandidates(data, metric);
    assert multiset(data)[r] > 0;
    assert multiset(ranked)[r] > 0;
    var i :| 0 <= i < |ranked| && ranked[i] == r;
    assert AllModelsChart(data, metric).labels[i] == r.model;
  }

  /**
   * One entry of the ACARA data file. The ACARA chart sorts on `accuracy`
   * without filtering, so the model requires it to be a number; the
   * consistency value is handed on as it is, null included.
   */
  datatype AcaraRecord = AcaraRecord(model: string, provider: string, accuracy: real, consistency: Option<real>)

  /** The sort key of the ACARA comparator `b.accuracy - a.accuracy`. */
  function Accuracy(): AcaraRecord -> real {
    (r: AcaraRecord) => r.accuracy
  }

  /** The ACARA records sorted by accuracy, largest first. */
  function AcaraOrder(data: seq<AcaraRecord>): seq<AcaraRecord> {
    SortDesc(data, Accuracy())
  }

  /** The hex alpha suffix that makes the consistency bars half transparent. */
  const HalfOpacity: string := "80"

  /** The arrays a two-series grouped bar chart receives. */
  datatype GroupedSeries = GroupedSeries(
    labels: seq<string>,
    accuracy: seq<real>,
    consistency: seq<Option<real>>,
    accuracyColors: seq<string>,
    consistencyColors: seq<string>)
  {
    predicate Aligned() {
      && |labels| == |accuracy| == |consistency|
      && |accuracy| == |accuracyColors| == |consistencyColors|
    }
  }

  /** The series of `renderAcaraChart(canvasId, data)`. */
  function AcaraChart(data: seq<AcaraRecord>): (g: GroupedSeries)
    ensures g.Aligned() && |g.labels| == |data|
  {
    var sorted := AcaraOrder(data);
    var colors := seq(|sorted|, i requires 0 <= i < |sorted| => PC.ColorOf(sorted[i].provider));
    GroupedSeries(
      seq(|sorted|, i requires 0 <= i < |sorted| => sorted[i].model),
      seq(|sorted|, i requires 0 <= i < |sorted| => sorted[i].accuracy),
      seq(|sorted|, i requires 0 <= i < |sorted| => sorted[i].consistency),
      colors,
      seq(|colors|, i requires 0 <= i < |colors| => colors[i] + HalfOpacity))
  }

  /**
   * Column `i` of `g` shows record `r`: its label, both of its values, its
   * provider colour, and that colour at half opacity for the second series.
   */
  ghost predicate ShowsAcaraRecord(g: GroupedSeries, i: nat, r: AcaraRecord) {
    && g.Aligned() && i < |g.labels|
    && g.labels[i] == r.model
    && g.accuracy[i] == r.accuracy
    && g.consistency[i] == r.consistency
    && g.accuracyColors[i] == PC.ColorOf(r.provider)
    && g.consistencyColors[i] == PC.ColorOf(r.provider) + HalfOpacity
  }

  ghost predicate ColumnFrom(g: GroupedSeries, i: nat, data: seq<AcaraRecord>) {
    exists r :: r in data && ShowsAcaraRecord(g, i, r)
  }

  /**
   * The ACARA order is a stable sort of the input: a permutation of it (no
   * record is dropped), in non-increasing accuracy order, with records of
   * equal accuracy in input order.
   */
  lemma AcaraOrderIsStableSort(data: seq<AcaraRecord>)
    ensures multiset(AcaraOrder(data)) == multiset(data)
    ensures SortedDesc(AcaraOrder(data), Accuracy())
    ensures forall k :: WithKey(AcaraOrder(data), Accuracy(), k) == WithKey(data, Accuracy(), k)
  {
    SortDescCorrect(data, Accuracy());
  }

  /**
   * The grouped series: column `i` shows the `i`-th record of the ACARA
   * order, pairing its two values under its label, so both series follow the
   * same accuracy-descending order and every column shows an input record; the consistency colour is the accuracy colour with the alpha
   * suffix `80`, an 8-digit `#RRGGBBAA` colour.
   */
  lemma AcaraChartSeries(data: seq<AcaraRecord>)
    ensures forall i, j :: 0 <= i < j < |AcaraChart(data).accuracy|
              ==> AcaraChart(data).accuracy[i] >= AcaraChart(data).accuracy[j]
    ensures |AcaraChart(data).labels| == |AcaraOrder(data)|
    ensures forall i :: 0 <= i < |AcaraOrder(data)| ==> ShowsAcaraRecord(AcaraChart(data), i, AcaraOrder(data)[i])
    ensures forall i :: 0 <= i < |AcaraChart(data).labels| ==> ColumnFrom(AcaraChart(data), i, data)
    ensures forall i :: 0 <= i < |AcaraChart(data).consistencyColors| ==>
              && AcaraChart(data).consistencyColors[i] == AcaraChart(data).accuracyColors[i] + "80"
              && PC.IsHexColor(AcaraChart(data).consistencyColors[i][..7])
  {
    var sorted := AcaraOrder(data);
    var g := AcaraChart(data);
    AcaraOrderIsStableSort(data);
    forall i | 0 <= i < |g.labels| ensures ShowsAcaraRecord(g, i, sorted[i]) && ColumnFrom(g, i, data) {
      assert multiset(sorted)[sorted[i]] > 0;
      assert ShowsAcaraRecord(g, i, sorted[i]);
    }
    forall i | 0 <= i < |g.consistencyColors|
      ensures PC.IsHexColor(g.consistencyColors[i][..7])
    {
      assert g.consistencyColors[i][..7] == g.accuracyColors[i];
    }
  }

  /** Every ACARA record gets a column. */
  lemma AcaraChartCoversInput(data: seq<AcaraRecord>, r: AcaraRecord)
    requires r in data
    ensures r.model in AcaraChart(data).labels
  {
    var sorted := AcaraOrder(data);
    AcaraOrderIsStableSort(data);
    assert multiset(data)[r] > 0;
    var i :| 0 <= i < |sorted| && sorted[i] == r;
    assert AcaraChart(data).labels[i] == r.model;
  }

  /**
   * An example of the top-N builder: with B at 95, A at 92 and C
   * without the metric, a top-2 chart shows B then A, and C not at all.
   */
  lemma TopChartExample()
    ensures TopChart(ExampleData(), "composite", 2)
         == BarSeries(["1. B", "2. A"], [95.0, 92.0], ["#D97757", "#10A37F"])
  {
    ExampleTopRecords();
    ExampleBars();
  }

  function ExampleData(): seq<Record> {
    [Record("A", "OpenAI", map["composite" := 92.0]),
     Record("B", "Anthropic", map["composite" := 95.0]),
     Record("C", "Google", map[])]
  }

  lemma ExampleTopRecords()
    ensures TopRecords(ExampleData(), "composite", 2) == [ExampleData()[1], ExampleData()[0]]
  {
    ExampleCandidates();
    ExampleSort();
  }

  lemma ExampleCandidates()
    ensures Candidates(ExampleData(), "composite") == [ExampleData()[0], ExampleData()[1]]
  {
    var data := ExampleData();
    var a, b, c := data[0], data[1], data[2];
    assert data[1..] == [b, c] && data[1..][1..] == [c] && [c][1..] == [];
    assert Candidates([c], "composite") == [];
    assert Candidates([b, c], "composite") == [b];
  }

  lemma ExampleSort()
    ensures SortDesc([ExampleData()[0], ExampleData()[1]], KeyOf("composite")) == [ExampleData()[1], ExampleData()[0]]
  {
    var data := ExampleData();
    var a, b := data[0], data[1];
    assert [a, b][1..] == [b] && [b][1..] == [];
    assert SortDesc([b], KeyOf("composite")) == [b];
    assert KeyOf("composite")(a) == 92.0 && KeyOf("composite")(b) == 95.0;
    assert Insert(a, [b], KeyOf("composite")) == [b, a];
  }

  lemma ExampleBars()
    ensures Bars([ExampleData()[1], ExampleData()[0]], "composite", true)
         == BarSeries(["1. B", "2. A"], [95.0, 92.0], ["#D97757", "#10A37F"])
  {
    var data := ExampleData();
    var ch := Bars([data[1], data[0]], "composite", true);
    assert ch.labels == ["1. B", "2. A"] by {
      assert DecimalString(1) == "1" && DecimalString(2) == "2";
      assert RankLabel(1, "B") == "1. B" && RankLabel(2, "A") == "2. A";
    }
    assert ch.colors == ["#D97757", "#10A37F"] by {
      PC.KnownProviderColors();
    }
  }
}

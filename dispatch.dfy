/**
 * The page controller of the chart module: on page load it decides from
 * which canvas ids exist which data files to fetch and which charts to draw.
 * Fetches and drawing are recorded as actions; the fetched data is an input,
 * `None` standing for a fetch or parse failure, which the handler's `catch`
 * reports and after which nothing more happens.
 */
module PageDispatch {
  import opened Wrappers
  import opened Charts

  const CompositeResource: string := "data/composite_scores.json"
  const AcaraResource: string := "data/acara_scores.json"

  /** The fixed value-axis bounds every builder passes to the charting library. */
  datatype Axis = Axis(min: int, max: int)
  const PercentAxis: Axis := Axis(50, 100)

  /** What a builder hands to the charting library. */
  datatype Chart =
    | HorizontalBars(series: BarSeries, axis: Axis)
    | VerticalBars(series: BarSeries, axis: Axis)
    | GroupedBars(grouped: GroupedSeries, axis: Axis)

  datatype Action =
    | Fetch(resource: string)
    | Draw(canvas: string, chart: Chart)
    | ReportFailure

  /**
   * `renderTopChart`: draws into `canvas` if the page has it, else does
   * nothing.
   */
  function RenderTop(present: set<string>, canvas: string, data: seq<Record>, metric: string, count: int)
    : (acts: seq<Action>)
  {
    if canvas in present then [TopDraw(canvas, data, metric, count)] else []
  }

  /** The draw of a top-`count` chart of `metric` into `canvas`. */
  function TopDraw(canvas: string, data: seq<Record>, metric: string, count: int): Action {
    Draw(canvas, HorizontalBars(TopChart(data, metric, count), PercentAxis))
  }

  /** `renderAllModelsChart`: draws into `canvas` if the page has it. */
  function RenderAllModels(present: set<string>, canvas: string, data: seq<Record>, metric: string)
    : (acts: seq<Action>)
  {
    if canvas in present then [AllModelsDraw(canvas, data, metric)] else []
  }

  /** The draw of an all-models chart of `metric` into `canvas`. */
  function AllModelsDraw(canvas: string, data: seq<Record>, metric: string): Action {
    Draw(canvas, VerticalBars(AllModelsChart(data, metric), PercentAxis))
  }

  /** `renderAcaraChart`: draws into `canvas` if the page has it. */
  function RenderAcara(present: set<string>, canvas: string, data: seq<AcaraRecord>): (acts: seq<Action>)
  {
    if canvas in present then [Draw(canvas, GroupedBars(AcaraChart(data), PercentAxis))] else []
  }

  /** The identity of a page, told apart only by its canvases. */
  datatype Page = Index | Results | Other

  function PageOf(present: set<string>): (p: Page)
    ensures p == Index <==> "eaiChart" in present && "scenariosChart" !in present
    ensures p == Results <==> "scenariosChart" in present
  {
    if "scenariosChart" in present then Results
    else if "eaiChart" in present then Index
    else Other
  }

  /** The (canvas, metric) pairs of the index page's top-10 charts, in drawing order. */
  const IndexCharts: seq<(string, string)> :=
    [("eaiChart", "composite"), ("neuromythsChart", "neuromyths_pct"), ("pedagogyChart", "pedagogy_pct")]

  /** The (canvas, metric) pairs of the results page's all-models charts, in drawing order. */
  const ResultsCharts: seq<(string, string)> :=
    [("eaiChart", "composite"), ("neuromythsChart", "neuromyths_pct"), ("scenariosChart", "scenarios_pct"),
     ("cdpkChart", "pedagogy_cdpk"), ("sendChart", "pedagogy_send")]

  /**
   * One guarded render per table entry, in table order: entry `(canvas,
   * metric)` draws `draw(canvas, metric)` if the page has `canvas`.
   */
  function Renders(present: set<string>, table: seq<(string, string)>, draw: (string, string) -> Action)
    : seq<Action>
  {
    if table == [] then []
    else
      var last := table[|table| - 1];
      Renders(present, table[..|table| - 1], draw) + (if last.0 in present then [draw(last.0, last.1)] else [])
  }

  /** The index page's draw for one table entry: a top-10 chart. */
  function TopDrawer(data: seq<Record>): (string, string) -> Action {
    (canvas: string, metric: string) => TopDraw(canvas, data, metric, DefaultCount)
  }

  /** The results page's draw for one table entry: an all-models chart. */
  function AllModelsDrawer(data: seq<Record>): (string, string) -> Action {
    (canvas: string, metric: string) => AllModelsDraw(canvas, data, metric)
  }

  /** The index page's renders, one per table entry, in table order. */
  function TopCharts(present: set<string>, table: seq<(string, string)>, data: seq<Record>): seq<Action> {
    Renders(present, table, TopDrawer(data))
  }

  /** The results page's renders, one per table entry, in table order. */
  function AllModelsCharts(present: set<string>, table: seq<(string, string)>, data: seq<Record>): seq<Action> {
    Renders(present, table, AllModelsDrawer(data))
  }

  /** The ACARA step of the results page: only where the page has `acaraChart`. */
  function AcaraStep(present: set<string>, acara: Option<seq<AcaraRecord>>): seq<Action> {
    if "acaraChart" !in present then []
    else [Fetch(AcaraResource)] + (match acara
      case None => [ReportFailure]
      case Some(d) => RenderAcara(present, "acaraChart", d))
  }

  /** What a page does on load, by its identity. */
  function Plan(present: set<string>, composite: Option<seq<Record>>, acara: Option<seq<AcaraRecord>>)
    : seq<Action>
  {
    match PageOf(present)
    case Other => []
    case Index => IndexSteps(present, composite)
    case Results => ResultsSteps(present, composite, acara)
  }

  lemma IndexChartsInOrder(present: set<string>, data: seq<Record>)
    ensures TopCharts(present, IndexCharts, data)
         == [] + RenderTop(present, "eaiChart", data, "composite", DefaultCount)
               + RenderTop(present, "neuromythsChart", data, "neuromyths_pct", DefaultCount)
               + RenderTop(present, "pedagogyChart", data, "pedagogy_pct", DefaultCount)
  {
    var f := TopDrawer(data);
    var t1 := [("eaiChart", "composite")];
    var t2 := t1 + [("neuromythsChart", "neuromyths_pct")];
    var a := RenderTop(present, "eaiChart", data, "composite", DefaultCount);
    var b := RenderTop(present, "neuromythsChart", data, "neuromyths_pct", DefaultCount);
    var c := RenderTop(present, "pedagogyChart", data, "pedagogy_pct", DefaultCount);
    assert Renders(present, t1, f) == [] + a by { assert t1[..0] == []; }
    assert Renders(present, t2, f) == [] + a + b by { assert t2[..1] == t1; }
    assert IndexCharts[..2] == t2;
  }

  lemma ResultsChartsInOrder(present: set<string>, data: seq<Record>)
    ensures AllModelsCharts(present, ResultsCharts, data)
         == [] + RenderAllModels(present, "eaiChart", data, "composite")
               + RenderAllModels(present, "neuromythsChart", data, "neuromyths_pct")
               + RenderAllModels(present, "scenariosChart", data, "scenarios_pct")
               + RenderAllModels(present, "cdpkChart", data, "pedagogy_cdpk")
               + RenderAllModels(present, "sendChart", data, "pedagogy_send")
  {
    var f := AllModelsDrawer(data);
    var t := ResultsCharts;
    var t1 := [("eaiChart", "composite")];
    var t2 := t1 + [("neuromythsChart", "neuromyths_pct")];
    var t3 := t2 + [("scenariosChart", "scenarios_pct")];
    var t4 := t3 + [("cdpkChart", "pedagogy_cdpk")];
    var a := RenderAllModels(present, "eaiChart", data, "composite");
    var b := RenderAllModels(present, "neuromythsChart", data, "neuromyths_pct");
    var c := RenderAllModels(present, "scenariosChart", data, "scenarios_pct");
    var d := RenderAllModels(present, "cdpkChart", data, "pedagogy_cdpk");
    assert Renders(present, t1, f) == [] + a by { assert t1[..0] == []; }
    assert Renders(present, t2, f) == [] + a + b by { assert t2[..1] == t1; }
    assert Renders(present, t3, f) == [] + a + b + c by { assert t3[..2] == t2; }
    assert Renders(present, t4, f) == [] + a + b + c + d by { assert t4[..3] == t3; }
    assert t[..4] == t4;
  }

  /** What the index page does once it has fetched the composite scores. */
  function IndexSteps(present: set<string>, composite: Option<seq<Record>>): seq<Action> {
    match composite
    case None => [Fetch(CompositeResource), ReportFailure]
    case Some(d) => [Fetch(CompositeResource)] + TopCharts(present, IndexCharts, d)
  }

  /** What the results page does once it has fetched the composite scores. */
  function ResultsSteps(present: set<string>, composite: Option<seq<Record>>, acara: Option<seq<AcaraRecord>>)
    : seq<Action>
  {
    match composite
    case None => [Fetch(CompositeResource), ReportFailure]
    case Some(d) => [Fetch(CompositeResource)] + AllModelsCharts(present, ResultsCharts, d) + AcaraStep(present, acara)
  }

  /** The body of the handler's index-page test. */
  method IndexBranch(present: set<string>, composite: Option<seq<Record>>) returns (actions: seq<Action>)
    ensures actions == IndexSteps(present, composite)
  {
    actions := [Fetch(CompositeResource)];
    if composite.None? {
      actions := actions + [ReportFailure];
      return;
    }
    var data := composite.value;
    var drawn: seq<Action> := [];
    drawn := drawn + RenderTop(present, "eaiChart", data, "composite", DefaultCount);
    drawn := drawn + RenderTop(present, "neuromythsChart", data, "neuromyths_pct", DefaultCount);
    drawn := drawn + RenderTop(present, "pedagogyChart", data, "pedagogy_pct", DefaultCount);
    IndexChartsInOrder(present, data);
    actions := actions + drawn;
  }

  /** The body of the handler's results-page test. */
  method ResultsBranch(present: set<string>, composite: Option<seq<Record>>, acara: Option<seq<AcaraRecord>>)
    returns (actions: seq<Action>)
    ensures actions == ResultsSteps(present, composite, acara)
  {
    actions := [Fetch(CompositeResource)];
    if composite.None? {
      actions := actions + [ReportFailure];
      return;
    }
    var data := composite.value;
    var drawn: seq<Action> := [];
    drawn := drawn + RenderAllModels(present, "eaiChart", data, "composite");
    drawn := drawn + RenderAllModels(present, "neuromythsChart", data, "neuromyths_pct");
    drawn := drawn + RenderAllModels(present, "scenariosChart", data, "scenarios_pct");
    drawn := drawn + RenderAllModels(present, "cdpkChart", data, "pedagogy_cdpk");
    drawn := drawn + RenderAllModels(present, "sendChart", data, "pedagogy_send");
    ResultsChartsInOrder(present, data);
    actions := actions + drawn;
    ghost var before := actions;
    if "acaraChart" in present {
      actions := actions + [Fetch(AcaraResource)];
      if acara.None? {
        actions := actions + [ReportFailure];
        assert actions == before + ([Fetch(AcaraResource)] + [ReportFailure]);
        return;
      }
      var rendered := RenderAcara(present, "acaraChart", acara.value);
      actions := actions + rendered;
      assert actions == before + ([Fetch(AcaraResource)] + rendered);
    }
  }

  /**
   * The `DOMContentLoaded` handler: the index-page test, then the
   * results-page test, each fetching before drawing; a failed fetch ends
   * the run with a report.
   */
  method OnContentLoaded(present: set<string>, composite: Option<seq<Record>>, acara: Option<seq<AcaraRecord>>)
    returns (actions: seq<Action>)
    ensures actions == Plan(present, composite, acara)
  {
    actions := [];
    if "eaiChart" in present && "scenariosChart" !in present {
      actions := IndexBranch(present, composite);
    }
    if "scenariosChart" in present {
      actions := ResultsBranch(present, composite, acara);
    }
  }
}

/** What every page load does, whatever the page and whatever the fetches return. */
module DispatchProperties {
  import opened Wrappers
  import opened Charts
  import opened PageDispatch

  /**
   * Guarded renders draw exactly the table entries whose canvas is on the
   * page, each with its entry's draw.
   */
  lemma {:induction false} RendersDraws(present: set<string>, table: seq<(string, string)>,
                                        draw: (string, string) -> Action, a: Action)
    ensures a in Renders(present, table, draw)
        <==> exists e :: e in table && e.0 in present && a == draw(e.0, e.1)
  {
    if table != [] {
      var init := table[..|table| - 1];
      var last := table[|table| - 1];
      RendersDraws(present, init, draw, a);
      assert table == init + [last];
      if exists e :: e in table && e.0 in present && a == draw(e.0, e.1) {
        var e :| e in table && e.0 in present && a == draw(e.0, e.1);
        if e != last {
          assert e in init;
        }
      }
    }
  }

  /**
   * The index renders draw exactly the table entries whose canvas is on the
   * page, as top-N charts.
   */
  lemma TopChartsDraws(present: set<string>, table: seq<(string, string)>, data: seq<Record>, a: Action)
    ensures a in TopCharts(present, table, data)
        <==> exists e :: e in table && e.0 in present && a == TopDraw(e.0, data, e.1, DefaultCount)
  {
    RendersDraws(present, table, TopDrawer(data), a);
  }

  /**
   * The results renders draw exactly the table entries whose canvas is on
   * the page, as all-models charts.
   */
  lemma AllModelsChartsDraws(present: set<string>, table: seq<(string, string)>, data: seq<Record>, a: Action)
    ensures a in AllModelsCharts(present, table, data)
        <==> exists e :: e in table && e.0 in present && a == AllModelsDraw(e.0, data, e.1)
  {
    RendersDraws(present, table, AllModelsDrawer(data), a);
  }

  /**
   * Page dispatch: the composite scores are fetched, first and at most once,
   * exactly when the page is the index page (`eaiChart` without
   * `scenariosChart`) or the results page (`scenariosChart`); the ACARA
   * scores are fetched exactly on a results page with `acaraChart` whose
   * composite fetch succeeded.
   */
  lemma PlanFetches(present: set<string>, composite: Option<seq<Record>>, acara: Option<seq<AcaraRecord>>)
    ensures var plan := Plan(present, composite, acara);
      && (Fetch(CompositeResource) in plan
          <==> ("eaiChart" in present && "scenariosChart" !in present) || "scenariosChart" in present)
      && (plan != [] ==> plan[0] == Fetch(CompositeResource))
      && multiset(plan)[Fetch(CompositeResource)] <= 1
      && (Fetch(AcaraResource) in plan
          <==> "scenariosChart" in present && "acaraChart" in present && composite.Some?)
  {
    var plan := Plan(present, composite, acara);
    if composite.Some? {
      var d := composite.value;
      forall e | e in IndexCharts ensures Fetch(CompositeResource) != TopDraw(e.0, d, e.1, DefaultCount) && Fetch(AcaraResource) != TopDraw(e.0, d, e.1, DefaultCount) {}
      TopChartsDraws(present, IndexCharts, d, Fetch(CompositeResource));
      TopChartsDraws(present, IndexCharts, d, Fetch(AcaraResource));
      AllModelsChartsDraws(present, ResultsCharts, d, Fetch(CompositeResource));
      AllModelsChartsDraws(present, ResultsCharts, d, Fetch(AcaraResource));
      match PageOf(present)
      case Other =>
      case Index =>
        assert plan == [Fetch(CompositeResource)] + TopCharts(present, IndexCharts, d);
        assert multiset(plan) == multiset{Fetch(CompositeResource)} + multiset(TopCharts(present, IndexCharts, d));
      case Results =>
        var draws := AllModelsCharts(present, ResultsCharts, d);
        var tail := AcaraStep(present, acara);
        assert plan == [Fetch(CompositeResource)] + draws + tail;
        assert multiset(plan) == multiset{Fetch(CompositeResource)} + multiset(draws) + multiset(tail);
        assert Fetch(CompositeResource) !in tail;
    }
  }

  /** A render whose canvas is missing does nothing: every draw targets a canvas of the page. */
  lemma PlanDrawsOnlyPresentCanvases(present: set<string>, composite: Option<seq<Record>>,
                                     acara: Option<seq<AcaraRecord>>, a: Action)
    requires a in Plan(present, composite, acara) && a.Draw?
    ensures a.canvas in present
  {
    var d := composite.value;
    match PageOf(present)
    case Index =>
      assert a in TopCharts(present, IndexCharts, d);
      TopChartsDraws(present, IndexCharts, d, a);
    case Results =>
      if a in AllModelsCharts(present, ResultsCharts, d) {
        AllModelsChartsDraws(present, ResultsCharts, d, a);
      } else {
        assert a in AcaraStep(present, acara);
      }
  }

  /**
   * The two branches never both run: an index page draws only top-N charts,
   * a results page only all-models and ACARA charts.
   */
  lemma PlanDrawKinds(present: set<string>, composite: Option<seq<Record>>,
                      acara: Option<seq<AcaraRecord>>, a: Action)
    requires a in Plan(present, composite, acara) && a.Draw?
    ensures PageOf(present) == Index <==> a.chart.HorizontalBars?
    ensures PageOf(present) == Results <==> a.chart.VerticalBars? || a.chart.GroupedBars?
  {
    var d := composite.value;
    match PageOf(present)
    case Index =>
      assert a in TopCharts(present, IndexCharts, d);
      TopChartsDraws(present, IndexCharts, d, a);
    case Results =>
      var draws := AllModelsCharts(present, ResultsCharts, d);
      if a in draws {
        AllModelsChartsDraws(present, ResultsCharts, d, a);
      } else {
        assert a in AcaraStep(present, acara);
      }
  }

  /**
   * A page that fetched its data draws every chart its page kind has a
   * canvas for: the three top-10 charts on the index page, the five
   * all-models charts and the ACARA chart on the results page.
   */
  lemma PlanDrawsEveryPresentCanvas(present: set<string>, d: seq<Record>, acara: Option<seq<AcaraRecord>>)
    ensures PageOf(present) == Index ==>
      forall e :: e in IndexCharts && e.0 in present ==> TopDraw(e.0, d, e.1, DefaultCount) in Plan(present, Some(d), acara)
    ensures PageOf(present) == Results ==>
      forall e :: e in ResultsCharts && e.0 in present ==> AllModelsDraw(e.0, d, e.1) in Plan(present, Some(d), acara)
    ensures PageOf(present) == Results && "acaraChart" in present && acara.Some? ==>
      Draw("acaraChart", GroupedBars(AcaraChart(acara.value), PercentAxis)) in Plan(present, Some(d), acara)
  {
    forall e | e in IndexCharts && e.0 in present
      ensures TopDraw(e.0, d, e.1, DefaultCount) in TopCharts(present, IndexCharts, d)
    {
      TopChartsDraws(present, IndexCharts, d, TopDraw(e.0, d, e.1, DefaultCount));
    }
    forall e | e in ResultsCharts && e.0 in present
      ensures AllModelsDraw(e.0, d, e.1) in AllModelsCharts(present, ResultsCharts, d)
    {
      AllModelsChartsDraws(present, ResultsCharts, d, AllModelsDraw(e.0, d, e.1));
    }
  }

  /**
   * After a successful composite fetch a page draws exactly its listed
   * charts and nothing else: a top-10 chart per listed canvas it has on the
   * index page; on the results page an all-models chart per listed canvas
   * it has, and the ACARA chart only with `acaraChart` and ACARA data.
   */
  lemma PlanDrawsExactly(present: set<string>, d: seq<Record>, acara: Option<seq<AcaraRecord>>, a: Action)
    requires a.Draw?
    ensures a in Plan(present, Some(d), acara)
        <==> ((PageOf(present) == Index
                && exists e :: e in IndexCharts && e.0 in present && a == TopDraw(e.0, d, e.1, DefaultCount))
              || (PageOf(present) == Results
                && exists e :: e in ResultsCharts && e.0 in present && a == AllModelsDraw(e.0, d, e.1))
              || (PageOf(present) == Results && "acaraChart" in present && acara.Some?
                && a == Draw("acaraChart", GroupedBars(AcaraChart(acara.value), PercentAxis))))
  {
    var plan := Plan(present, Some(d), acara);
    TopChartsDraws(present, IndexCharts, d, a);
    AllModelsChartsDraws(present, ResultsCharts, d, a);
    match PageOf(present)
    case Other =>
    case Index =>
      assert plan == [Fetch(CompositeResource)] + TopCharts(present, IndexCharts, d);
    case Results =>
      var draws := AllModelsCharts(present, ResultsCharts, d);
      var tail := AcaraStep(present, acara);
      assert plan == [Fetch(CompositeResource)] + draws + tail;
      assert a in plan <==> a in draws || a in tail;
      if "acaraChart" in present && acara.Some? {
        var acaraDraw := Draw("acaraChart", GroupedBars(AcaraChart(acara.value), PercentAxis));
        assert tail == [Fetch(AcaraResource), acaraDraw];
        forall e | e in ResultsCharts ensures acaraDraw != AllModelsDraw(e.0, d, e.1) {
          assert acaraDraw.chart.GroupedBars?;
        }
      }
  }

  /**
   * A failed fetch stops the run: the failure report comes right after the
   * fetch that failed and is the last action.
   */
  lemma PlanFailureStops(present: set<string>, composite: Option<seq<Record>>, acara: Option<seq<AcaraRecord>>)
    ensures var plan := Plan(present, composite, acara);
      ReportFailure in plan ==>
        && |plan| >= 2 && plan[|plan| - 1] == ReportFailure
        && plan[|plan| - 2].Fetch?
        && ReportFailure !in plan[..|plan| - 1]
  {
    var plan := Plan(present, composite, acara);
    if composite.Some? {
      var d := composite.value;
      TopChartsDraws(present, IndexCharts, d, ReportFailure);
      AllModelsChartsDraws(present, ResultsCharts, d, ReportFailure);
      if PageOf(present) == Results {
        var draws := AllModelsCharts(present, ResultsCharts, d);
        var tail := AcaraStep(present, acara);
        assert plan == [Fetch(CompositeResource)] + draws + tail;
        if ReportFailure in plan {
          assert ReportFailure in tail;
          assert tail == [Fetch(AcaraResource), ReportFailure];
          assert plan[..|plan| - 1] == [Fetch(CompositeResource)] + draws + [Fetch(AcaraResource)];
        }
      }
    }
  }

  /**
   * A failed fetch is reported and nothing is drawn from it: a failed
   * composite fetch on the index or results page is followed by the report
   * and nothing else; a failed ACARA fetch comes after the all-models
   * renders and is followed by the report and nothing else; and a report
   * happens exactly when one of the two fetches failed.
   */
  lemma PlanFailureReported(present: set<string>, composite: Option<seq<Record>>, acara: Option<seq<AcaraRecord>>)
    ensures PageOf(present) != Other && composite.None? ==>
      Plan(present, composite, acara) == [Fetch(CompositeResource), ReportFailure]
    ensures PageOf(present) == Results && "acaraChart" in present && composite.Some? && acara.None? ==>
      Plan(present, composite, acara)
        == [Fetch(CompositeResource)] + AllModelsCharts(present, ResultsCharts, composite.value)
           + [Fetch(AcaraResource), ReportFailure]
    ensures ReportFailure in Plan(present, composite, acara)
        <==> ((PageOf(present) != Other && composite.None?)
              || (PageOf(present) == Results && "acaraChart" in present && composite.Some? && acara.None?))
    ensures acara.None? ==>
      forall a :: a in Plan(present, composite, acara) ==> !(a.Draw? && a.chart.GroupedBars?)
  {
    var plan := Plan(present, composite, acara);
    if composite.Some? {
      var d := composite.value;
      match PageOf(present)
      case Other =>
      case Index =>
        assert plan == [Fetch(CompositeResource)] + TopCharts(present, IndexCharts, d);
        TopChartsDraws(present, IndexCharts, d, ReportFailure);
        forall a | a in plan ensures !(a.Draw? && a.chart.GroupedBars?) {
          if a != Fetch(CompositeResource) {
            TopChartsDraws(present, IndexCharts, d, a);
          }
        }
      case Results =>
        var draws := AllModelsCharts(present, ResultsCharts, d);
        var tail := AcaraStep(present, acara);
        assert plan == [Fetch(CompositeResource)] + draws + tail;
        AllModelsChartsDraws(present, ResultsCharts, d, ReportFailure);
        if acara.None? {
          forall a | a in plan ensures !(a.Draw? && a.chart.GroupedBars?) {
            if a in draws {
              AllModelsChartsDraws(present, ResultsCharts, d, a);
            }
          }
        }
    }
  }
}

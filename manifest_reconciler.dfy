/**
 * `ISCPReconciler` of pkg/helmreconciler/manifest_reconciler.go: one
 * reconcile pass (begin, render, order, per-chart apply, prune, end) and
 * the delete path.
 *
 * Everything the pass calls (the customizer's listener hooks, the renderer,
 * the rendering input's processing order, `HelmReconciler.ProcessManifests`,
 * `Prune` and `Delete`) is an oracle: it answers as a function of the calls
 * made so far in the pass, the last of them being the call answered. The
 * pass returns that call history, so what was called, in which order and
 * with which arguments is part of its result.
 */
module ManifestReconciler {
  import opened Wrappers
  import opened Errors
  import opened HelmTypes
  import opened KubeClient
  import InputsV2

  /** One call the pass makes, with its arguments. */
  datatype Event =
    | BeginReconcile
    | RenderManifests
    | GetProcessingOrder(manifestMap: ChartManifestsMap)
    | BeginChart(chart: string, manifests: seq<Manifest>)
    | ProcessManifests(manifests: seq<Manifest>)
    | EndChart(chart: string)
    | BeginPrune(all: bool)
    | Prune(all: bool)
    | EndPrune
    | EndReconcile(err: Option<Error>)
    | Delete

  type History = seq<Event>

  /**
   * `HelmReconciler` with its customizer, as the pass sees it: the answer of
   * each collaborator to the history ending with the call made to it.
   */
  datatype HelmReconciler = HelmReconciler(
    beginReconcile: History -> Option<Error>,
    renderManifests: History -> Result<ChartManifestsMap, Error>,
    getProcessingOrder: History -> Result<seq<string>, Error>,
    beginChart: History -> (seq<Manifest>, Option<Error>),
    processManifests: History -> Option<Error>,
    endChart: History -> Option<Error>,
    beginPrune: History -> Option<Error>,
    prune: History -> Option<Error>,
    endPrune: History -> Option<Error>,
    endReconcile: History -> Option<Error>,
    delete: History -> Option<Error>,
    client: Client)

  const RenderingContext: string := "error rendering charts"
  const OrderingContext: string := "error ordering charts"

  /* ---------------- the functions that define one pass ---------------- */

  /**
   * One chart of the order: skipped when nothing was rendered for it;
   * otherwise BeginChart, ProcessManifests on what BeginChart returned, and
   * EndChart, every one of them whatever the others answered.
   */
  function ChartStep(h: HelmReconciler, manifestMap: ChartManifestsMap, chart: string, hist: History): (History, seq<Error>)
  {
    if chart !in manifestMap then (hist, [])
    else
      var hb := hist + [BeginChart(chart, manifestMap[chart])];
      var (chartManifests, e1) := h.beginChart(hb);
      var hp := hb + [ProcessManifests(chartManifests)];
      var e2 := h.processManifests(hp);
      var he := hp + [EndChart(chart)];
      var e3 := h.endChart(he);
      (he, Collect([e1, e2, e3]))
  }

  /** The chart loop over `order`, from `hist`: the history after it and the errors it collected, in order. */
  function ChartLoop(h: HelmReconciler, manifestMap: ChartManifestsMap, order: seq<string>, hist: History): (History, seq<Error>)
    decreases |order|
  {
    if order == [] then (hist, [])
    else
      var (h1, e1) := ChartLoop(h, manifestMap, order[..|order| - 1], hist);
      var (h2, e2) := ChartStep(h, manifestMap, order[|order| - 1], h1);
      (h2, e1 + e2)
  }

  /** Prune and report, after the chart loop: BeginPrune, Prune, EndPrune, then EndReconcile with the aggregate. */
  function Finish(h: HelmReconciler, hist: History, errs: seq<Error>): (History, Option<Error>)
  {
    var p1 := h.beginPrune(hist + [BeginPrune(false)]);
    var p2 := h.prune(hist + [BeginPrune(false), Prune(false)]);
    var p3 := h.endPrune(hist + [BeginPrune(false), Prune(false), EndPrune]);
    var all := errs + Collect([p1, p2, p3]);
    var calls := hist + [BeginPrune(false), Prune(false), EndPrune, EndReconcile(NewAggregate(all))];
    var p4 := h.endReconcile(calls);
    (calls, NewAggregate(all + Collect([p4])))
  }

  /** The whole pass: the calls made and the error returned. */
  function ReconcileRun(h: HelmReconciler): (History, Option<Error>)
  {
    var h0 := [BeginReconcile];
    var begin := h.beginReconcile(h0);
    if begin.Some? then (h0, begin)
    else
      var h1 := h0 + [RenderManifests];
      var rendered := h.renderManifests(h1);
      if rendered.Failure? then
        var err := Wrapped(RenderingContext, rendered.error);
        (h1 + [EndReconcile(Some(err))], Some(err))
      else
        var manifestMap := rendered.value;
        var h2 := h1 + [GetProcessingOrder(manifestMap)];
        var ordered := h.getProcessingOrder(h2);
        if ordered.Failure? then
          var err := Wrapped(OrderingContext, ordered.error);
          (h2 + [EndReconcile(Some(err))], Some(err))
        else
          var (h3, errs) := ChartLoop(h, manifestMap, ordered.value, h2);
          Finish(h, h3, errs)
  }

  /** The errors among three answers, in order. */
  lemma CollectThree(a: Option<Error>, b: Option<Error>, c: Option<Error>)
    ensures Collect([a, b, c]) == Collect([a]) + Collect([b]) + Collect([c])
  {
    CollectAppend([a], [b, c]);
    CollectAppend([b], [c]);
    assert [a] + [b, c] == [a, b, c];
    assert [b] + [c] == [b, c];
  }

  /* ---------------- the reconciler ---------------- */

  /** `ISCPReconciler`: reconciles or deletes the resources of one instance through its `HelmReconciler`. */
  class ISCPReconciler {
    const helmreconciler: HelmReconciler

    /** `NewISCPReconciler` once the factory has built the `HelmReconciler`. */
    constructor (h: HelmReconciler)
      ensures helmreconciler == h
    {
      helmreconciler := h;
    }

    /**
     * `Reconcile`: a failing BeginReconcile ends the pass at once; a failing
     * render or ordering is reported to EndReconcile and returned, wrapped;
     * from then on every error is collected, every step still runs, and the
     * aggregate is returned.
     */
    method Reconcile() returns (err: Option<Error>, calls: History)
      ensures (calls, err) == ReconcileRun(helmreconciler)
    {
      var h := helmreconciler;
      calls := [BeginReconcile];
      err := h.beginReconcile(calls);
      if err.Some? {
        return;
      }
      calls := calls + [RenderManifests];
      var rendered := h.renderManifests(calls);
      if rendered.Failure? {
        var wrapped := Wrapped(RenderingContext, rendered.error);
        calls := calls + [EndReconcile(Some(wrapped))];
        var listenerErr := h.endReconcile(calls);
        // a listener error here is only logged
        return Some(wrapped), calls;
      }
      var manifestMap := rendered.value;
      calls := calls + [GetProcessingOrder(manifestMap)];
      var ordered := h.getProcessingOrder(calls);
      if ordered.Failure? {
        var wrapped := Wrapped(OrderingContext, ordered.error);
        calls := calls + [EndReconcile(Some(wrapped))];
        var listenerErr := h.endReconcile(calls);
        return Some(wrapped), calls;
      }
      var chartOrder := ordered.value;
      // from here on no error is fatal: every one is collected
      var allErrors: seq<Error>;
      calls, allErrors := ProcessCharts(manifestMap, chartOrder, calls);
      err, calls := PruneAndEnd(calls, allErrors);
    }

    /** The chart loop of `Reconcile`: BeginChart, ProcessManifests and EndChart for every rendered chart of the order. */
    method ProcessCharts(manifestMap: ChartManifestsMap, chartOrder: seq<string>, hist: History)
      returns (calls: History, allErrors: seq<Error>)
      ensures (calls, allErrors) == ChartLoop(helmreconciler, manifestMap, chartOrder, hist)
    {
      var h := helmreconciler;
      calls := hist;
      allErrors := [];
      for i := 0 to |chartOrder|
        invariant (calls, allErrors) == ChartLoop(h, manifestMap, chartOrder[..i], hist)
      {
        assert chartOrder[..i + 1][..i] == chartOrder[..i];
        var chartName := chartOrder[i];
        ghost var step := ChartStep(h, manifestMap, chartName, calls);
        ghost var errorsBefore := allErrors;
        if chartName !in manifestMap {
          assert allErrors == errorsBefore + step.1;
          continue;
        }
        calls := calls + [BeginChart(chartName, manifestMap[chartName])];
        var chartManifests, beginErr := h.beginChart(calls).0, h.beginChart(calls).1;
        if beginErr.Some? {
          allErrors := allErrors + [beginErr.value];
        }
        calls := calls + [ProcessManifests(chartManifests)];
        var processErr := h.processManifests(calls);
        if processErr.Some? {
          allErrors := allErrors + [processErr.value];
        }
        calls := calls + [EndChart(chartName)];
        var endErr := h.endChart(calls);
        if endErr.Some? {
          allErrors := allErrors + [endErr.value];
        }
        CollectThree(beginErr, processErr, endErr);
        CollectOne(beginErr); CollectOne(processErr); CollectOne(endErr);
        assert calls == step.0;
        assert allErrors == errorsBefore + step.1;
      }
      assert chartOrder[..|chartOrder|] == chartOrder;
    }

    /** The end of `Reconcile`: prune, report to EndReconcile and return the aggregate. */
    method PruneAndEnd(hist: History, loopErrors: seq<Error>) returns (err: Option<Error>, calls: History)
      ensures (calls, err) == Finish(helmreconciler, hist, loopErrors)
    {
      var h := helmreconciler;
      var allErrors := loopErrors;
      calls := hist + [BeginPrune(false)];
      var e := h.beginPrune(calls);
      ghost var p1 := e;
      if e.Some? {
        allErrors := allErrors + [e.value];
      }
      calls := calls + [Prune(false)];
      assert calls == hist + [BeginPrune(false), Prune(false)];
      e := h.prune(calls);
      ghost var p2 := e;
      if e.Some? {
        allErrors := allErrors + [e.value];
      }
      calls := calls + [EndPrune];
      assert calls == hist + [BeginPrune(false), Prune(false), EndPrune];
      e := h.endPrune(calls);
      ghost var p3 := e;
      if e.Some? {
        allErrors := allErrors + [e.value];
      }
      CollectThree(p1, p2, p3);
      CollectOne(p1); CollectOne(p2); CollectOne(p3);
      assert allErrors == loopErrors + Collect([p1, p2, p3]);
      calls := calls + [EndReconcile(NewAggregate(allErrors))];
      assert calls == hist + [BeginPrune(false), Prune(false), EndPrune, EndReconcile(NewAggregate(allErrors))];
      e := h.endReconcile(calls);
      CollectOne(e);
      ghost var reported := allErrors;
      if e.Some? {
        allErrors := allErrors + [e.value];
      }
      assert allErrors == reported + Collect([e]);
      err := NewAggregate(allErrors);
    }

    /** `Delete`: hands over to the `HelmReconciler`. */
    method Delete() returns (err: Option<Error>, calls: History)
      ensures calls == [Event.Delete] && err == helmreconciler.delete(calls)
    {
      calls := [Event.Delete];
      err := helmreconciler.delete(calls);
    }
  }

  /* ---------------- what a pass does ---------------- */

  /** A failing BeginReconcile is returned as is: nothing is rendered and EndReconcile is not called. */
  lemma BeginFailureStopsAtOnce(h: HelmReconciler)
    requires h.beginReconcile([BeginReconcile]).Some?
    ensures ReconcileRun(h) == ([BeginReconcile], h.beginReconcile([BeginReconcile]))
  {
  }

  /**
   * A failing render is wrapped, reported once to EndReconcile and returned,
   * whatever EndReconcile answers; no chart is processed and nothing is pruned.
   */
  lemma RenderFailureReportedOnce(h: HelmReconciler)
    requires h.beginReconcile([BeginReconcile]).None?
    requires h.renderManifests([BeginReconcile, RenderManifests]).Failure?
    ensures var err := Wrapped(RenderingContext, h.renderManifests([BeginReconcile, RenderManifests]).error);
      ReconcileRun(h) == ([BeginReconcile, RenderManifests, EndReconcile(Some(err))], Some(err))
  {
    assert [BeginReconcile] + [RenderManifests] == [BeginReconcile, RenderManifests];
    var err := Wrapped(RenderingContext, h.renderManifests([BeginReconcile, RenderManifests]).error);
    assert ReconcileRun(h).0 == [BeginReconcile, RenderManifests, EndReconcile(Some(err))];
  }

  /** A failing processing order is handled like a failing render. */
  lemma OrderFailureReportedOnce(h: HelmReconciler, manifestMap: ChartManifestsMap)
    requires h.beginReconcile([BeginReconcile]).None?
    requires h.renderManifests([BeginReconcile, RenderManifests]) == Success(manifestMap)
    requires h.getProcessingOrder([BeginReconcile, RenderManifests, GetProcessingOrder(manifestMap)]).Failure?
    ensures var hist := [BeginReconcile, RenderManifests, GetProcessingOrder(manifestMap)];
      var err := Wrapped(OrderingContext, h.getProcessingOrder(hist).error);
      ReconcileRun(h) == (hist + [EndReconcile(Some(err))], Some(err))
  {
    assert [BeginReconcile] + [RenderManifests] == [BeginReconcile, RenderManifests];
    var hist := [BeginReconcile, RenderManifests, GetProcessingOrder(manifestMap)];
    assert [BeginReconcile, RenderManifests] + [GetProcessingOrder(manifestMap)] == hist;
    var err := Wrapped(OrderingContext, h.getProcessingOrder(hist).error);
    assert ReconcileRun(h).0 == hist + [EndReconcile(Some(err))];
  }

  /**
   * The three calls made for a rendered `chart`, starting at position `at`
   * of `after`: BeginChart with its manifests, ProcessManifests with what
   * BeginChart returned, and EndChart.
   */
  predicate BlockAt(h: HelmReconciler, manifestMap: ChartManifestsMap, chart: string, after: History, at: nat)
  {
    && chart in manifestMap
    && at + 3 <= |after|
    && after[at] == BeginChart(chart, manifestMap[chart])
    && after[at + 1] == ProcessManifests(h.beginChart(after[..at + 1]).0)
    && after[at + 2] == EndChart(chart)
  }

  /** The three calls starting at `at` all answered nil. */
  predicate BlockClean(h: HelmReconciler, after: History, at: nat)
  {
    && at + 3 <= |after|
    && h.beginChart(after[..at + 1]).1.None?
    && h.processManifests(after[..at + 2]).None?
    && h.endChart(after[..at + 3]).None?
  }

  /** Later calls do not change what happened in a block. */
  lemma BlockExtend(h: HelmReconciler, manifestMap: ChartManifestsMap, chart: string, after: History, at: nat, tail: History)
    requires at + 3 <= |after|
    ensures BlockAt(h, manifestMap, chart, after + tail, at) <==> BlockAt(h, manifestMap, chart, after, at)
    ensures BlockClean(h, after + tail, at) <==> BlockClean(h, after, at)
  {
    var ext := after + tail;
    assert ext[..at + 1] == after[..at + 1];
    assert ext[..at + 2] == after[..at + 2];
    assert ext[..at + 3] == after[..at + 3];
  }

  /**
   * The chart loop, event by event: for the k-th chart of the order that was
   * rendered (in order, skipped charts leaving no trace), the block of its
   * three calls.
   */
  predicate LoopShape(h: HelmReconciler, manifestMap: ChartManifestsMap, charts: seq<string>, hist: History, after: History)
  {
    && |after| == |hist| + 3 * |charts|
    && after[..|hist|] == hist
    && forall k :: 0 <= k < |charts| ==> BlockAt(h, manifestMap, charts[k], after, |hist| + 3 * k)
  }

  /** Every hook call of the chart loop answered nil. */
  predicate LoopClean(h: HelmReconciler, hist: History, after: History, n: nat)
  {
    forall k :: 0 <= k < n ==> BlockClean(h, after, |hist| + 3 * k)
  }

  /**
   * The loop makes the calls of `LoopShape` for the charts of the order that
   * were rendered, and collects no error iff every one of them answered nil.
   */
  lemma {:induction false} ChartLoopShape(h: HelmReconciler, manifestMap: ChartManifestsMap, order: seq<string>, hist: History)
    ensures var charts := InputsV2.Known(order, manifestMap.Keys);
      var (after, errs) := ChartLoop(h, manifestMap, order, hist);
      && LoopShape(h, manifestMap, charts, hist, after)
      && (errs == [] <==> LoopClean(h, hist, after, |charts|))
    decreases |order|
  {
    var charts := InputsV2.Known(order, manifestMap.Keys);
    var (after, errs) := ChartLoop(h, manifestMap, order, hist);
    if order != [] {
      var init, last := order[..|order| - 1], order[|order| - 1];
      assert order == init + [last];
      InputsV2.KnownAppend(init, last, manifestMap.Keys);
      var before := InputsV2.Known(init, manifestMap.Keys);
      ChartLoopShape(h, manifestMap, init, hist);
      var (h1, e1) := ChartLoop(h, manifestMap, init, hist);
      var (h2, e2) := ChartStep(h, manifestMap, last, h1);
      assert after == h2 && errs == e1 + e2;
      if last in manifestMap {
        NewBlock(h, manifestMap, last, h1);
        StepShape(h, manifestMap, before, last, hist, h1, h2[|h1|..]);
      } else {
        assert charts == before;
      }
    }
  }

  /** The block one rendered chart adds, and when it collects no error. */
  lemma NewBlock(h: HelmReconciler, manifestMap: ChartManifestsMap, chart: string, h1: History)
    requires chart in manifestMap
    ensures var (h2, e2) := ChartStep(h, manifestMap, chart, h1);
      && h2 == h1 + h2[|h1|..]
      && BlockAt(h, manifestMap, chart, h2, |h1|)
      && (e2 == [] <==> BlockClean(h, h2, |h1|))
  {
    var (h2, e2) := ChartStep(h, manifestMap, chart, h1);
    var at := |h1|;
    assert h2[..at + 1] == h1 + [BeginChart(chart, manifestMap[chart])];
    assert h2[..at + 2] == h2[..at + 1] + [h2[at + 1]];
    assert h2[..at + 3] == h2;
    var b1, b2, b3 := h.beginChart(h2[..at + 1]).1, h.processManifests(h2[..at + 2]), h.endChart(h2[..at + 3]);
    assert e2 == Collect([b1, b2, b3]);
    CollectThree(b1, b2, b3);
    CollectOne(b1); CollectOne(b2); CollectOne(b3);
  }

  /** Extending a loop whose first charts are `before` by the block of one more rendered chart. */
  lemma StepShape(h: HelmReconciler, manifestMap: ChartManifestsMap, before: seq<string>, last: string,
                  hist: History, h1: History, tail: History)
    requires LoopShape(h, manifestMap, before, hist, h1)
    requires |tail| == 3 && BlockAt(h, manifestMap, last, h1 + tail, |h1|)
    ensures LoopShape(h, manifestMap, before + [last], hist, h1 + tail)
    ensures LoopClean(h, hist, h1 + tail, |before| + 1) <==>
              LoopClean(h, hist, h1, |before|) && BlockClean(h, h1 + tail, |h1|)
  {
    var charts := before + [last];
    var h2 := h1 + tail;
    var n := |before|;
    forall k | 0 <= k < n
      ensures BlockAt(h, manifestMap, charts[k], h2, |hist| + 3 * k)
      ensures BlockClean(h, h2, |hist| + 3 * k) <==> BlockClean(h, h1, |hist| + 3 * k)
    {
      BlockExtend(h, manifestMap, before[k], h1, |hist| + 3 * k, tail);
    }
    assert h2[..|hist|] == h1[..|hist|];
  }

  /**
   * After the chart loop: BeginPrune, Prune and EndPrune once each, then
   * EndReconcile, the last call, with the aggregate of everything collected
   * so far; nil is reported iff nothing was, and returned iff EndReconcile
   * also answered nil.
   */
  lemma FinishShape(h: HelmReconciler, h3: History, errs: seq<Error>)
    ensures var (calls, err) := Finish(h, h3, errs);
      var n := |h3|;
      && |calls| == n + 4
      && calls[..n] == h3
      && calls[n..] == [BeginPrune(false), Prune(false), EndPrune, calls[n + 3]]
      && calls[n + 3].EndReconcile?
      && (calls[n + 3].err.None? <==>
            errs == []
            && h.beginPrune(calls[..n + 1]).None?
            && h.prune(calls[..n + 2]).None?
            && h.endPrune(calls[..n + 3]).None?)
      && (err.None? <==> calls[n + 3].err.None? && h.endReconcile(calls).None?)
  {
    FinishCalls(h, h3, errs);
    FinishErrors(h, h3, errs);
  }

  /** The calls after the chart loop, and the prefixes each prune step is answered on. */
  lemma FinishCalls(h: HelmReconciler, h3: History, errs: seq<Error>)
    ensures var calls := Finish(h, h3, errs).0;
      var n := |h3|;
      && |calls| == n + 4
      && calls[..n] == h3
      && calls[..n + 1] == h3 + [BeginPrune(false)]
      && calls[..n + 2] == h3 + [BeginPrune(false), Prune(false)]
      && calls[..n + 3] == h3 + [BeginPrune(false), Prune(false), EndPrune]
      && calls[n..] == [BeginPrune(false), Prune(false), EndPrune, calls[n + 3]]
  {
  }

  /** What EndReconcile is told and what is returned, in terms of the prune steps' answers. */
  lemma FinishErrors(h: HelmReconciler, h3: History, errs: seq<Error>)
    ensures var (calls, err) := Finish(h, h3, errs);
      var n := |h3|;
      && |calls| == n + 4
      && calls[n + 3].EndReconcile?
      && (calls[n + 3].err.None? <==>
            errs == []
            && h.beginPrune(h3 + [BeginPrune(false)]).None?
            && h.prune(h3 + [BeginPrune(false), Prune(false)]).None?
            && h.endPrune(h3 + [BeginPrune(false), Prune(false), EndPrune]).None?)
      && (err.None? <==> calls[n + 3].err.None? && h.endReconcile(calls).None?)
  {
    var p1 := h.beginPrune(h3 + [BeginPrune(false)]);
    var p2 := h.prune(h3 + [BeginPrune(false), Prune(false)]);
    var p3 := h.endPrune(h3 + [BeginPrune(false), Prune(false), EndPrune]);
    var calls := Finish(h, h3, errs).0;
    CollectThree(p1, p2, p3);
    CollectOne(p1); CollectOne(p2); CollectOne(p3); CollectOne(h.endReconcile(calls));
  }


  /**
   * A pass that gets past ordering: the charts of the order that were rendered
   * are processed in order, each once per listing; then BeginPrune, Prune and
   * EndPrune run once each, and EndReconcile is the last call, given the
   * aggregate of every error collected before it. The pass returns nil iff
   * no call from the chart loop on answered an error.
   */
  lemma FullPass(h: HelmReconciler, manifestMap: ChartManifestsMap, order: seq<string>)
    requires h.beginReconcile([BeginReconcile]).None?
    requires h.renderManifests([BeginReconcile, RenderManifests]) == Success(manifestMap)
    requires h.getProcessingOrder([BeginReconcile, RenderManifests, GetProcessingOrder(manifestMap)]) == Success(order)
    ensures var hist := [BeginReconcile, RenderManifests, GetProcessingOrder(manifestMap)];
      var charts := InputsV2.Known(order, manifestMap.Keys);
      var (calls, err) := ReconcileRun(h);
      var loopEnd := |hist| + 3 * |charts|;
      && |calls| == loopEnd + 4
      && LoopShape(h, manifestMap, charts, hist, calls[..loopEnd])
      && calls[loopEnd..] == [BeginPrune(false), Prune(false), EndPrune, calls[loopEnd + 3]]
      && calls[loopEnd + 3].EndReconcile?
      && (calls[loopEnd + 3].err.None? <==>
            LoopClean(h, hist, calls[..loopEnd], |charts|)
            && h.beginPrune(calls[..loopEnd + 1]).None?
            && h.prune(calls[..loopEnd + 2]).None?
            && h.endPrune(calls[..loopEnd + 3]).None?)
      && (err.None? <==> calls[loopEnd + 3].err.None? && h.endReconcile(calls).None?)
  {
    var hist := [BeginReconcile, RenderManifests, GetProcessingOrder(manifestMap)];
    assert [BeginReconcile] + [RenderManifests] == [BeginReconcile, RenderManifests];
    assert [BeginReconcile, RenderManifests] + [GetProcessingOrder(manifestMap)] == hist;
    ChartLoopShape(h, manifestMap, order, hist);
    var (h3, errs) := ChartLoop(h, manifestMap, order, hist);
    FinishShape(h, h3, errs);
    assert ReconcileRun(h) == Finish(h, h3, errs);
  }
}

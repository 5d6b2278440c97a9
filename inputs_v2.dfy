/**
 * The chart processing order of
 * pkg/controller/istiocontrolplane/inputsv2.go: the known charts that were
 * rendered, in the fixed order, then every other rendered chart once, in map
 * order. The fixed order `defaultProcessingOrder` is defined elsewhere in the
 * operator and is a parameter here.
 */
module InputsV2 {
  import opened Wrappers
  import opened Errors
  import opened HelmTypes

  /** The charts of `order` that are in `present`, in the order of `order`, repeats included. */
  function Known(order: seq<string>, present: set<string>): (r: seq<string>)
    ensures |r| <= |order|
    ensures forall c :: c in r <==> c in order && c in present
  {
    if order == [] then []
    else (if order[0] in present then [order[0]] else []) + Known(order[1..], present)
  }

  lemma {:induction false} KnownAppend(order: seq<string>, c: string, present: set<string>)
    ensures Known(order + [c], present) == Known(order, present) + (if c in present then [c] else [])
    decreases |order|
  {
    if order == [] {
      assert [c][1..] == [];
    } else {
      assert (order + [c])[0] == order[0] && (order + [c])[1..] == order[1..] + [c];
      KnownAppend(order[1..], c, present);
      var head := if order[0] in present then [order[0]] else [];
      AppendAssoc(head, Known(order[1..], present), if c in present then [c] else []);
    }
  }

  predicate NoDuplicates(s: seq<string>)
  {
    forall i, j :: 0 <= i < j < |s| ==> s[i] != s[j]
  }

  /**
   * What `GetProcessingOrder` returns: first the known charts that were
   * rendered, then, each once, every rendered chart that is not known.
   */
  ghost predicate IsProcessingOrder(manifests: ChartManifestsMap, defaultOrder: seq<string>, ordering: seq<string>)
  {
    var known := Known(defaultOrder, manifests.Keys);
    && |known| <= |ordering|
    && ordering[..|known|] == known
    && NoDuplicates(ordering[|known|..])
    && forall c :: c in ordering[|known|..] <==> c in manifests && c !in defaultOrder
  }

  /**
   * `GetProcessingOrder`: walk `defaultProcessingOrder` appending each chart
   * that was rendered, then walk the rendered charts appending those not yet
   * seen. The error is always nil.
   */
  method GetProcessingOrder(manifests: ChartManifestsMap, defaultOrder: seq<string>)
    returns (ordering: seq<string>, err: Option<Error>)
    ensures err == None
    ensures IsProcessingOrder(manifests, defaultOrder, ordering)
  {
    var seen: set<string> := {};
    ordering := [];
    for i := 0 to |defaultOrder|
      invariant ordering == Known(defaultOrder[..i], manifests.Keys)
      invariant forall c :: c in seen <==> c in ordering
    {
      var chart := defaultOrder[i];
      assert defaultOrder[..i + 1] == defaultOrder[..i] + [chart];
      KnownAppend(defaultOrder[..i], chart, manifests.Keys);
      if chart in manifests {
        ordering := ordering + [chart];
        seen := seen + {chart};
      }
    }
    assert defaultOrder[..|defaultOrder|] == defaultOrder;
    var known := ordering;
    ghost var rest: seq<string> := [];
    var remaining := manifests.Keys;
    while remaining != {}
      invariant remaining <= manifests.Keys
      invariant ordering == known + rest
      invariant forall c :: c in seen <==> c in known || c in rest
      invariant NoDuplicates(rest)
      invariant forall c :: c in rest <==> c in manifests && c !in remaining && c !in defaultOrder
      decreases |remaining|
    {
      var chart :| chart in remaining;
      if chart !in seen {
        rest := rest + [chart];
        ordering := ordering + [chart];
        seen := seen + {chart};
      }
      remaining := remaining - {chart};
    }
    assert ordering[|known|..] == rest;
    err := None;
  }

  /** Every rendered chart is in the order, and nothing else is. */
  lemma OrderCoversManifests(manifests: ChartManifestsMap, defaultOrder: seq<string>, ordering: seq<string>)
    requires IsProcessingOrder(manifests, defaultOrder, ordering)
    ensures forall c :: c in ordering <==> c in manifests
  {
    var known := Known(defaultOrder, manifests.Keys);
    assert ordering == known + ordering[|known|..];
  }

  /** Every known chart in the order comes before every chart that is not known. */
  lemma KnownChartsFirst(manifests: ChartManifestsMap, defaultOrder: seq<string>, ordering: seq<string>, i: nat, j: nat)
    requires IsProcessingOrder(manifests, defaultOrder, ordering)
    requires i < |ordering| && j < |ordering|
    requires ordering[i] in defaultOrder && ordering[j] !in defaultOrder
    ensures i < j
  {
    var known := Known(defaultOrder, manifests.Keys);
    assert ordering == known + ordering[|known|..];
  }

  lemma {:induction false} NoDuplicatesKnown(order: seq<string>, present: set<string>)
    requires NoDuplicates(order)
    ensures NoDuplicates(Known(order, present))
    decreases |order|
  {
    if order != [] {
      NoDuplicatesKnown(order[1..], present);
      assert order[0] !in order[1..];
    }
  }

  lemma {:induction false} DistinctCount(s: seq<string>)
    requires NoDuplicates(s)
    ensures |set c | c in s| == |s|
    decreases |s|
  {
    if s != [] {
      var init := s[..|s| - 1];
      DistinctCount(init);
      assert (set c | c in s) == (set c | c in init) + {s[|s| - 1]};
      assert s[|s| - 1] !in init;
    }
  }

  /**
   * When `defaultProcessingOrder` has no repeats, neither has the order,
   * and it is exactly as long as there are rendered charts.
   */
  lemma OrderIsAPermutationOfCharts(manifests: ChartManifestsMap, defaultOrder: seq<string>, ordering: seq<string>)
    requires IsProcessingOrder(manifests, defaultOrder, ordering)
    requires NoDuplicates(defaultOrder)
    ensures NoDuplicates(ordering)
    ensures |ordering| == |manifests.Keys|
  {
    var known := Known(defaultOrder, manifests.Keys);
    var rest := ordering[|known|..];
    assert ordering == known + rest;
    NoDuplicatesKnown(defaultOrder, manifests.Keys);
    forall i, j | 0 <= i < j < |ordering|
      ensures ordering[i] != ordering[j]
    {
      if i < |known| && j >= |known| {
        assert ordering[i] in known && ordering[j] == rest[j - |known|];
      } else if i >= |known| {
        assert ordering[i] == rest[i - |known|] && ordering[j] == rest[j - |known|];
      }
    }
    OrderCoversManifests(manifests, defaultOrder, ordering);
    DistinctCount(ordering);
    assert (set c | c in ordering) == manifests.Keys;
  }

  /** A known chart listed twice in `defaultProcessingOrder` and rendered is ordered twice. */
  lemma RepeatedKnownChartRepeats(manifests: ChartManifestsMap, defaultOrder: seq<string>, ordering: seq<string>, i: nat, j: nat)
    requires IsProcessingOrder(manifests, defaultOrder, ordering)
    requires i < j < |defaultOrder| && defaultOrder[i] == defaultOrder[j] && defaultOrder[i] in manifests
    ensures !NoDuplicates(ordering)
  {
    var c := defaultOrder[i];
    KnownCountsRepeats(defaultOrder, manifests.Keys, i, j);
    var known := Known(defaultOrder, manifests.Keys);
    var a, b :| 0 <= a < b < |known| && known[a] == c && known[b] == c;
    assert ordering[a] == known[a] && ordering[b] == known[b];
  }

  lemma {:induction false} KnownCountsRepeats(order: seq<string>, present: set<string>, i: nat, j: nat)
    requires i < j < |order| && order[i] == order[j] && order[i] in present
    ensures exists a, b :: 0 <= a < b < |Known(order, present)| && Known(order, present)[a] == order[i] && Known(order, present)[b] == order[i]
    decreases |order|
  {
    var k := Known(order, present);
    var tail := Known(order[1..], present);
    if i == 0 {
      assert order[1..][j - 1] == order[0];
      assert order[0] in tail;
      var b :| 0 <= b < |tail| && tail[b] == order[0];
      assert k[0] == order[0] && k[b + 1] == tail[b];
    } else {
      KnownCountsRepeats(order[1..], present, i - 1, j - 1);
      var a, b :| 0 <= a < b < |tail| && tail[a] == order[i] && tail[b] == order[i];
      var off := if order[0] in present then 1 else 0;
      assert k[a + off] == tail[a] && k[b + off] == tail[b];
    }
  }

  /** No charts rendered, no order. */
  lemma EmptyManifestsEmptyOrder(defaultOrder: seq<string>, ordering: seq<string>)
    requires IsProcessingOrder(map[], defaultOrder, ordering)
    ensures ordering == []
  {
    var m: ChartManifestsMap := map[];
    OrderCoversManifests(m, defaultOrder, ordering);
    assert (set c | c in ordering) == {};
    HeadIsMember(ordering);
  }

  lemma HeadIsMember(s: seq<string>)
    ensures s != [] ==> s[0] in (set c | c in s)
  {
  }
}

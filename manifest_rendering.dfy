/**
 * The manifest side of pkg/helmreconciler/manifest_rendering.go: turning
 * the rendered component-to-text map into chart-to-manifests (`convert`,
 * with the chart-name table and the kind read from the text), and applying
 * the manifests of one chart object by object (`ProcessManifests`).
 */
module ManifestRendering {
  import opened Wrappers
  import opened Errors
  import opened HelmTypes
  import opened Names

  /* ---------------- chart names ---------------- */

  /** `componentToChartName`, including the "engress" spelling of the ingress chart. */
  const ComponentToChartName: map<string, string> := map[
    IstioBaseComponentName := "istio",
    PilotComponentName := "istio/charts/pilot",
    GalleyComponentName := "istio/charts/galley",
    SidecarInjectorComponentName := "istio/charts/sidecarInjectorWebhook",
    PolicyComponentName := "istio/charts/mixer-policy",
    TelemetryComponentName := "istio/charts/mixer-telemetry",
    CitadelComponentName := "istio/charts/security-citadel",
    CertManagerComponentName := "istio/charts/security-certmanager",
    NodeAgentComponentName := "istio/charts/security-nodeagent",
    IngressComponentName := "istio/charts/gateways-istio-engress",
    EgressComponentName := "istio/charts/gateways-istio-egress"
  ]

  /** A lookup in `componentToChartName`: the empty string for a component it does not list. */
  function ChartNameOf(cn: string): (r: string)
    ensures r != "" <==> cn in ComponentToChartName
    ensures cn in ComponentToChartName ==> r == ComponentToChartName[cn]
  {
    if cn in ComponentToChartName then ComponentToChartName[cn] else ""
  }

  /** The table has eleven entries, the base component's chart being "istio". */
  lemma ChartNameTable()
    ensures |ComponentToChartName.Keys| == 11
    ensures ComponentToChartName[IstioBaseComponentName] == "istio"
    ensures ComponentToChartName[IngressComponentName] == "istio/charts/gateways-istio-engress"
  {
  }

  /** The two charts of `a` and `b` differ in length, or in their 14th character. */
  lemma ChartNameDiffers(a: string, b: string)
    requires a in ComponentToChartName && b in ComponentToChartName && a != b
    ensures var x, y := ComponentToChartName[a], ComponentToChartName[b];
      |x| != |y| || (|x| > 13 && |y| > 13 && x[13] != y[13])
  {
  }

  /** No two components of the table share a chart. */
  lemma ChartNamesDistinct()
    ensures forall a, b :: a in ComponentToChartName && b in ComponentToChartName && a != b ==>
              ComponentToChartName[a] != ComponentToChartName[b]
  {
    forall a, b | a in ComponentToChartName && b in ComponentToChartName && a != b
      ensures ComponentToChartName[a] != ComponentToChartName[b]
    {
      ChartNameDiffers(a, b);
    }
  }

  /** Two different components never share a chart. */
  lemma DistinctCharts(a: string, b: string)
    requires ChartNameOf(a) != "" && ChartNameOf(b) != "" && a != b
    ensures ChartNameOf(a) != ChartNameOf(b)
  {
    ChartNamesDistinct();
  }

  /* ---------------- the kind of a manifest ---------------- */

  /** `unicode.IsSpace`, by code point. */
  predicate IsSpace(c: char)
  {
    var n := c as int;
    || (9 <= n <= 13) || n == 32 || n == 0x85 || n == 0xA0 || n == 0x1680
    || (0x2000 <= n <= 0x200A) || n == 0x2028 || n == 0x2029 || n == 0x202F || n == 0x205F || n == 0x3000
  }

  /** The first position from `i` on that does not hold white space, or `|s|`. */
  function SkipSpaces(s: string, i: nat): (n: nat)
    requires i <= |s|
    ensures i <= n <= |s|
    decreases |s| - i
  {
    if i == |s| || !IsSpace(s[i]) then i else SkipSpaces(s, i + 1)
  }

  /** The end of `s[lo..j]` once its trailing white space is dropped. */
  function SkipSpacesBack(s: string, lo: nat, j: nat): (n: nat)
    requires lo <= j <= |s|
    ensures lo <= n <= j
    decreases j - lo
  {
    if j == lo || !IsSpace(s[j - 1]) then j else SkipSpacesBack(s, lo, j - 1)
  }

  lemma {:induction false} SkipSpacesSpec(s: string, i: nat)
    requires i <= |s|
    ensures var n := SkipSpaces(s, i);
      && (forall m :: i <= m < n ==> IsSpace(s[m]))
      && (n < |s| ==> !IsSpace(s[n]))
    decreases |s| - i
  {
    if i < |s| && IsSpace(s[i]) {
      SkipSpacesSpec(s, i + 1);
    }
  }

  lemma {:induction false} SkipSpacesBackSpec(s: string, lo: nat, j: nat)
    requires lo <= j <= |s|
    ensures var n := SkipSpacesBack(s, lo, j);
      && (forall m :: n <= m < j ==> IsSpace(s[m]))
      && (lo < n ==> !IsSpace(s[n - 1]))
    decreases j - lo
  {
    if lo < j && IsSpace(s[j - 1]) {
      SkipSpacesBackSpec(s, lo, j - 1);
    }
  }

  /** `strings.TrimSpace`: `s` without its leading and trailing white space. */
  function TrimSpace(s: string): string
  {
    var a := SkipSpaces(s, 0);
    s[a..SkipSpacesBack(s, a, |s|)]
  }

  /**
   * What `TrimSpace` leaves is a slice of `s` with only white space around
   * it, beginning and ending with a non-space character; it is empty only
   * when `s` is all white space.
   */
  lemma TrimSpaceSpec(s: string)
    ensures var r := TrimSpace(s);
      && (exists a, b :: 0 <= a <= b <= |s| && r == s[a..b]
                        && (forall i :: 0 <= i < a ==> IsSpace(s[i]))
                        && (forall i :: b <= i < |s| ==> IsSpace(s[i])))
      && (r != [] ==> !IsSpace(r[0]) && !IsSpace(r[|r| - 1]))
      && (r == [] <==> forall i :: 0 <= i < |s| ==> IsSpace(s[i]))
  {
    var a := SkipSpaces(s, 0);
    var b := SkipSpacesBack(s, a, |s|);
    SkipSpacesSpec(s, 0);
    SkipSpacesBackSpec(s, a, |s|);
    var r := TrimSpace(s);
    assert r == s[a..b];
    assert r == [] ==> a == |s|;
  }

  /** "kind:" occurs in `s` at `i`. */
  predicate KindAt(s: string, i: int)
  {
    && 0 <= i && i + 5 <= |s|
    && s[i] == 'k' && s[i + 1] == 'i' && s[i + 2] == 'n' && s[i + 3] == 'd' && s[i + 4] == ':'
  }

  /** The first position from `from` on where "kind:" occurs, or -1. */
  function FindKind(s: string, from: nat): (r: int)
    ensures r == -1 || (from <= r && r + 5 <= |s|)
    decreases |s| - from
  {
    if from + 5 > |s| then -1
    else if KindAt(s, from) then from
    else FindKind(s, from + 1)
  }

  /** `FindKind` finds the first occurrence, if there is one. */
  lemma {:induction false} FindKindSpec(s: string, from: nat)
    ensures var r := FindKind(s, from);
      && (r == -1 || KindAt(s, r))
      && forall j :: from <= j && (r == -1 || j < r) ==> !KindAt(s, j)
    decreases |s| - from
  {
    if from + 5 <= |s| && !KindAt(s, from) {
      FindKindSpec(s, from + 1);
    }
  }

  /** The first position from `from` on that holds a newline, or -1. */
  function FindNewline(s: string, from: nat): (r: int)
    ensures r == -1 || from <= r < |s|
    decreases |s| - from
  {
    if from >= |s| then -1
    else if s[from] == '\n' then from
    else FindNewline(s, from + 1)
  }

  /** `FindNewline` finds the first newline, if there is one. */
  lemma {:induction false} FindNewlineSpec(s: string, from: nat)
    ensures var r := FindNewline(s, from);
      && (r == -1 || s[r] == '\n')
      && forall j :: from <= j < |s| && (r == -1 || j < r) ==> s[j] != '\n'
    decreases |s| - from
  {
    if from < |s| && s[from] != '\n' {
      FindNewlineSpec(s, from + 1);
    }
  }

  /** The rest of the line from `from` on, without its newline; None when no newline follows. */
  function RestOfLine(s: string, from: nat): Option<string>
    decreases |s| - from
  {
    if from >= |s| then None
    else if s[from] == '\n' then Some([])
    else match RestOfLine(s, from + 1)
      case None => None
      case Some(t) => Some([s[from]] + t)
  }

  /** `RestOfLine` is the text up to the first newline, when there is one. */
  lemma {:induction false} RestOfLineSpec(s: string, from: nat)
    ensures var nl := FindNewline(s, from);
      RestOfLine(s, from) == if nl < 0 then None else Some(s[from..nl])
    decreases |s| - from
  {
    if from < |s| && s[from] != '\n' {
      RestOfLineSpec(s, from + 1);
      var nl := FindNewline(s, from + 1);
      assert FindNewline(s, from) == nl;
      if nl >= 0 {
        var t := s[from + 1..nl];
        assert RestOfLine(s, from + 1) == Some(t);
        assert RestOfLine(s, from) == Some([s[from]] + t);
        assert s[from..nl] == [s[from]] + t;
      } else {
        assert RestOfLine(s, from + 1) == None;
      }
    } else if from < |s| {
      assert s[from..from] == [];
    }
  }

  /**
   * The manifest head's kind: the text between the first "kind:" and the
   * end of its line, trimmed, or "Unknown" when no "kind:" is followed by a
   * newline.
   */
  function KindHead(s: string): string
  {
    var k := FindKind(s, 0);
    if k < 0 then "Unknown"
    else match RestOfLine(s, k + 5)
      case None => "Unknown"
      case Some(line) => TrimSpace(line)
  }

  /**
   * A match of the pattern `kind:(.*)\n` (where `.` is any character but a
   * newline) spanning from `i` to the newline at `j`.
   */
  predicate KindMatch(s: string, i: int, j: int)
  {
    && KindAt(s, i)
    && i + 5 <= j < |s| && s[j] == '\n'
    && forall m :: i + 5 <= m < j ==> s[m] != '\n'
  }

  /**
   * `KindHead` is what the pattern's leftmost match gives: "Unknown" when
   * there is no match, otherwise its group, trimmed.
   */
  lemma KindHeadIsLeftmostMatch(s: string)
    ensures (forall i, j :: !KindMatch(s, i, j)) <==> KindHead(s) == "Unknown" && !exists i, j :: KindMatch(s, i, j)
    ensures forall i, j :: KindMatch(s, i, j) && (forall i2, j2 :: i2 < i ==> !KindMatch(s, i2, j2)) ==>
              KindHead(s) == TrimSpace(s[i + 5..j])
  {
    var k := FindKind(s, 0);
    FindKindSpec(s, 0);
    var nl := if k < 0 then -1 else FindNewline(s, k + 5);
    if k >= 0 {
      FindNewlineSpec(s, k + 5);
      RestOfLineSpec(s, k + 5);
    }
    if k >= 0 && nl >= 0 {
      assert KindMatch(s, k, nl);
      assert KindHead(s) == TrimSpace(s[k + 5..nl]);
      forall i, j | KindMatch(s, i, j) && (forall i2, j2 :: i2 < i ==> !KindMatch(s, i2, j2))
        ensures i == k && j == nl
      {
        assert !(i < k);
        assert !(k < i);
        assert s[j] == '\n' && s[nl] == '\n';
      }
    } else {
      forall i, j
        ensures !KindMatch(s, i, j)
      {
        if KindAt(s, i) && k >= 0 {
          assert k <= i;
          assert i + 5 <= j < |s| ==> s[j] != '\n';
        }
      }
    }
  }

  /* ---------------- convert ---------------- */

  const NoChartName: string := "no matching chart name for component name: "

  /**
   * `CollectManifestsByChart`: the manifests grouped under their names, each
   * group in list order. It is defined elsewhere in package helmreconciler
   * and not modelled from its code.
   */
  function CollectManifestsByChart(ms: seq<Manifest>): ChartManifestsMap
    decreases |ms|
  {
    if ms == [] then map[]
    else
      var g := CollectManifestsByChart(ms[..|ms| - 1]);
      var m := ms[|ms| - 1];
      g[m.name := (if m.name in g then g[m.name] else []) + [m]]
  }

  /** The manifests of `ms` named `n`, in order. */
  function WithName(ms: seq<Manifest>, n: string): seq<Manifest>
    decreases |ms|
  {
    if ms == [] then []
    else WithName(ms[..|ms| - 1], n) + (if ms[|ms| - 1].name == n then [ms[|ms| - 1]] else [])
  }

  /** Grouping keeps every manifest, under its name, in order: each group is a filter of the list. */
  lemma {:induction false} GroupIsFilter(ms: seq<Manifest>)
    ensures forall n :: n in CollectManifestsByChart(ms) <==> exists j :: 0 <= j < |ms| && ms[j].name == n
    ensures forall n :: n in CollectManifestsByChart(ms) ==> CollectManifestsByChart(ms)[n] == WithName(ms, n)
    decreases |ms|
  {
    if ms != [] {
      var init := ms[..|ms| - 1];
      GroupIsFilter(init);
      var g := CollectManifestsByChart(ms);
      forall n ensures n in g <==> exists j :: 0 <= j < |ms| && ms[j].name == n {
        if n in CollectManifestsByChart(init) {
          var j :| 0 <= j < |init| && init[j].name == n;
          assert ms[j].name == n;
        }
        if j :| 0 <= j < |ms| && ms[j].name == n {
          if j < |init| {
            assert init[j].name == n;
          }
        }
      }
      forall n | n in g && n !in CollectManifestsByChart(init)
        ensures WithName(init, n) == []
      {
        NoneNamed(init, n);
      }
    }
  }

  /** No manifest of `ms` is named `n`: the filter is empty. */
  lemma {:induction false} NoneNamed(ms: seq<Manifest>, n: string)
    requires forall j :: 0 <= j < |ms| ==> ms[j].name != n
    ensures WithName(ms, n) == []
    decreases |ms|
  {
    if ms != [] {
      NoneNamed(ms[..|ms| - 1], n);
    }
  }

  /** Filtering a list whose names are distinct finds the one manifest so named. */
  lemma {:induction false} UniqueNamed(ms: seq<Manifest>, j: nat)
    requires j < |ms|
    requires forall a, b :: 0 <= a < b < |ms| ==> ms[a].name != ms[b].name
    ensures WithName(ms, ms[j].name) == [ms[j]]
    decreases |ms|
  {
    var init := ms[..|ms| - 1];
    if j == |ms| - 1 {
      NoneNamed(init, ms[j].name);
    } else {
      UniqueNamed(init, j);
    }
  }

  /** The manifest `convert` makes for one component. */
  function ToManifest(cn: string, content: string): Manifest
  {
    Manifest(ChartNameOf(cn), content, KindHead(content))
  }

  /**
   * `convert`: every component must have a chart name, else the first one
   * met without one (in map order) is named in the error; otherwise each
   * component gives exactly one manifest, under its chart, holding its text
   * unchanged and the kind read from it.
   */
  method Convert(manifestMap: map<string, string>) returns (r: Result<ChartManifestsMap, Error>)
    ensures r.Failure? <==> exists cn :: cn in manifestMap && ChartNameOf(cn) == ""
    ensures r.Failure? ==> exists cn :: cn in manifestMap && ChartNameOf(cn) == "" && r.error == Message(NoChartName + cn)
    ensures r.Success? ==> r.value.Keys == (set cn | cn in manifestMap :: ChartNameOf(cn))
    ensures r.Success? ==> forall cn :: cn in manifestMap ==>
              r.value[ChartNameOf(cn)] == [ToManifest(cn, manifestMap[cn])]
  {
    var listManifests: seq<Manifest> := [];
    ghost var charts := map c | c in manifestMap :: ChartNameOf(c);
    ghost var made := map c | c in manifestMap :: ToManifest(c, manifestMap[c]);
    ghost var done: set<string> := {};
    var remaining := manifestMap.Keys;
    while remaining != {}
      invariant remaining !! done && remaining + done == manifestMap.Keys
      invariant forall c :: c in done ==> ChartNameOf(c) != ""
      invariant GroupedOnce(charts, made, done, CollectManifestsByChart(listManifests))
      decreases remaining
    {
      var cn :| cn in remaining;
      var v := manifestMap[cn];
      var h := KindHead(v);
      var chartName := ChartNameOf(cn);
      if chartName == "" {
        return Failure(Message(NoChartName + cn));
      }
      ChartsDiffer(manifestMap, done, cn);
      GroupOneMore(charts, made, done, listManifests, cn);
      listManifests := listManifests + [Manifest(chartName, v, h)];
      done := done + {cn};
      remaining := remaining - {cn};
    }
    ChartsOfAll(manifestMap);
    return Success(CollectManifestsByChart(listManifests));
  }

  /** A component with a chart shares it with no other component. */
  lemma ChartsDiffer(manifestMap: map<string, string>, done: set<string>, cn: string)
    requires done <= manifestMap.Keys && cn in manifestMap && cn !in done
    requires ChartNameOf(cn) != "" && forall c :: c in done ==> ChartNameOf(c) != ""
    ensures var charts := map c | c in manifestMap :: ChartNameOf(c);
      forall c :: c in done ==> charts[c] != charts[cn]
  {
    forall c | c in done
      ensures ChartNameOf(c) != ChartNameOf(cn)
    {
      DistinctCharts(c, cn);
    }
  }

  /** The charts of all components, read through the table of charts. */
  lemma ChartsOfAll(manifestMap: map<string, string>)
    ensures var charts := map c | c in manifestMap :: ChartNameOf(c);
      (set c | c in manifestMap :: ChartNameOf(c)) == (set c | c in manifestMap.Keys :: charts[c])
  {
  }

  /** Grouping one more manifest appends it to the group of its name. */
  lemma GroupSnoc(ms: seq<Manifest>, m: Manifest)
    ensures var g := CollectManifestsByChart(ms);
      CollectManifestsByChart(ms + [m]) == g[m.name := (if m.name in g then g[m.name] else []) + [m]]
  {
    assert (ms + [m])[..|ms|] == ms && (ms + [m])[|ms|] == m;
  }

  /**
   * `g` holds, under its chart `charts[c]`, exactly the manifest `made[c]`
   * of each component `c` of `done`.
   */
  ghost predicate GroupedOnce(charts: map<string, string>, made: map<string, Manifest>, done: set<string>,
                              g: ChartManifestsMap)
  {
    && done <= charts.Keys && done <= made.Keys
    && g.Keys == (set c | c in done :: charts[c])
    && forall c :: c in done ==> charts[c] in g && g[charts[c]] == [made[c]]
  }

  /**
   * Grouping the manifest of one more component, whose chart no component
   * grouped so far has, adds it alone under that chart.
   */
  lemma GroupOneMore(charts: map<string, string>, made: map<string, Manifest>, done: set<string>,
                     ms: seq<Manifest>, cn: string)
    requires cn in charts && cn in made && cn !in done && made[cn].name == charts[cn]
    requires GroupedOnce(charts, made, done, CollectManifestsByChart(ms))
    requires forall c :: c in done ==> charts[c] != charts[cn]
    ensures GroupedOnce(charts, made, done + {cn}, CollectManifestsByChart(ms + [made[cn]]))
  {
    var m := made[cn];
    var g := CollectManifestsByChart(ms);
    GroupSnoc(ms, m);
    assert m.name !in g;
    var g' := g[m.name := [m]];
    assert (set c | c in done + {cn} :: charts[c]) == (set c | c in done :: charts[c]) + {charts[cn]};
    forall c | c in done + {cn}
      ensures charts[c] in g' && g'[charts[c]] == [made[c]]
    {
      if c != cn {
        assert g'[charts[c]] == g[charts[c]];
      }
    }
  }

  /** Manifests with distinct names are grouped one per name. */
  lemma GroupDistinct(ms: seq<Manifest>)
    requires forall a, b :: 0 <= a < b < |ms| ==> ms[a].name != ms[b].name
    ensures forall n :: n in CollectManifestsByChart(ms) <==> exists j :: 0 <= j < |ms| && ms[j].name == n
    ensures forall j :: 0 <= j < |ms| ==> CollectManifestsByChart(ms)[ms[j].name] == [ms[j]]
  {
    GroupIsFilter(ms);
    forall j | 0 <= j < |ms|
      ensures CollectManifestsByChart(ms)[ms[j].name] == [ms[j]]
    {
      assert ms[j].name in CollectManifestsByChart(ms);
      UniqueNamed(ms, j);
    }
  }

  /* ---------------- ProcessManifests ---------------- */

  /** `unstructured.Unstructured`: the decoded object, identified by the JSON it was decoded from. */
  datatype Unstructured = Unstructured(json: string)

  /**
   * The collaborators of `ProcessManifests`: helm's `SplitManifests` (the
   * objects of a manifest text, keyed), YAML to JSON conversion, the
   * unstructured decoder, and `HelmReconciler.ProcessObject`, which answers
   * as a function of every object handed to it so far, the last of them
   * being the one it is answering for.
   */
  datatype ObjectProcessing = ObjectProcessing(
    splitManifests: string -> map<string, string>,
    yamlToJSON: string -> Result<string, Error>,
    decode: string -> Result<Unstructured, Error>,
    processObject: seq<Unstructured> -> Option<Error>)

  /**
   * One object: a failed conversion or decode is its error and stops it
   * there; otherwise it is processed and the answer is its error, if any.
   */
  function ObjectStep(p: ObjectProcessing, raw: string, processed: seq<Unstructured>): (Option<Error>, seq<Unstructured>)
  {
    match p.yamlToJSON(raw)
    case Failure(e) => (Some(e), processed)
    case Success(json) =>
      match p.decode(json)
      case Failure(e) => (Some(e), processed)
      case Success(obj) =>
        var calls := processed + [obj];
        (p.processObject(calls), calls)
  }

  /** The objects of one manifest, in the order `keys` lists them: one outcome per object. */
  function ObjectsLoop(p: ObjectProcessing, objects: map<string, string>, keys: seq<string>, processed: seq<Unstructured>)
    : (seq<Option<Error>>, seq<Unstructured>)
    requires forall k :: k in keys ==> k in objects
    decreases |keys|
  {
    if keys == [] then ([], processed)
    else
      var (o1, c1) := ObjectsLoop(p, objects, keys[..|keys| - 1], processed);
      var (o, c2) := ObjectStep(p, objects[keys[|keys| - 1]], c1);
      (o1 + [o], c2)
  }

  /** `keys` lists every member of `s` exactly once. */
  ghost predicate Enumerates(keys: seq<string>, s: set<string>)
  {
    && (forall k :: k in keys <==> k in s)
    && forall a, b :: 0 <= a < b < |keys| ==> keys[a] != keys[b]
  }

  /** `keys[i]` lists objects of the i-th manifest. */
  predicate KeysOf(p: ObjectProcessing, manifests: seq<Manifest>, keys: seq<seq<string>>)
  {
    && |keys| == |manifests|
    && forall i, k :: 0 <= i < |keys| && k in keys[i] ==> k in p.splitManifests(manifests[i].content)
  }

  /** Every manifest in turn, its objects in the order `keys` gives: the outcomes, manifest by manifest. */
  function ManifestsLoop(p: ObjectProcessing, manifests: seq<Manifest>, keys: seq<seq<string>>)
    : (seq<seq<Option<Error>>>, seq<Unstructured>)
    requires KeysOf(p, manifests, keys)
    decreases |manifests|
  {
    if manifests == [] then ([], [])
    else
      var n := |manifests| - 1;
      var (o1, c1) := ManifestsLoop(p, manifests[..n], keys[..n]);
      var (o, c2) := ObjectsLoop(p, p.splitManifests(manifests[n].content), keys[n], c1);
      (o1 + [o], c2)
  }

  /** The outcomes of every object, manifest after manifest. */
  function Concat(outcomes: seq<seq<Option<Error>>>): seq<Option<Error>>
    decreases |outcomes|
  {
    if outcomes == [] then [] else Concat(outcomes[..|outcomes| - 1]) + outcomes[|outcomes| - 1]
  }

  /** The outcomes of one more manifest follow those of the manifests before it. */
  lemma ConcatSnoc(outcomes: seq<seq<Option<Error>>>, os: seq<Option<Error>>)
    ensures Concat(outcomes + [os]) == Concat(outcomes) + os
  {
    assert (outcomes + [os])[..|outcomes|] == outcomes;
  }

  /** Running one more manifest continues from the objects the earlier manifests handed over. */
  lemma ManifestsLoopSnoc(p: ObjectProcessing, manifests: seq<Manifest>, keys: seq<seq<string>>, i: nat, ks: seq<string>)
    requires i < |manifests| && KeysOf(p, manifests[..i], keys)
    requires forall k :: k in ks ==> k in p.splitManifests(manifests[i].content)
    ensures KeysOf(p, manifests[..i + 1], keys + [ks])
    ensures ManifestsLoop(p, manifests[..i + 1], keys + [ks])
         == var (o1, c1) := ManifestsLoop(p, manifests[..i], keys);
            var (o, c2) := ObjectsLoop(p, p.splitManifests(manifests[i].content), ks, c1);
            (o1 + [o], c2)
  {
    assert manifests[..i + 1][..i] == manifests[..i];
    assert (keys + [ks])[..i] == keys;
  }

  /**
   * `ProcessManifests`: every object of every manifest is attempted, in
   * manifest order and, within a manifest, in the (unspecified) order of
   * the split map, whatever failed before; each contributes at most one
   * error, and the aggregate of those errors, in order, is returned.
   * `keys` is the order taken, `outcomes` the per-object results, and
   * `processed` the objects handed to `HelmReconciler.ProcessObject`.
   */
  method ProcessManifests(p: ObjectProcessing, manifests: seq<Manifest>)
    returns (err: Option<Error>, processed: seq<Unstructured>, ghost keys: seq<seq<string>>, ghost outcomes: seq<seq<Option<Error>>>)
    ensures KeysOf(p, manifests, keys)
    ensures forall i :: 0 <= i < |manifests| ==> Enumerates(keys[i], p.splitManifests(manifests[i].content).Keys)
    ensures (outcomes, processed) == ManifestsLoop(p, manifests, keys)
    ensures err == NewAggregate(Collect(Concat(outcomes)))
  {
    var allErrors: seq<Error> := [];
    processed := [];
    keys := [];
    outcomes := [];
    for i := 0 to |manifests|
      invariant KeysOf(p, manifests[..i], keys)
      invariant forall m :: 0 <= m < i ==> Enumerates(keys[m], p.splitManifests(manifests[m].content).Keys)
      invariant (outcomes, processed) == ManifestsLoop(p, manifests[..i], keys)
      invariant allErrors == Collect(Concat(outcomes))
    {
      var objects := p.splitManifests(manifests[i].content);
      ghost var ks, os;
      ghost var errorsBefore := allErrors;
      ks, os, processed, allErrors := ProcessObjects(p, objects, processed, allErrors);
      ManifestsLoopSnoc(p, manifests, keys, i, ks);
      forall m | 0 <= m < i + 1
        ensures Enumerates((keys + [ks])[m], p.splitManifests(manifests[m].content).Keys)
      {
        if m < i {
          assert (keys + [ks])[m] == keys[m];
        }
      }
      keys := keys + [ks];
      CollectAppend(Concat(outcomes), os);
      ConcatSnoc(outcomes, os);
      outcomes := outcomes + [os];
    }
    assert manifests[..|manifests|] == manifests;
    err := NewAggregate(allErrors);
  }

  /**
   * One object of a manifest (the inner-loop body of `ProcessManifests`):
   * converted to JSON, decoded, and handed to `HelmReconciler.ProcessObject`
   * (the oracle `processObject`) with every object processed so far; a
   * failing conversion or decoding skips it.
   */
  method ApplyRawObject(p: ObjectProcessing, raw: string, processed0: seq<Unstructured>)
    returns (outcome: Option<Error>, processed: seq<Unstructured>)
    ensures (outcome, processed) == ObjectStep(p, raw, processed0)
  {
    processed := processed0;
    var rawJSON := p.yamlToJSON(raw);
    if rawJSON.Failure? {
      return Some(rawJSON.error), processed;
    }
    var obj := p.decode(rawJSON.value);
    if obj.Failure? {
      return Some(obj.error), processed;
    }
    processed := processed + [obj.value];
    outcome := p.processObject(processed);
  }

  /** The inner loop of `ProcessManifests`, over the objects of one manifest in map order. */
  method ProcessObjects(p: ObjectProcessing, objects: map<string, string>, processed0: seq<Unstructured>, errors0: seq<Error>)
    returns (ghost keys: seq<string>, ghost outcomes: seq<Option<Error>>, processed: seq<Unstructured>, allErrors: seq<Error>)
    ensures Enumerates(keys, objects.Keys)
    ensures (outcomes, processed) == ObjectsLoop(p, objects, keys, processed0)
    ensures allErrors == errors0 + Collect(outcomes)
  {
    processed, allErrors := processed0, errors0;
    keys, outcomes := [], [];
    var remaining := objects.Keys;
    while remaining != {}
      invariant remaining <= objects.Keys
      invariant forall k :: k in keys <==> k in objects && k !in remaining
      invariant forall a, b :: 0 <= a < b < |keys| ==> keys[a] != keys[b]
      invariant (outcomes, processed) == ObjectsLoop(p, objects, keys, processed0)
      invariant allErrors == errors0 + Collect(outcomes)
      decreases remaining
    {
      var key :| key in remaining;
      var outcome;
      outcome, processed := ApplyRawObject(p, objects[key], processed);
      if outcome.Some? {
        allErrors := allErrors + [outcome.value];
      }
      assert (keys + [key])[..|keys|] == keys;
      CollectAppend(outcomes, [outcome]);
      CollectOne(outcome);
      AppendAssoc(errors0, Collect(outcomes), Collect([outcome]));
      keys := keys + [key];
      remaining := remaining - {key};
      outcomes := outcomes + [outcome];
    }
  }

  /* ---------------- what ProcessManifests promises ---------------- */

  /** One outcome per object of each manifest, whatever failed before it. */
  lemma {:induction false} OutcomesPerObject(p: ObjectProcessing, manifests: seq<Manifest>, keys: seq<seq<string>>)
    requires KeysOf(p, manifests, keys)
    ensures var (outcomes, _) := ManifestsLoop(p, manifests, keys);
      |outcomes| == |manifests| && forall i :: 0 <= i < |manifests| ==> |outcomes[i]| == |keys[i]|
    decreases |manifests|
  {
    if manifests != [] {
      var n := |manifests| - 1;
      OutcomesPerObject(p, manifests[..n], keys[..n]);
      var (o1, c1) := ManifestsLoop(p, manifests[..n], keys[..n]);
      ObjectsLoopLength(p, p.splitManifests(manifests[n].content), keys[n], c1);
    }
  }

  lemma {:induction false} ObjectsLoopLength(p: ObjectProcessing, objects: map<string, string>, keys: seq<string>, processed: seq<Unstructured>)
    requires forall k :: k in keys ==> k in objects
    ensures |ObjectsLoop(p, objects, keys, processed).0| == |keys|
    decreases |keys|
  {
    if keys != [] {
      ObjectsLoopLength(p, objects, keys[..|keys| - 1], processed);
    }
  }

  /**
   * What each object's outcome is: the conversion error when its YAML does
   * not convert, the decode error when its JSON does not decode, and
   * otherwise the answer of `HelmReconciler.ProcessObject` to the object it decoded to,
   * which is then the last object processed so far.
   */
  lemma {:induction false} ObjectOutcomes(p: ObjectProcessing, objects: map<string, string>, keys: seq<string>, processed: seq<Unstructured>)
    requires forall k :: k in keys ==> k in objects
    ensures var (outcomes, calls) := ObjectsLoop(p, objects, keys, processed);
      && |outcomes| == |keys|
      && forall j :: 0 <= j < |keys| ==>
           var raw := objects[keys[j]];
           && (p.yamlToJSON(raw).Failure? ==> outcomes[j] == Some(p.yamlToJSON(raw).error))
           && (p.yamlToJSON(raw).Success? && p.decode(p.yamlToJSON(raw).value).Failure? ==>
                 outcomes[j] == Some(p.decode(p.yamlToJSON(raw).value).error))
           && (p.yamlToJSON(raw).Success? && p.decode(p.yamlToJSON(raw).value).Success? ==>
                 p.decode(p.yamlToJSON(raw).value).value in calls)
    decreases |keys|
  {
    if keys != [] {
      var init := keys[..|keys| - 1];
      assert forall k :: k in init ==> k in keys;
      ObjectOutcomes(p, objects, init, processed);
      var (o1, c1) := ObjectsLoop(p, objects, init, processed);
      var (o, c2) := ObjectStep(p, objects[keys[|keys| - 1]], c1);
      assert c1 <= c2;
      forall j | 0 <= j < |init|
        ensures init[j] == keys[j]
      {
      }
    }
  }

  /**
   * `ProcessManifests` returns nil iff no object of any manifest failed, and
   * collects at most one error per object.
   */
  lemma NilIffEveryObjectSucceeds(outcomes: seq<seq<Option<Error>>>)
    ensures var errs := Collect(Concat(outcomes));
      && |errs| <= |Concat(outcomes)|
      && (NewAggregate(errs).None? <==> forall i, j :: 0 <= i < |outcomes| && 0 <= j < |outcomes[i]| ==> outcomes[i][j].None?)
  {
    ConcatMembers(outcomes);
  }

  /** An outcome is in the concatenation iff it is in one of the parts. */
  lemma {:induction false} ConcatMembers(outcomes: seq<seq<Option<Error>>>)
    ensures forall i, j :: 0 <= i < |outcomes| && 0 <= j < |outcomes[i]| ==> outcomes[i][j] in Concat(outcomes)
    ensures forall x :: x in Concat(outcomes) ==> exists i, j :: 0 <= i < |outcomes| && 0 <= j < |outcomes[i]| && outcomes[i][j] == x
    decreases |outcomes|
  {
    if outcomes != [] {
      var n := |outcomes| - 1;
      ConcatMembers(outcomes[..n]);
      forall x | x in Concat(outcomes)
        ensures exists i, j :: 0 <= i < |outcomes| && 0 <= j < |outcomes[i]| && outcomes[i][j] == x
      {
        if x in Concat(outcomes[..n]) {
          var i, j :| 0 <= i < n && 0 <= j < |outcomes[..n][i]| && outcomes[..n][i][j] == x;
          assert outcomes[i][j] == x;
        } else {
          var j :| 0 <= j < |outcomes[n]| && outcomes[n][j] == x;
        }
      }
      forall i, j | 0 <= i < |outcomes| && 0 <= j < |outcomes[i]|
        ensures outcomes[i][j] in Concat(outcomes)
      {
        if i < n {
          assert outcomes[..n][i] == outcomes[i];
        }
      }
    }
  }
}

/**
 * Rendering of the per-component path templates of
 * pkg/translate/translateValue.go (`componentString`, and
 * `featureComponentString`, which is defined elsewhere in the package and not modelled from its code).
 * `html/template` execution is modelled as plain placeholder substitution:
 * every `{{.Field}}` action is replaced by the bound string.
 */
module Templates {

  /** The text of the action `{{.field}}`. */
  function Placeholder(field: string): (r: string)
    ensures |r| > 0 && r[0] == '{'
  {
    "{{." + field + "}}"
  }

  const ValueComponentNameField: string := "ValueComponentName"
  const FeatureNameField: string := "FeatureName"
  const ComponentNameField: string := "ComponentName"

  /** Replace every occurrence of `pattern` in `s`, scanning left to right. */
  function ReplaceAll(s: string, pattern: string, replacement: string): string
    requires pattern != []
    decreases |s|
  {
    if |s| < |pattern| then s
    else if s[..|pattern|] == pattern then replacement + ReplaceAll(s[|pattern|..], pattern, replacement)
    else [s[0]] + ReplaceAll(s[1..], pattern, replacement)
  }

  /** Text without a '{' holds no action and renders to itself. */
  lemma {:induction false} ReplaceAllNoBrace(s: string, pattern: string, replacement: string)
    requires pattern != [] && pattern[0] == '{' && '{' !in s
    ensures ReplaceAll(s, pattern, replacement) == s
    decreases |s|
  {
    if |s| >= |pattern| {
      assert s[..|pattern|][0] == s[0] != '{';
      ReplaceAllNoBrace(s[1..], pattern, replacement);
    }
  }

  /** Rendering distributes over a leading action and over text without '{'. */
  lemma ReplaceAllLeading(s: string, pattern: string, replacement: string)
    requires pattern != []
    ensures ReplaceAll(pattern + s, pattern, replacement) == replacement + ReplaceAll(s, pattern, replacement)
  {
    assert (pattern + s)[..|pattern|] == pattern;
    assert (pattern + s)[|pattern|..] == s;
  }

  lemma {:induction false} ReplaceAllPlainPrefix(a: string, s: string, pattern: string, replacement: string)
    requires pattern != [] && pattern[0] == '{' && '{' !in a
    ensures ReplaceAll(a + s, pattern, replacement) == a + ReplaceAll(s, pattern, replacement)
    decreases |a|
  {
    if a != [] {
      var t := a + s;
      assert t[0] == a[0] != '{';
      ReplaceAllStep(t, pattern, replacement);
      assert t[1..] == a[1..] + s;
      ReplaceAllPlainPrefix(a[1..], s, pattern, replacement);
      var r := ReplaceAll(s, pattern, replacement);
      assert [a[0]] + (a[1..] + r) == a + r;
    } else {
      assert a + s == s;
    }
  }

  lemma ReplaceAllShort(s: string, pattern: string, replacement: string)
    requires pattern != [] && |s| < |pattern|
    ensures ReplaceAll(s, pattern, replacement) == s
  {
  }

  /** `componentString`: render a key template for one values-file component key. */
  function ComponentString(tmpl: string, componentName: string): string
  {
    ReplaceAll(tmpl, Placeholder(ValueComponentNameField), componentName)
  }

  /** `featureComponentString`: render an output-path template for a feature and a component. */
  function FeatureComponentString(tmpl: string, featureName: string, componentName: string): string
  {
    ReplaceAll(ReplaceAll(tmpl, Placeholder(FeatureNameField), featureName),
               Placeholder(ComponentNameField), componentName)
  }

  /** A key template `{{.ValueComponentName}}<suffix>` renders to the component key followed by the suffix. */
  lemma {:induction false} ComponentStringOfKeyTemplate(suffix: string, componentName: string)
    requires '{' !in suffix
    ensures ComponentString(Placeholder(ValueComponentNameField) + suffix, componentName) == componentName + suffix
  {
    ReplaceAllLeading(suffix, Placeholder(ValueComponentNameField), componentName);
    ReplaceAllNoBrace(suffix, Placeholder(ValueComponentNameField), componentName);
  }

  /** A ComponentName action is not a FeatureName action: it is copied by the first pass. */
  lemma ComponentActionSurvivesFeaturePass(tail: string, featureName: string)
    requires '{' !in tail
    ensures var cp := Placeholder(ComponentNameField);
      ReplaceAll(cp + tail, Placeholder(FeatureNameField), featureName) == cp + tail
  {
    var fp, cp := Placeholder(FeatureNameField), Placeholder(ComponentNameField);
    var ct := cp + tail;
    assert !(fp <= ct) by {
      assert ct[3] == 'C' && fp[3] == 'F';
    }
    ReplaceAllStep(ct, fp, featureName);
    assert !(fp <= ct[1..]) by {
      assert ct[1..][1] == '.' && fp[1] == '{';
    }
    ReplaceAllStep(ct[1..], fp, featureName);
    assert ct[1..][1..] == cp[2..] + tail;
    assert '{' !in cp[2..];
    ReplaceAllPlainPrefix(cp[2..], tail, fp, featureName);
    ReplaceAllNoBrace(tail, fp, featureName);
    assert [ct[0]] + ([ct[1..][0]] + (cp[2..] + tail)) == ct;
  }

  /** A pass for `pattern` over action + plain text + text it leaves alone. */
  lemma LeadingPass(pattern: string, middle: string, rest: string, replacement: string)
    requires pattern != [] && pattern[0] == '{' && '{' !in middle
    requires ReplaceAll(rest, pattern, replacement) == rest
    ensures ReplaceAll(pattern + middle + rest, pattern, replacement) == replacement + middle + rest
  {
    assert pattern + middle + rest == pattern + (middle + rest);
    ReplaceAllLeading(middle + rest, pattern, replacement);
    ReplaceAllPlainPrefix(middle, rest, pattern, replacement);
  }

  lemma FeaturePass(middle: string, tail: string, featureName: string)
    requires '{' !in middle && '{' !in tail
    ensures var fp, cp := Placeholder(FeatureNameField), Placeholder(ComponentNameField);
      ReplaceAll(fp + middle + cp + tail, fp, featureName) == featureName + middle + cp + tail
  {
    var fp, cp := Placeholder(FeatureNameField), Placeholder(ComponentNameField);
    ComponentActionSurvivesFeaturePass(tail, featureName);
    LeadingPass(fp, middle, cp + tail, featureName);
    assert fp + middle + cp + tail == fp + middle + (cp + tail);
    assert featureName + middle + (cp + tail) == featureName + middle + cp + tail;
  }

  lemma ComponentPass(prefix: string, tail: string, componentName: string)
    requires '{' !in prefix && '{' !in tail
    ensures var cp := Placeholder(ComponentNameField);
      ReplaceAll(prefix + cp + tail, cp, componentName) == prefix + componentName + tail
  {
    var cp := Placeholder(ComponentNameField);
    assert prefix + cp + tail == prefix + (cp + tail);
    ReplaceAllPlainPrefix(prefix, cp + tail, cp, componentName);
    ReplaceAllLeading(tail, cp, componentName);
    ReplaceAllNoBrace(tail, cp, componentName);
  }

  /**
   * An output template `{{.FeatureName}}<middle>{{.ComponentName}}<tail>`
   * renders to feature + middle + component + tail.
   */
  lemma FeatureComponentStringOfPathTemplate(middle: string, tail: string, featureName: string, componentName: string)
    requires '{' !in middle && '{' !in tail && '{' !in featureName
    ensures FeatureComponentString(Placeholder(FeatureNameField) + middle + Placeholder(ComponentNameField) + tail,
                                   featureName, componentName)
         == featureName + middle + componentName + tail
  {
    FeaturePass(middle, tail, featureName);
    assert '{' !in featureName + middle;
    ComponentPass(featureName + middle, tail, componentName);
  }

  /** Where the text does not start with the pattern, its first character is copied. */
  lemma ReplaceAllStep(t: string, pattern: string, replacement: string)
    requires pattern != [] && t != [] && !(pattern <= t)
    ensures ReplaceAll(t, pattern, replacement) == [t[0]] + ReplaceAll(t[1..], pattern, replacement)
  {
    if |t| < |pattern| {
      ReplaceAllShort(t[1..], pattern, replacement);
    }
  }
}

/** `format.Replace`: placeholders "{key}" in a string replaced by values.
    The values come already rendered by `%v`, tagged with their Go type as
    far as `Replace` looks at it; the map's entries come in the order the
    iteration happens to visit them, given here as a sequence. */
module Format {
  import opened Common
  import opened GoStrings

  /** A map value: an int, a bool, or anything else, with its `%v` text. */
  datatype Value = IntValue(rendered: string) | BoolValue(rendered: string) | OtherValue(rendered: string)

  /** The text a value replaces: a bool value replaces the placeholder
      together with the double quotes around it; every other value, ints
      included, replaces the bare placeholder. */
  function Placeholder(key: string, v: Value): (p: string)
    ensures |p| >= 2
    ensures v.BoolValue? ==> |p| == |key| + 4 && p[0] == '"' && p[|p| - 1] == '"' && p[1..|p| - 1] == "{" + key + "}"
    ensures !v.BoolValue? ==> |p| == |key| + 2 && p[0] == '{' && p[|p| - 1] == '}' && p[1..|p| - 1] == key
  {
    var prefix := if v.BoolValue? then "\"{" else "{";
    var suffix := if v.BoolValue? then "}\"" else "}";
    prefix + key + suffix
  }

  /** The string after the entries were applied one after another. */
  function Applied(s: string, entries: seq<(string, Value)>): string
    decreases |entries|
  {
    if entries == [] then s
    else
      var e := entries[|entries| - 1];
      ReplaceAll(Applied(s, entries[..|entries| - 1]), Placeholder(e.0, e.1), e.1.rendered)
  }

  /** `Replace`: a nil map (`None`) leaves the string as it is. */
  method Replace(str: string, t: Option<seq<(string, Value)>>) returns (r: string)
    ensures t.None? ==> r == str
    ensures t.Some? ==> r == Applied(str, t.value)
  {
    r := str;
    if t.Some? {
      var entries := t.value;
      var i := 0;
      while i < |entries|
        invariant 0 <= i <= |entries|
        invariant r == Applied(str, entries[..i])
      {
        var (key, value) := entries[i];
        assert entries[..i + 1][..i] == entries[..i];
        r := ReplaceAll(r, Placeholder(key, value), value.rendered);
        i := i + 1;
      }
      assert entries[..i] == entries;
    }
  }

  /** Entries whose placeholders do not occur leave the string unchanged. */
  lemma {:induction false} AbsentKeysUnchanged(s: string, entries: seq<(string, Value)>)
    requires forall k | 0 <= k < |entries| :: !Contains(s, Placeholder(entries[k].0, entries[k].1))
    ensures Applied(s, entries) == s
    decreases |entries|
  {
    if entries != [] {
      var e := entries[|entries| - 1];
      AbsentKeysUnchanged(s, entries[..|entries| - 1]);
      ReplaceAllAbsent(s, Placeholder(e.0, e.1), e.1.rendered);
    }
  }

  /** A bool value never touches a string without a double quote, so a bare
      "{key}" stays; an int or other value replaces the bare placeholder. */
  lemma BoolNeedsQuotes(s: string, key: string, x: string)
    requires forall i | 0 <= i < |s| :: s[i] != '"'
    ensures Applied(s, [(key, BoolValue(x))]) == s
    ensures Applied("{" + key + "}", [(key, IntValue(x))]) == x
    ensures Applied("{" + key + "}", [(key, OtherValue(x))]) == x
    ensures Applied("\"{" + key + "}\"", [(key, BoolValue(x))]) == x
  {
    var p := Placeholder(key, BoolValue(x));
    assert !Contains(s, p);
    ReplaceAllAbsent(s, p, x);
    assert [(key, BoolValue(x))][..0] == [];
    WholePattern("{" + key + "}", x);
    WholePattern("\"{" + key + "}\"", x);
  }

  /** A string that is exactly the pattern is replaced whole. */
  lemma WholePattern(p: string, rep: string)
    requires |p| > 0
    ensures ReplaceAll(p, p, rep) == rep
  {
    assert p[|p|..] == [];
    assert ReplaceAll(p, p, rep) == rep + ReplaceAll([], p, rep);
  }
}

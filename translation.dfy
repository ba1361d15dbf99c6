/** The translations of one locale, and the placeholder substitution of
    `Translate`. The placeholders are the matches of the regular expression
    `{(.*?)}+`, found here by a scanner written out by hand: from the
    leftmost "{" that has a "}" after it on the same line, up to that first
    "}" and every "}" directly after it. The arguments are given already
    rendered as strings; an absent argument is Go's nil. */
module Translations {
  import opened Common
  import opened GoStrings

  /** The first "}" at or after `j`, before the end of the line, or -1. */
  function CloseFrom(s: string, j: nat): (k: int)
    ensures k == -1 || j <= k < |s|
    ensures k >= 0 ==> s[k] == '}' && forall m | j <= m < k :: s[m] != '}' && s[m] != '\n'
    ensures k == -1 ==> forall m | j <= m < |s| && s[m] == '}' :: exists n | j <= n < m :: s[n] == '\n'
    decreases |s| - j
  {
    if j >= |s| || s[j] == '\n' then -1
    else if s[j] == '}' then j
    else CloseFrom(s, j + 1)
  }

  /** The end of the run of "}" starting at `j`. */
  function RunEnd(s: string, j: nat): (e: nat)
    requires j <= |s|
    ensures j <= e <= |s|
    ensures forall m | j <= m < e :: s[m] == '}'
    ensures e == |s| || s[e] != '}'
    decreases |s| - j
  {
    if j < |s| && s[j] == '}' then RunEnd(s, j + 1) else j
  }

  /** The placeholder texts of `s` from position `i`, in order, without overlap. */
  function MatchesFrom(s: string, i: nat): (ms: seq<string>)
    requires i <= |s|
    ensures forall k | 0 <= k < |ms| :: |ms[k]| >= 2 && ms[k][0] == '{' && ms[k][|ms[k]| - 1] == '}'
    ensures forall k | 0 <= k < |ms| :: Contains(s, ms[k])
    ensures (forall m | i <= m < |s| :: s[m] != '{') ==> ms == []
    decreases |s| - i
  {
    if i == |s| then []
    else if s[i] == '{' && CloseFrom(s, i + 1) >= 0 then
      var e := RunEnd(s, CloseFrom(s, i + 1));
      assert OccursAt(s, s[i..e], i);
      [s[i..e]] + MatchesFrom(s, e)
    else MatchesFrom(s, i + 1)
  }

  /** `FindAllStringSubmatch`, whole matches only. */
  function Matches(s: string): (ms: seq<string>)
    ensures forall k | 0 <= k < |ms| :: |ms[k]| >= 2 && ms[k][0] == '{' && ms[k][|ms[k]| - 1] == '}'
    ensures forall k | 0 <= k < |ms| :: Contains(s, ms[k])
    ensures (forall m | 0 <= m < |s| :: s[m] != '{') ==> ms == []
  {
    MatchesFrom(s, 0)
  }

  /** The translation after the first `n` placeholders were handled: the
      i-th is replaced throughout by the i-th argument when there is one and
      it is not nil. */
  function Substituted(t: string, ms: seq<string>, args: seq<Option<string>>, n: nat): string
    requires n <= |ms|
    requires forall k | 0 <= k < |ms| :: |ms[k]| > 0
  {
    if n == 0 then t
    else
      var prev := Substituted(t, ms, args, n - 1);
      if n - 1 < |args| && args[n - 1].Some? then ReplaceAll(prev, ms[n - 1], args[n - 1].value) else prev
  }

  class Translation {
    var translations: map<string, string>
    const locale: string
    const argPrefix: string
    const argSuffix: string

    /** `NewTranslation`. */
    constructor (locale: string)
      ensures translations == map[] && this.locale == locale
      ensures argPrefix == "{" && argSuffix == "}"
    {
      translations := map[];
      this.locale := locale;
      argPrefix := "{";
      argSuffix := "}";
    }

    /** `Add`: sets one key. */
    method Add(key: string, value: string)
      modifies this`translations
      ensures translations == old(translations)[key := value]
    {
      translations := translations[key := value];
    }

    /** `Set`: every entry of `m` is added, overwriting; an empty map changes nothing. */
    method Set(m: map<string, string>)
      modifies this`translations
      ensures translations == old(translations) + m
    {
      if |m| == 0 {
        assert m == map[];
        assert old(translations) + m == old(translations);
        return;
      }
      var rest := m.Keys;
      while rest != {}
        invariant rest <= m.Keys
        invariant translations == old(translations) + map k | k in m.Keys - rest :: m[k]
        decreases |rest|
      {
        var key :| key in rest;
        translations := translations[key := m[key]];
        rest := rest - {key};
      }
      assert (map k | k in m.Keys - rest :: m[k]) == m;
    }

    /** `Get`: the translation, or the key itself and false. */
    function Get(key: string): (r: (string, bool))
      reads this
      ensures r.1 <==> key in translations
      ensures r.1 ==> r.0 == translations[key]
      ensures !r.1 ==> r.0 == key
    {
      if key in translations then (translations[key], true) else (key, false)
    }

    /** `Translate`: an unknown key is returned as it is; without arguments,
        or with a nil first argument, the bare translation; otherwise the
        placeholders are substituted in order. */
    method Translate(text: string, args: seq<Option<string>>) returns (r: string)
      ensures text !in translations ==> r == text
      ensures text in translations && !(|args| > 0 && args[0].Some?) ==> r == translations[text]
      ensures text in translations && |args| > 0 && args[0].Some? ==>
        var t := translations[text];
        r == Substituted(t, Matches(t), args, |Matches(t)|)
    {
      var (translate, ok) := Get(text);
      if !ok {
        return text;
      }
      if |args| > 0 && args[0].Some? {
        var translated := translate;
        var matches := Matches(translated);
        var index := 0;
        while index < |matches|
          invariant 0 <= index <= |matches|
          invariant translated == Substituted(translate, matches, args, index)
        {
          if index < |args| {
            var replace := args[index];
            if replace.Some? {
              translated := ReplaceAll(translated, matches[index], replace.value);
            }
          }
          index := index + 1;
        }
        return translated;
      }
      return translate;
    }
  }

  /** A translation without "{" is returned as it is, whatever the arguments. */
  lemma {:induction false} NoPlaceholderUnchanged(t: string, args: seq<Option<string>>)
    requires forall m | 0 <= m < |t| :: t[m] != '{'
    ensures Substituted(t, Matches(t), args, |Matches(t)|) == t
  {
    assert Matches(t) == [];
  }

  /** A concrete run of the scanner: the braces run is taken whole, and a
      "{" without a "}" later on its line is not a placeholder. */
  lemma ScannerExample()
    ensures Matches("{a}} x {b") == ["{a}}"]
  {
    var s := "{a}} x {b";
    assert CloseFrom(s, 1) == 2;
    assert RunEnd(s, 2) == 4;
    assert CloseFrom(s, 8) == -1;
    assert MatchesFrom(s, 9) == [];
    assert MatchesFrom(s, 8) == [];
    assert MatchesFrom(s, 7) == [];
    assert MatchesFrom(s, 6) == [];
    assert MatchesFrom(s, 5) == [];
    assert MatchesFrom(s, 4) == [];
    assert s[0..4] == "{a}}";
    assert MatchesFrom(s, 0) == [s[0..4]] + MatchesFrom(s, 4);
  }
}

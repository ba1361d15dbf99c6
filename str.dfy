/** String helpers: the search-expression matcher, the Persian letter
    normalisation, duplicate removal, and stripping to letters and digits. */
module Str {
  import opened GoStrings

  // ---------------------------------------------------------------- Strip

  /** The characters the regular expression `\W|_+` does not remove: ASCII
      letters and digits. */
  predicate IsWordChar(c: char) {
    ('0' <= c <= '9') || ('a' <= c <= 'z') || ('A' <= c <= 'Z')
  }

  /** `Strip(s)` with the default empty replacement. */
  function Strip(s: string): (r: string)
    ensures forall i | 0 <= i < |r| :: IsWordChar(r[i])
    ensures forall i | 0 <= i < |s| && IsWordChar(s[i]) :: s[i] in r
    ensures |r| <= |s|
    ensures (forall i | 0 <= i < |s| :: IsWordChar(s[i])) ==> r == s
    decreases |s|
  {
    if s == [] then []
    else
      var rest := Strip(s[1..]);
      assert forall i | 1 <= i < |s| :: s[i] == s[1..][i - 1];
      if IsWordChar(s[0]) then [s[0]] + rest else rest
  }

  /** One character is kept exactly when it is a letter or digit. */
  lemma StripOne(c: char)
    ensures Strip([c]) == (if IsWordChar(c) then [c] else [])
  {
    assert [c][1..] == [];
  }

  /** Stripping works piece by piece: the kept characters of `a` come first,
      in their order, then those of `b`. With `StripOne` this determines
      `Strip` on every string: it is the order-preserving filter. */
  lemma {:induction false} StripAppend(a: string, b: string)
    ensures Strip(a + b) == Strip(a) + Strip(b)
    decreases |a|
  {
    if a == [] {
      assert a + b == b;
    } else {
      var head := if IsWordChar(a[0]) then [a[0]] else [];
      calc {
        Strip(a + b);
        { assert (a + b)[0] == a[0] && (a + b)[1..] == a[1..] + b; }
        head + Strip(a[1..] + b);
        { StripAppend(a[1..], b); }
        head + (Strip(a[1..]) + Strip(b));
        Strip(a) + Strip(b);
      }
    }
  }

  // ------------------------------------------------------ ArabicToPersian

  /** The replacement table: Arabic yeh and alef maksura become Farsi yeh,
      Arabic kaf becomes keheh. No replacement produces a letter that another
      replaces, so the order in which the table is walked does not matter. */
  const Replacements: seq<(char, char)> := [('ي', 'ی'), ('ى', 'ی'), ('ك', 'ک')]

  /** One letter after all replacements. */
  function PersianChar(c: char): (r: char)
    ensures r == 'ی' <==> c == 'ي' || c == 'ى' || c == 'ی'
    ensures r == 'ک' <==> c == 'ك' || c == 'ک'
    ensures c != 'ي' && c != 'ى' && c != 'ك' ==> r == c
  {
    if c == 'ي' || c == 'ى' then 'ی'
    else if c == 'ك' then 'ک'
    else c
  }

  /** The text with every letter normalised. */
  function Persian(text: string): (r: string)
    ensures |r| == |text|
    ensures forall i | 0 <= i < |text| :: r[i] == PersianChar(text[i])
  {
    seq(|text|, i requires 0 <= i < |text| => PersianChar(text[i]))
  }

  /** The letter `c` after the first `n` entries of `walk`, a walk of the table. */
  function ReplacedBy(walk: seq<(char, char)>, n: nat, c: char): char
    requires n <= |walk|
    decreases n
  {
    if n == 0 then c
    else
      var d := ReplacedBy(walk, n - 1, c);
      if d == walk[n - 1].0 then walk[n - 1].1 else d
  }

  /** Some of the first `n` entries of `walk` replaces `c`. */
  ghost predicate Keyed(walk: seq<(char, char)>, n: nat, c: char)
    requires n <= |walk|
  {
    exists j | 0 <= j < n :: walk[j].0 == c
  }

  /** `strings.Replace(s, [k], [v], -1)` changes each `k` into `v` and nothing else. */
  lemma {:induction false} ReplaceAllChar(s: string, k: char, v: char)
    ensures |ReplaceAll(s, [k], [v])| == |s|
    ensures forall i | 0 <= i < |s| :: ReplaceAll(s, [k], [v])[i] == (if s[i] == k then v else s[i])
    decreases |s|
  {
    if |s| >= 1 {
      ReplaceAllChar(s[1..], k, v);
      var tail := ReplaceAll(s[1..], [k], [v]);
      assert ReplaceAll(s, [k], [v]) == [if s[0] == k then v else s[0]] + tail by {
        if s[..1] == [k] {
          assert s[0] == k;
        } else {
          assert s[0] != k;
        }
      }
    }
  }

  /** `ArabicToPersian`: each table entry replaces every occurrence of its
      letter. Go walks the table map in no fixed order: `walk` is that order,
      any arrangement of the table. */
  method ArabicToPersian(text: string, walk: seq<(char, char)>) returns (r: string)
    requires multiset(walk) == multiset(Replacements)
    ensures r == Persian(text)
  {
    r := text;
    var n := 0;
    while n < |walk|
      invariant 0 <= n <= |walk|
      invariant |r| == |text|
      invariant forall i | 0 <= i < |text| :: r[i] == ReplacedBy(walk, n, text[i])
    {
      var (k, v) := walk[n];
      ReplaceAllChar(r, k, v);
      r := ReplaceAll(r, [k], [v]);
      n := n + 1;
    }
    forall i | 0 <= i < |text| ensures r[i] == PersianChar(text[i]) {
      ReplacedByAnyWalk(walk, text[i]);
    }
  }

  /** A walk made only of table entries replaces `c` by its Persian form once
      some entry so far has `c` as its key, and leaves it alone otherwise: no
      replacement produces a letter that another entry replaces. */
  lemma {:induction false} ReplacedByEntries(walk: seq<(char, char)>, n: nat, c: char)
    requires n <= |walk|
    requires forall j | 0 <= j < |walk| :: walk[j] in Replacements
    ensures ReplacedBy(walk, n, c) == if Keyed(walk, n, c) then PersianChar(c) else c
    decreases n
  {
    if n > 0 {
      ReplacedByEntries(walk, n - 1, c);
      var e := walk[n - 1];
      assert e in Replacements;
      if Keyed(walk, n - 1, c) {
        var j :| 0 <= j < n - 1 && walk[j].0 == c;
        assert walk[j] in Replacements;
        assert Keyed(walk, n, c);
      } else if e.0 == c {
        assert Keyed(walk, n, c);
      } else {
        assert !Keyed(walk, n, c);
      }
    }
  }

  /** Walking the whole table, in any order, normalises a letter. */
  lemma ReplacedByAnyWalk(walk: seq<(char, char)>, c: char)
    requires multiset(walk) == multiset(Replacements)
    ensures ReplacedBy(walk, |walk|, c) == PersianChar(c)
  {
    forall j | 0 <= j < |walk| ensures walk[j] in Replacements {
      assert walk[j] in multiset(walk);
    }
    ReplacedByEntries(walk, |walk|, c);
    var k := if c == 'ي' then 0 else if c == 'ى' then 1 else 2;
    if c == Replacements[k].0 {
      assert Replacements[k] in multiset(walk);
      var j :| 0 <= j < |walk| && walk[j] == Replacements[k];
      assert Keyed(walk, |walk|, c);
    }
  }

  /** Normalising twice is normalising once. */
  lemma PersianIdempotent(text: string)
    ensures Persian(Persian(text)) == Persian(text)
  {
  }

  // ---------------------------------------------------------- UniqueSlice

  predicate NoDuplicates(s: seq<string>) {
    forall i, j | 0 <= i < j < |s| :: s[i] != s[j]
  }

  /** The position of the first occurrence of `x` in `s`. */
  function FirstIndex(s: seq<string>, x: string): (k: nat)
    requires x in s
    ensures k < |s| && s[k] == x && forall j | 0 <= j < k :: s[j] != x
  {
    if s[0] == x then 0 else 1 + FirstIndex(s[1..], x)
  }

  /** The first occurrence of every string, in the order of `s`. */
  function Unique(s: seq<string>): (r: seq<string>)
    decreases |s|
  {
    if s == [] then []
    else
      var d := Unique(s[..|s| - 1]);
      if s[|s| - 1] in d then d else d + [s[|s| - 1]]
  }

  /** `Unique` keeps exactly the strings of `s`, once each, ordered by their
      first occurrence in `s`. */
  lemma {:induction false} UniqueSpec(s: seq<string>)
    ensures forall x :: x in Unique(s) <==> x in s
    ensures NoDuplicates(Unique(s))
    ensures forall i, j | 0 <= i < j < |Unique(s)| :: FirstIndex(s, Unique(s)[i]) < FirstIndex(s, Unique(s)[j])
    decreases |s|
  {
    if s != [] {
      var p := s[..|s| - 1];
      var x := s[|s| - 1];
      UniqueSpec(p);
      assert s == p + [x];
      forall y | y in p ensures FirstIndex(s, y) == FirstIndex(p, y) {
        FirstIndexPrefix(p, x, y);
      }
      if x !in Unique(p) {
        var r := Unique(s);
        assert r == Unique(p) + [x];
        assert x !in p;
        forall i, j | 0 <= i < j < |r| ensures FirstIndex(s, r[i]) < FirstIndex(s, r[j]) {
          if j == |r| - 1 {
            assert r[i] in p;
            assert FirstIndex(s, r[j]) == |s| - 1 by {
              assert s[|s| - 1] == x;
            }
          } else {
            assert r[i] == Unique(p)[i] && r[j] == Unique(p)[j];
          }
        }
      }
    }
  }

  /** The first occurrence of a string of `p` does not move when something is appended. */
  lemma FirstIndexPrefix(p: seq<string>, x: string, y: string)
    requires y in p
    ensures FirstIndex(p + [x], y) == FirstIndex(p, y)
  {
    var k := FirstIndex(p, y);
    var s := p + [x];
    assert s[k] == y;
    var f := FirstIndex(s, y);
    assert f <= k;
    assert f < |p| ==> p[f] == y;
  }

  /** A list without duplicates is its own `Unique`. */
  lemma {:induction false} UniqueOfDistinct(s: seq<string>)
    requires NoDuplicates(s)
    ensures Unique(s) == s
    decreases |s|
  {
    if s != [] {
      var p := s[..|s| - 1];
      assert NoDuplicates(p);
      UniqueOfDistinct(p);
      assert s[|s| - 1] !in p;
      assert s == p + [s[|s| - 1]];
    }
  }

  /** Appending a string that is already there changes nothing; so adding
      the same string twice is adding it once. */
  lemma UniqueAppendTwice(s: seq<string>, x: string)
    ensures Unique(Unique(s + [x]) + [x]) == Unique(s + [x])
  {
    var d := Unique(s + [x]);
    assert s + [x] == (s + [x])[..|s|] + [x];
    assert (s + [x])[..|s|] == s;
    UniqueSpec(s + [x]);
    assert x in d;
    var e := d + [x];
    assert e[..|e| - 1] == d;
    UniqueSpec(d);
    UniqueOfDistinct(d);
  }

  /** `UniqueSlice`: the loop with its seen-set. */
  method UniqueSlice(s: seq<string>) returns (r: seq<string>)
    ensures r == Unique(s)
  {
    var seen: set<string> := {};
    r := [];
    var k := 0;
    while k < |s|
      invariant 0 <= k <= |s|
      invariant r == Unique(s[..k])
      invariant forall x :: x in seen <==> x in r
    {
      assert s[..k + 1][..k] == s[..k];
      if s[k] !in seen {
        seen := seen + {s[k]};
        r := r + [s[k]];
      }
      k := k + 1;
    }
    assert s[..k] == s;
  }

  // ---------------------------------------------------------------- Match

  /** Whether one entry of `Match` counts against `text`. Entries longer
      than three characters whose first three characters contain "@" are
      expressions: "ni@X" counts when the text does not contain X, "rm@X"
      when the regular expression X matches (`regexMatch`, outside this
      model); "rn@" and every other prefix never count. */
  function Counts(entry: string, text: string, regexMatch: (string, string) -> bool): bool {
    if |entry| > 3 && Contains(entry[..3], "@") then
      var expr := entry[..3];
      var rest := entry[3..];
      if expr == "ni@" then !Contains(text, rest)
      else if expr == "rm@" then regexMatch(rest, text)
      else false
    else Contains(text, entry)
  }

  /** How many of `entries` count. */
  function CountMatched(entries: seq<string>, text: string, regexMatch: (string, string) -> bool): (n: nat)
    ensures n <= |entries|
    ensures n == |entries| <==> forall k | 0 <= k < |entries| :: Counts(entries[k], text, regexMatch)
    decreases |entries|
  {
    if entries == [] then 0
    else
      var last := entries[|entries| - 1];
      var front := entries[..|entries| - 1];
      assert forall k | 0 <= k < |front| :: front[k] == entries[k];
      CountMatched(front, text, regexMatch) + (if Counts(last, text, regexMatch) then 1 else 0)
  }

  /** The normalisation of the `normalize` flag: Persian letters, then lower case. */
  function Normalize(s: string): string {
    ToLower(Persian(s))
  }

  /** A string as `Match` compares it. */
  function Prep(s: string, normalize: bool): string {
    if normalize then Normalize(s) else s
  }

  function PrepAll(ms: seq<string>, normalize: bool): (r: seq<string>)
    ensures |r| == |ms| && forall k | 0 <= k < |ms| :: r[k] == Prep(ms[k], normalize)
  {
    seq(|ms|, k requires 0 <= k < |ms| => Prep(ms[k], normalize))
  }

  /** The variadic `normalizeValues`: only a first `true` switches normalisation on. */
  function NormalizeFlag(values: seq<bool>): bool {
    |values| > 0 && values[0]
  }

  /** `Match`: every entry of `matches` counts against the text, after both
      are normalised when the first variadic flag is set. */
  method Match(matches: seq<string>, text: string, normalizeValues: seq<bool>, regexMatch: (string, string) -> bool)
    returns (b: bool)
    ensures b <==> forall k | 0 <= k < |matches| ::
      Counts(Prep(matches[k], NormalizeFlag(normalizeValues)), Prep(text, NormalizeFlag(normalizeValues)), regexMatch)
  {
    if |matches| == 0 {
      return true;
    }
    var normalize := |normalizeValues| > 0 && normalizeValues[0];
    var t := Prepare(text, normalize);
    ghost var prepared := PrepAll(matches, normalize);
    var matched := 0;
    var k := 0;
    while k < |matches|
      invariant 0 <= k <= |matches|
      invariant matched == CountMatched(prepared[..k], t, regexMatch)
    {
      var m := Prepare(matches[k], normalize);
      assert prepared[..k + 1] == prepared[..k] + [m];
      var counts := EntryCounts(m, t, regexMatch);
      if counts {
        matched := matched + 1;
      }
      k := k + 1;
    }
    assert prepared[..k] == prepared;
    b := matched == |matches|;
  }

  /** The normalisation `Match` applies when its flag is set. */
  method Prepare(s: string, normalize: bool) returns (r: string)
    ensures r == Prep(s, normalize)
  {
    r := s;
    if normalize {
      // every walk of the table gives the same text; take the table's own order
      r := ArabicToPersian(s, Replacements);
      r := ToLower(r);
    }
  }

  /** The body of `Match`'s loop for one entry: whether it adds to the count. */
  method EntryCounts(m: string, t: string, regexMatch: (string, string) -> bool) returns (counts: bool)
    ensures counts == Counts(m, t, regexMatch)
  {
    counts := false;
    if |m| > 3 {
      var expr := m[..3];
      if !Contains(expr, "@") {
        counts := Contains(t, m);
      } else {
        var rest := m[3..];
        if expr == "ni@" {
          counts := !Contains(t, rest);
        } else if expr == "rn@" {
        } else if expr == "rm@" {
          counts := regexMatch(rest, t);
        }
      }
    } else {
      counts := Contains(t, m);
    }
  }

  /** An "rn@" expression never counts, whatever the text. */
  lemma RegexNotMatchNeverCounts(rest: string, text: string, regexMatch: (string, string) -> bool)
    requires rest != ""
    ensures !Counts("rn@" + rest, text, regexMatch)
  {
    var e := "rn@" + rest;
    assert e[..3] == "rn@";
    assert OccursAt(e[..3], "@", 2);
  }

  /** A short entry, or one without "@" in its first three characters, is a
      plain substring test. */
  lemma PlainEntry(entry: string, text: string, regexMatch: (string, string) -> bool)
    requires |entry| <= 3 || !Contains(entry[..3], "@")
    ensures Counts(entry, text, regexMatch) <==> Contains(text, entry)
  {
  }

  /** A "ni@" expression counts exactly when the text lacks the rest. */
  lemma NotIncludeCounts(rest: string, text: string, regexMatch: (string, string) -> bool)
    requires rest != ""
    ensures Counts("ni@" + rest, text, regexMatch) <==> !Contains(text, rest)
  {
    var e := "ni@" + rest;
    assert e[..3] == "ni@";
    assert e[3..] == rest;
    assert OccursAt(e[..3], "@", 2);
  }
}

/** The part of Go's `strings` package that the modelled code calls, on
    strings as sequences of Unicode code points. */
module GoStrings {

  predicate HasPrefix(s: string, prefix: string) {
    |prefix| <= |s| && s[..|prefix|] == prefix
  }

  predicate HasSuffix(s: string, suffix: string) {
    |suffix| <= |s| && s[|s| - |suffix|..] == suffix
  }

  /** `strings.TrimPrefix`: drops `prefix` once when `s` starts with it. */
  function TrimPrefix(s: string, prefix: string): (r: string)
    ensures HasPrefix(s, prefix) ==> prefix + r == s
    ensures !HasPrefix(s, prefix) ==> r == s
  {
    if HasPrefix(s, prefix) then s[|prefix|..] else s
  }

  /** `strings.TrimSuffix`: drops `suffix` once when `s` ends with it. */
  function TrimSuffix(s: string, suffix: string): (r: string)
    ensures HasSuffix(s, suffix) ==> r + suffix == s
    ensures !HasSuffix(s, suffix) ==> r == s
  {
    if HasSuffix(s, suffix) then s[..|s| - |suffix|] else s
  }

  /** `strings.TrimLeft(s, cutset)` for a one-character cutset: drops every leading `c`. */
  function TrimLeft(s: string, c: char): (r: string)
    ensures |r| <= |s| && r == s[|s| - |r|..]
    ensures r == [] || r[0] != c
    ensures forall i | 0 <= i < |s| - |r| :: s[i] == c
    decreases |s|
  {
    if |s| > 0 && s[0] == c then TrimLeft(s[1..], c) else s
  }

  /** `sub` occurs in `s` at position `i`. */
  predicate OccursAt(s: string, sub: string, i: int) {
    0 <= i && i + |sub| <= |s| && s[i..i + |sub|] == sub
  }

  /** `strings.Contains`. */
  predicate Contains(s: string, sub: string) {
    exists i | 0 <= i <= |s| :: OccursAt(s, sub, i)
  }

  /** The first position at or after `k` where `sub` occurs, or -1. */
  function IndexFrom(s: string, sub: string, k: nat): (i: int)
    requires k <= |s|
    ensures i == -1 || (k <= i && OccursAt(s, sub, i))
    ensures i == -1 ==> forall j | k <= j :: !OccursAt(s, sub, j)
    ensures i != -1 ==> forall j | k <= j < i :: !OccursAt(s, sub, j)
    decreases |s| - k
  {
    if k + |sub| > |s| then -1
    else if s[k..k + |sub|] == sub then k
    else IndexFrom(s, sub, k + 1)
  }

  /** `strings.Index`: the first position of `sub` in `s`, or -1. */
  function Index(s: string, sub: string): (i: int)
    ensures i == -1 <==> !Contains(s, sub)
    ensures i != -1 ==> OccursAt(s, sub, i) && forall j | 0 <= j < i :: !OccursAt(s, sub, j)
  {
    IndexFrom(s, sub, 0)
  }

  /** `strings.ReplaceAll` for a non-empty pattern: every non-overlapping
      occurrence of `pat`, scanning left to right, becomes `rep`. */
  function ReplaceAll(s: string, pat: string, rep: string): string
    requires |pat| > 0
    decreases |s|
  {
    if |s| < |pat| then s
    else if s[..|pat|] == pat then rep + ReplaceAll(s[|pat|..], pat, rep)
    else [s[0]] + ReplaceAll(s[1..], pat, rep)
  }

  /** An occurrence of `sub` in `s[1..]` is one in `s`, one position later. */
  lemma OccursInTail(s: string, sub: string)
    requires |s| > 0
    ensures Contains(s[1..], sub) ==> Contains(s, sub)
  {
    if Contains(s[1..], sub) {
      var i :| 0 <= i <= |s| - 1 && OccursAt(s[1..], sub, i);
      assert s[1..][i..i + |sub|] == s[i + 1..i + 1 + |sub|];
      assert OccursAt(s, sub, i + 1);
    }
  }

  /** Replacing a pattern that does not occur changes nothing. */
  lemma {:induction false} ReplaceAllAbsent(s: string, pat: string, rep: string)
    requires |pat| > 0
    requires !Contains(s, pat)
    ensures ReplaceAll(s, pat, rep) == s
    decreases |s|
  {
    if |s| >= |pat| {
      assert !OccursAt(s, pat, 0);
      OccursInTail(s, pat);
      ReplaceAllAbsent(s[1..], pat, rep);
      assert [s[0]] + s[1..] == s;
    }
  }

  /** Replacing every `c` by a text without `c` leaves no `c` behind. */
  lemma {:induction false} ReplaceAllCharGone(s: string, c: char, rep: string)
    requires forall i | 0 <= i < |rep| :: rep[i] != c
    ensures forall i | 0 <= i < |ReplaceAll(s, [c], rep)| :: ReplaceAll(s, [c], rep)[i] != c
    decreases |s|
  {
    if |s| >= 1 {
      ReplaceAllCharGone(s[1..], c, rep);
      var tail := ReplaceAll(s[1..], [c], rep);
      if s[..1] == [c] {
        assert ReplaceAll(s, [c], rep) == rep + tail;
      } else {
        assert ReplaceAll(s, [c], rep) == [s[0]] + tail;
      }
    }
  }

  /** `strings.Replace(s, old, new, 1)`: only the first occurrence is
      replaced; an empty `old` matches at the start of `s`. */
  function ReplaceFirst(s: string, pat: string, rep: string): (r: string)
    ensures !Contains(s, pat) ==> r == s
    ensures Contains(s, pat) ==>
      var i := Index(s, pat); r == s[..i] + rep + s[i + |pat|..]
  {
    var i := Index(s, pat);
    if i < 0 then s else s[..i] + rep + s[i + |pat|..]
  }

  /** `strings.Split` for a non-empty separator. */
  function Split(s: string, sep: string): (parts: seq<string>)
    requires |sep| > 0
    ensures |parts| >= 1
    ensures forall k | 0 <= k < |parts| :: !Contains(parts[k], sep)
    decreases |s|
  {
    var i := Index(s, sep);
    if i < 0 then [s]
    else
      assert !Contains(s[..i], sep) by {
        forall j | OccursAt(s[..i], sep, j) ensures false {
          assert s[..i][j..j + |sep|] == s[j..j + |sep|];
          assert OccursAt(s, sep, j);
        }
      }
      [s[..i]] + Split(s[i + |sep|..], sep)
  }

  /** `strings.Join`. */
  function Join(parts: seq<string>, sep: string): string
    decreases |parts|
  {
    if |parts| == 0 then ""
    else if |parts| == 1 then parts[0]
    else parts[0] + sep + Join(parts[1..], sep)
  }

  /** Splitting and joining with the same separator gives back the input. */
  lemma {:induction false} JoinSplit(s: string, sep: string)
    requires |sep| > 0
    ensures Join(Split(s, sep), sep) == s
    decreases |s|
  {
    var i := Index(s, sep);
    if i >= 0 {
      var rest := s[i + |sep|..];
      var tail := Split(rest, sep);
      JoinSplit(rest, sep);
      assert Split(s, sep) == [s[..i]] + tail;
      assert Join([s[..i]] + tail, sep) == s[..i] + sep + Join(tail, sep) by {
        assert ([s[..i]] + tail)[1..] == tail;
      }
      assert s[i..i + |sep|] == sep;
      assert s == s[..i] + sep + rest;
    }
  }

  /** ASCII upper-casing of one character (`unicode.ToUpper` on ASCII letters). */
  function UpperChar(c: char): char {
    if 'a' <= c <= 'z' then (c as int - 32) as char else c
  }

  /** ASCII lower-casing of one character. */
  function LowerChar(c: char): char {
    if 'A' <= c <= 'Z' then (c as int + 32) as char else c
  }

  /** `strings.ToUpper`, on ASCII letters. */
  function ToUpper(s: string): (r: string)
    ensures |r| == |s| && forall i | 0 <= i < |s| :: r[i] == UpperChar(s[i])
  {
    seq(|s|, i requires 0 <= i < |s| => UpperChar(s[i]))
  }

  /** `strings.ToLower`, on ASCII letters. */
  function ToLower(s: string): (r: string)
    ensures |r| == |s| && forall i | 0 <= i < |s| :: r[i] == LowerChar(s[i])
  {
    seq(|s|, i requires 0 <= i < |s| => LowerChar(s[i]))
  }

  /** `fmt.Sprintf("%v", n)` for an integer: optional minus sign, then decimal digits. */
  function DecimalString(n: int): (r: string)
    ensures |r| >= 1
    ensures n >= 0 ==> forall i | 0 <= i < |r| :: '0' <= r[i] <= '9'
    ensures n < 0 ==> r[0] == '-'
  {
    if n < 0 then "-" + NatDigits(-n) else NatDigits(n)
  }

  function NatDigits(n: nat): (r: string)
    ensures |r| >= 1 && forall i | 0 <= i < |r| :: '0' <= r[i] <= '9'
    decreases n
  {
    var d := [(48 + n % 10) as char];
    if n < 10 then d else NatDigits(n / 10) + d
  }
}

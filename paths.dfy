/** The part of Go's `path/filepath` package that the modelled code calls,
    for the '/' separator. */
module Paths {
  import opened GoStrings

  const Separator: char := '/'

  /** `filepath.Ext`: the suffix of the last path element that starts at its
      final '.', or "" when that element has no '.'. */
  function Ext(p: string): (e: string)
    ensures e == [] || (e[0] == '.' && HasSuffix(p, e))
    ensures forall i | 0 <= i < |e| :: e[i] != Separator
    ensures forall i | 1 <= i < |e| :: e[i] != '.'
  {
    ExtBefore(p, |p|)
  }

  /** Scans `p[..n]` backwards for the final '.' after the last separator. */
  function ExtBefore(p: string, n: nat): (e: string)
    requires n <= |p| && NoDotOrSeparatorAfter(p, n)
    ensures e == [] || (e[0] == '.' && HasSuffix(p, e) && |p| - |e| < n)
    ensures forall i | 0 <= i < |e| :: e[i] != Separator
    ensures forall i | 1 <= i < |e| :: e[i] != '.'
    decreases n
  {
    if n == 0 || p[n - 1] == Separator then ""
    else if p[n - 1] == '.' then p[n - 1..]
    else ExtBefore(p, n - 1)
  }

  /** The characters of `p` from position `n` to the end are neither '.' nor the separator. */
  predicate NoDotOrSeparatorAfter(p: string, n: nat)
    requires n <= |p|
  {
    forall i | n <= i < |p| :: p[i] != '.' && p[i] != Separator
  }

  /** `filepath.Join`: the elements from the first non-empty one on, joined
      by the separator and cleaned; "" when every element is empty. */
  function JoinPath(elems: seq<string>): (r: string)
    ensures r == [] <==> forall k | 0 <= k < |elems| :: elems[k] == []
    ensures elems != [] && elems[0] != [] ==> r == Clean(Join(elems, [Separator]))
  {
    if elems == [] then ""
    else if elems[0] == [] then JoinPath(elems[1..])
    else Clean(Join(elems, [Separator]))
  }

  /** A path without a '.' has no extension. */
  lemma {:induction false} ExtWithoutDot(p: string, n: nat)
    requires n <= |p| && NoDotOrSeparatorAfter(p, n)
    requires forall i | 0 <= i < |p| :: p[i] != '.'
    ensures ExtBefore(p, n) == ""
    decreases n
  {
    if n > 0 && p[n - 1] != Separator {
      ExtWithoutDot(p, n - 1);
    }
  }

  /** The extension starts at the last '.' when no separator follows it. */
  lemma {:induction false} ExtAtLastDot(p: string, k: nat, n: nat)
    requires k < n <= |p| && p[k] == '.' && NoDotOrSeparatorAfter(p, k + 1)
    ensures ExtBefore(p, n) == p[k..]
    decreases n
  {
    if n - 1 > k {
      ExtAtLastDot(p, k, n - 1);
    }
  }

  /** `filepath.Clean`: empty and "." elements dropped, ".." backing over
      the element before it, a "/" kept in front of a rooted path, and "."
      for a path that comes to nothing. */
  function Clean(p: string): (r: string)
    ensures r != []
    ensures p != [] && p[0] == Separator ==> r[0] == Separator
  {
    if p == [] then "."
    else
      var rooted := p[0] == Separator;
      Render(rooted, CleanElems(Split(p, [Separator]), rooted, []))
  }

  /** The cleaned path made of `elems`, rooted or not. */
  function Render(rooted: bool, elems: seq<string>): (r: string)
    ensures r != []
    ensures rooted ==> r[0] == Separator
  {
    var body := Join(elems, [Separator]);
    if rooted then [Separator] + body
    else if body == [] then "."
    else body
  }

  /** The path elements left after the ones in `parts` have been pushed on
      `stack`, as `filepath.Clean` processes them. */
  function CleanElems(parts: seq<string>, rooted: bool, stack: seq<string>): (r: seq<string>)
    requires forall k | 0 <= k < |stack| :: stack[k] != [] && stack[k] != "."
    ensures forall k | 0 <= k < |r| :: r[k] != [] && r[k] != "."
    decreases |parts|
  {
    if parts == [] then stack
    else
      var e := parts[0];
      if e == [] || e == "." then CleanElems(parts[1..], rooted, stack)
      else if e == ".." then
        if |stack| > 0 && stack[|stack| - 1] != ".." then CleanElems(parts[1..], rooted, stack[..|stack| - 1])
        else if rooted then CleanElems(parts[1..], rooted, stack)
        else CleanElems(parts[1..], rooted, stack + [".."])
      else CleanElems(parts[1..], rooted, stack + [e])
  }

  /** The current directory written with a trailing separator cleans to ".". */
  lemma CleanCurrentDir()
    ensures JoinPath(["./"]) == "."
  {
    var s := "./";
    assert s[0..1][0] == '.' && s[1..2] == "/";
    assert IndexFrom(s, "/", 1) == 1;
    assert IndexFrom(s, "/", 0) == 1;
    assert s[..1] == "." && s[2..] == "";
    assert Split(s, "/") == ["."] + Split("", "/");
    assert Split("./", "/") == [".", ""];
    assert CleanElems([".", ""], false, []) == [];
  }

  /** `s` holds no separator. */
  predicate NoSeparator(s: string) {
    forall i | 0 <= i < |s| :: s[i] != Separator
  }

  /** A path element `filepath.Clean` keeps as it is: not empty, not "." or
      "..", and without a separator. */
  predicate Plain(e: string) {
    e != [] && e != "." && e != ".." && NoSeparator(e)
  }

  /** The elements a cleaned path is made of: none empty, none ".", none
      holding a separator, and ".." only at the front of a relative path. */
  predicate Normal(elems: seq<string>, rooted: bool) {
    && (forall k | 0 <= k < |elems| :: elems[k] != [] && elems[k] != "." && NoSeparator(elems[k]))
    && (forall k | 0 <= k < |elems| && elems[k] == ".." :: !rooted && forall j | 0 <= j < k :: elems[j] == "..")
  }

  /** The cleaned path `c` followed by the plain element `e`, as
      `filepath.Join` writes it: "." gives way to the element, and the root
      takes no second separator. */
  function Extend(c: string, e: string): (r: string)
    ensures HasSuffix(r, e)
  {
    if c == "." then e
    else if c == [Separator] then c + e
    else c + [Separator] + e
  }

  /** The separator first occurs at `i`. */
  lemma IndexOfSeparator(s: string, i: int)
    requires -1 <= i < |s|
    requires i >= 0 ==> s[i] == Separator
    requires forall j | 0 <= j < |s| && (i < 0 || j < i) :: s[j] != Separator
    ensures Index(s, [Separator]) == i
  {
    var k := Index(s, [Separator]);
    if k >= 0 {
      assert s[k..k + 1][0] == s[k];
    }
    if i >= 0 {
      assert s[i..i + 1] == [Separator];
      assert OccursAt(s, [Separator], i);
    }
  }

  /** A string without a separator splits into itself. */
  lemma SplitNoSeparator(s: string)
    requires NoSeparator(s)
    ensures Split(s, [Separator]) == [s]
  {
    IndexOfSeparator(s, -1);
  }

  /** Splitting around one separator splits each side. */
  lemma {:induction false} SplitAround(a: string, b: string)
    ensures Split(a + [Separator] + b, [Separator]) == Split(a, [Separator]) + Split(b, [Separator])
    decreases |a|
  {
    var s := a + [Separator] + b;
    var i := Index(a, [Separator]);
    if i < 0 {
      forall j | 0 <= j < |a| ensures a[j] != Separator {
        if a[j] == Separator {
          assert a[j..j + 1] == [Separator];
          assert OccursAt(a, [Separator], j);
        }
      }
      IndexOfSeparator(s, |a|);
      assert s[..|a|] == a && s[|a| + 1..] == b;
      calc {
        Split(s, [Separator]);
        [a] + Split(b, [Separator]);
        Split(a, [Separator]) + Split(b, [Separator]);
      }
    } else {
      assert a[i..i + 1][0] == a[i];
      forall j | 0 <= j < i ensures s[j] != Separator {
        if a[j] == Separator {
          assert a[j..j + 1] == [Separator];
          assert OccursAt(a, [Separator], j);
        }
      }
      IndexOfSeparator(s, i);
      var rest := a[i + 1..];
      assert s[..i] == a[..i];
      assert (a + [Separator])[i + 1..] == rest + [Separator];
      assert s[i + 1..] == rest + [Separator] + b;
      calc {
        Split(s, [Separator]);
        [a[..i]] + Split(rest + [Separator] + b, [Separator]);
        { SplitAround(rest, b); }
        [a[..i]] + (Split(rest, [Separator]) + Split(b, [Separator]));
        ([a[..i]] + Split(rest, [Separator])) + Split(b, [Separator]);
        Split(a, [Separator]) + Split(b, [Separator]);
      }
    }
  }

  /** A join starts with its first element. */
  lemma JoinHead(elems: seq<string>, sep: string)
    requires elems != []
    ensures HasPrefix(Join(elems, sep), elems[0])
  {
  }

  /** Joining one more element adds the separator and that element. */
  lemma {:induction false} JoinSnoc(elems: seq<string>, e: string, sep: string)
    requires elems != []
    ensures Join(elems + [e], sep) == Join(elems, sep) + sep + e
    decreases |elems|
  {
    if |elems| == 1 {
      assert (elems + [e])[1..] == [e];
    } else {
      assert (elems + [e])[1..] == elems[1..] + [e];
      JoinSnoc(elems[1..], e, sep);
    }
  }

  /** Elements without a separator come back from a split of their join. */
  lemma {:induction false} SplitJoin(elems: seq<string>)
    requires elems != [] && forall k | 0 <= k < |elems| :: NoSeparator(elems[k])
    ensures Split(Join(elems, [Separator]), [Separator]) == elems
    decreases |elems|
  {
    if |elems| == 1 {
      SplitNoSeparator(elems[0]);
    } else {
      var tail := Join(elems[1..], [Separator]);
      calc {
        Split(Join(elems, [Separator]), [Separator]);
        Split(elems[0] + [Separator] + tail, [Separator]);
        { SplitAround(elems[0], tail); }
        Split(elems[0], [Separator]) + Split(tail, [Separator]);
        { SplitNoSeparator(elems[0]); SplitJoin(elems[1..]); }
        [elems[0]] + elems[1..];
        elems;
      }
    }
  }

  /** The elements of a split hold no separator. */
  lemma SplitHasNoSeparator(s: string)
    ensures forall k | 0 <= k < |Split(s, [Separator])| :: NoSeparator(Split(s, [Separator])[k])
  {
    var parts := Split(s, [Separator]);
    forall k, i | 0 <= k < |parts| && 0 <= i < |parts[k]| ensures parts[k][i] != Separator {
      if parts[k][i] == Separator {
        assert parts[k][i..i + 1] == [Separator];
        assert OccursAt(parts[k], [Separator], i);
      }
    }
  }

  /** Cleaning separator-free elements onto a normal stack keeps it normal. */
  lemma {:induction false} CleanElemsNormal(parts: seq<string>, rooted: bool, stack: seq<string>)
    requires Normal(stack, rooted) && forall k | 0 <= k < |parts| :: NoSeparator(parts[k])
    ensures Normal(CleanElems(parts, rooted, stack), rooted)
    decreases |parts|
  {
    if parts != [] {
      var e := parts[0];
      if e == [] || e == "." {
        CleanElemsNormal(parts[1..], rooted, stack);
      } else if e == ".." {
        if |stack| > 0 && stack[|stack| - 1] != ".." {
          CleanElemsNormal(parts[1..], rooted, stack[..|stack| - 1]);
        } else if rooted {
          CleanElemsNormal(parts[1..], rooted, stack);
        } else {
          var s1 := stack + [".."];
          forall k, j | 0 <= j < k < |s1| && s1[k] == ".." ensures s1[j] == ".." {
            if k < |stack| {
              assert stack[k] == "..";
            } else {
              assert stack[|stack| - 1] == "..";
            }
          }
          CleanElemsNormal(parts[1..], rooted, s1);
        }
      } else {
        CleanElemsNormal(parts[1..], rooted, stack + [e]);
      }
    }
  }

  /** Cleaning a normal sequence onto a stack only appends it. */
  lemma {:induction false} CleanElemsOfNormal(elems: seq<string>, rooted: bool, stack: seq<string>)
    requires Normal(stack + elems, rooted)
    ensures forall k | 0 <= k < |stack| :: stack[k] != [] && stack[k] != "."
    ensures CleanElems(elems, rooted, stack) == stack + elems
    decreases |elems|
  {
    var all := stack + elems;
    assert forall k | 0 <= k < |stack| :: stack[k] == all[k];
    if elems != [] {
      var e := elems[0];
      assert all[|stack|] == e;
      assert stack + [e] + elems[1..] == all;
      if e == ".." && |stack| > 0 {
        assert all[|stack| - 1] == "..";
      }
      CleanElemsOfNormal(elems[1..], rooted, stack + [e]);
    }
  }

  /** Cleaning two runs of elements is cleaning the second onto the result of the first. */
  lemma {:induction false} CleanElemsAppend(parts: seq<string>, more: seq<string>, rooted: bool, stack: seq<string>)
    requires forall k | 0 <= k < |stack| :: stack[k] != [] && stack[k] != "."
    ensures CleanElems(parts + more, rooted, stack) == CleanElems(more, rooted, CleanElems(parts, rooted, stack))
    decreases |parts|
  {
    if parts != [] {
      assert (parts + more)[0] == parts[0] && (parts + more)[1..] == parts[1..] + more;
      var e := parts[0];
      if e == [] || e == "." {
        CleanElemsAppend(parts[1..], more, rooted, stack);
      } else if e == ".." {
        if |stack| > 0 && stack[|stack| - 1] != ".." {
          CleanElemsAppend(parts[1..], more, rooted, stack[..|stack| - 1]);
        } else if rooted {
          CleanElemsAppend(parts[1..], more, rooted, stack);
        } else {
          CleanElemsAppend(parts[1..], more, rooted, stack + [".."]);
        }
      } else {
        CleanElemsAppend(parts[1..], more, rooted, stack + [e]);
      }
    } else {
      assert parts + more == more;
    }
  }

  /** What the cleaned elements of a non-empty path are. */
  lemma CleanedNormal(p: string)
    requires p != []
    ensures Normal(CleanElems(Split(p, [Separator]), p[0] == Separator, []), p[0] == Separator)
  {
    SplitHasNoSeparator(p);
    CleanElemsNormal(Split(p, [Separator]), p[0] == Separator, []);
  }

  /** The join of normal elements is neither empty, ".", nor rooted. */
  lemma JoinOfNormal(elems: seq<string>, rooted: bool)
    requires elems != [] && Normal(elems, rooted)
    ensures var j := Join(elems, [Separator]); j != [] && j != "." && j[0] != Separator
  {
    JoinHead(elems, [Separator]);
    var j := Join(elems, [Separator]);
    assert j[0] == elems[0][0];
  }

  /** A plain element cleans to itself. */
  lemma CleanPlain(e: string)
    requires Plain(e)
    ensures Clean(e) == e
  {
    SplitNoSeparator(e);
    assert CleanElems([e], false, []) == [e] by {
      assert [e][1..] == [];
    }
  }

  /** "." cleans to itself. */
  lemma CleanDot()
    ensures Clean(".") == "."
  {
    SplitNoSeparator(".");
    assert CleanElems(["."], false, []) == [] by {
      assert ["."][1..] == [];
    }
  }

  /** `filepath.Clean` is idempotent. */
  lemma CleanIdempotent(p: string)
    ensures Clean(Clean(p)) == Clean(p)
  {
    CleanDot();
    if p != [] {
      var rooted := p[0] == Separator;
      var elems := CleanElems(Split(p, [Separator]), rooted, []);
      CleanedNormal(p);
      var c := Clean(p);
      if rooted {
        var body := Join(elems, [Separator]);
        assert c == [] + [Separator] + body;
        SplitAround([], body);
        SplitNoSeparator([]);
        if elems == [] {
          assert Split(c, [Separator]) == ["", ""];
          assert CleanElems(["", ""], true, []) == [];
        } else {
          SplitJoin(elems);
          assert Split(c, [Separator]) == [""] + elems;
          assert ([""] + elems)[1..] == elems;
          assert [] + elems == elems;
          CleanElemsOfNormal(elems, true, []);
        }
      } else if elems != [] {
        JoinOfNormal(elems, false);
        assert c == Join(elems, [Separator]);
        SplitJoin(elems);
        assert [] + elems == elems;
        CleanElemsOfNormal(elems, false, []);
      }
    }
  }

  /** Rendering normal elements with one more plain element extends the rendered path. */
  lemma RenderExtend(rooted: bool, elems: seq<string>, e: string)
    requires Normal(elems, rooted) && Plain(e)
    ensures Render(rooted, elems + [e]) == Extend(Render(rooted, elems), e)
  {
    if elems == [] {
      assert elems + [e] == [e];
    } else {
      JoinSnoc(elems, e, [Separator]);
      JoinOfNormal(elems, rooted);
    }
  }

  /** Cleaning a non-empty path followed by a plain element is extending the
      cleaned path by that element. */
  lemma CleanExtend(p: string, e: string)
    requires p != [] && Plain(e)
    ensures Clean(p + [Separator] + e) == Extend(Clean(p), e)
  {
    var rooted := p[0] == Separator;
    var s := p + [Separator] + e;
    assert s[0] == p[0];
    var parts := Split(p, [Separator]);
    assert Split(s, [Separator]) == parts + [e] by {
      SplitAround(p, e);
      SplitNoSeparator(e);
    }
    var elems := CleanElems(parts, rooted, []);
    CleanedNormal(p);
    assert CleanElems(parts + [e], rooted, []) == elems + [e] by {
      CleanElemsAppend(parts, [e], rooted, []);
      assert [e][1..] == [];
    }
    assert Clean(s) == Render(rooted, elems + [e]);
    RenderExtend(rooted, elems, e);
  }
}

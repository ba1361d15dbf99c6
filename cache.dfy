/** The file cache's naming rules: where `Write`, `Get` and `Remove` put or
    look for the file of a cache entry. Reading and writing the files is not
    part of this model; the time stamp is passed in. */
module FileCache {
  import opened Common
  import opened GoStrings
  import opened Paths

  /** The separator `Path` splits a cache name on. */
  const NameSeparator: string := "/"

  /** A cache name split on "/": every part but the last names a directory,
      the last part names the file. Joining the parts again gives the name. */
  function NameParts(name: string): (r: (seq<string>, string))
    ensures Join(r.0 + [r.1], NameSeparator) == name
    ensures !Contains(r.1, NameSeparator)
    ensures forall k | 0 <= k < |r.0| :: !Contains(r.0[k], NameSeparator)
  {
    var parts := Split(name, NameSeparator);
    JoinSplit(name, NameSeparator);
    assert parts == parts[..|parts| - 1] + [parts[|parts| - 1]];
    (parts[..|parts| - 1], parts[|parts| - 1])
  }

  /** The "-<milliseconds>" a time-stamped name carries, or nothing. */
  function TimeStamp(millis: Option<int>): (r: string)
    ensures millis.None? <==> r == ""
    ensures millis.Some? ==> r == "-" + DecimalString(millis.value)
  {
    if millis.Some? then "-" + DecimalString(millis.value) else ""
  }

  /** The prefix part of a file name: the prefix and a dash, when a prefix is set. */
  function PrefixPart(prefix: string): (r: string)
    ensures prefix == "" <==> r == ""
    ensures prefix != "" ==> r == prefix + "-"
  {
    if prefix != "" then prefix + "-" else ""
  }

  /** The extension of the file: the one the name carries, or the cache's own. */
  function FileExtension(file: string, extension: string): (r: string)
    ensures Ext(file) != "" ==> r == Ext(file)
    ensures Ext(file) == "" ==> r == extension
  {
    if Ext(file) != "" then Ext(file) else extension
  }

  /** The file name without the extension it carries. */
  function Stem(file: string): (r: string)
    ensures r + Ext(file) == file
  {
    if Ext(file) != "" then TrimSuffix(file, Ext(file)) else file
  }

  /** The last element of the cache path. */
  function FileName(prefix: string, file: string, millis: Option<int>, extension: string): (r: string)
    ensures HasPrefix(r, PrefixPart(prefix) + Stem(file) + TimeStamp(millis) + ".")
    ensures var e := r[|PrefixPart(prefix) + Stem(file) + TimeStamp(millis) + "."|..];
      e == ReplaceAll(FileExtension(file, extension), ".", "") &&
      forall i | 0 <= i < |e| :: e[i] != '.'
  {
    var e := ReplaceAll(FileExtension(file, extension), ".", "");
    ReplaceAllCharGone(FileExtension(file, extension), '.', "");
    var r := PrefixPart(prefix) + Stem(file) + TimeStamp(millis) + "." + e;
    assert r[..|PrefixPart(prefix) + Stem(file) + TimeStamp(millis) + "."|] == PrefixPart(prefix) + Stem(file) + TimeStamp(millis) + ".";
    r
  }

  class Cache {
    var root: string
    var extension: string
    var filePrefix: string

    /** `New`. */
    constructor ()
      ensures root == "./cache" && extension == "txt" && filePrefix == ""
    {
      root := "./cache";
      extension := "txt";
      filePrefix := "";
    }

    method SetRoot(r: string)
      modifies this`root
      ensures root == r
    {
      root := r;
    }

    function GetRoot(): (r: string)
      reads this`root
      ensures r == root
    {
      root
    }

    /** Every leading "." of the given extension is dropped. */
    method SetExtension(e: string)
      modifies this`extension
      ensures extension == TrimLeft(e, '.')
      ensures extension == [] || extension[0] != '.'
    {
      extension := TrimLeft(e, '.');
    }

    method SetFilePrefix(prefix: string)
      modifies this`filePrefix
      ensures filePrefix == prefix
    {
      filePrefix := prefix;
    }

    /** `Path`: the directory of the entry and the path of its file. */
    function Path(name: string, millis: Option<int>): (r: (string, string))
      reads this
      ensures r.0 == JoinPath([root] + NameParts(name).0)
      ensures r.1 == JoinPath([r.0, FileName(filePrefix, NameParts(name).1, millis, extension)])
    {
      var (dirs, file) := NameParts(name);
      var base := JoinPath([root] + dirs);
      (base, JoinPath([base, FileName(filePrefix, file, millis, extension)]))
    }

    /** The file `Get` reads: the path without a time stamp. */
    function GetPath(name: string): (p: string)
      reads this
      ensures p == Path(name, None).1
    {
      Path(name, None).1
    }

    /** The file `Remove` deletes: the same path `Get` reads. */
    function RemovePath(name: string): (p: string)
      reads this
      ensures p == GetPath(name)
    {
      Path(name, None).1
    }
  }

  /** Joining a path and a plain element extends the cleaned path by that
      element; an empty path cleans to ".", which gives way to the element. */
  lemma JoinPathTwo(a: string, b: string)
    requires Plain(b)
    ensures JoinPath([a, b]) == Extend(Clean(a), b)
  {
    if a == "" {
      assert [a, b][1..] == [b];
      CleanPlain(b);
    } else {
      assert GoStrings.Join([a, b], [Separator]) == a + [Separator] + b by {
        assert [a, b][1..] == [b];
      }
      CleanExtend(a, b);
    }
  }

  /** With a root set and a file name that is a plain path element, the file
      of an entry lies directly inside the entry's directory; its name starts
      with the prefix part, the stem and the time stamp, and ends in a
      dot-free extension. */
  lemma {:induction false} PathShape(c: Cache, name: string, millis: Option<int>)
    requires c.root != ""
    requires Plain(FileName(c.filePrefix, NameParts(name).1, millis, c.extension))
    ensures var (dirs, file) := NameParts(name);
      var f := FileName(c.filePrefix, file, millis, c.extension);
      c.Path(name, millis).1 == Extend(c.Path(name, millis).0, f) &&
      HasPrefix(f, PrefixPart(c.filePrefix) + Stem(file) + TimeStamp(millis) + ".")
  {
    var (dirs, file) := NameParts(name);
    var f := FileName(c.filePrefix, file, millis, c.extension);
    var elems := [c.root] + dirs;
    var base := JoinPath(elems);
    assert base == Clean(GoStrings.Join(elems, [Separator]));
    CleanIdempotent(GoStrings.Join(elems, [Separator]));
    JoinPathTwo(base, f);
  }

  /** "./cache" cleans to "cache". */
  lemma DefaultRootCleans()
    ensures JoinPath(["./cache"]) == "cache"
  {
    assert GoStrings.Join(["./cache"], [Separator]) == "./cache";
    assert "./cache" == "." + [Separator] + "cache";
    CleanDot();
    CleanExtend(".", "cache");
  }

  /** The file name of "a" with no prefix, no time stamp and extension "txt". */
  lemma DefaultFileName()
    ensures FileName("", "a", None, "txt") == "a.txt"
  {
    ExtWithoutDot("a", 1);
    assert !Contains("txt", ".") by {
      forall i | 0 <= i <= 3 ensures !OccursAt("txt", ".", i) {
        if i + 1 <= 3 {
          assert "txt"[i..i + 1][0] == "txt"[i];
        }
      }
    }
    ReplaceAllAbsent("txt", ".", "");
  }
}

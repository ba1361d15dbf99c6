/** The form registry: forms loaded from the files under a root directory,
    each registered under a name derived from its path. The directory walk
    and the reading and JSON decoding of a file are inputs: the walk gives
    the paths of the regular files it visits, and `decode` gives for a path
    either the decoded form or the error that reading or decoding gave. */
module Forms {
  import opened Common
  import opened GoStrings
  import opened Paths
  import opened Form

  /** The fields of a form as its file gives them. */
  datatype FormData<A> = FormData(data: Option<map<string, Option<A>>>, headers: Option<map<string, Option<A>>>, httpMethod: string)

  function ErrNoForms(root: string): Error {
    Msg("Could not load Forms or Forms not exists: " + root)
  }

  /** `SetFilesExt` as written: the arguments of `TrimPrefix` are swapped,
      so "." is trimmed of the extension rather than the other way round. */
  function FilesExtAsWritten(ext: string): (r: string)
    ensures ext == "." ==> r == ""
    ensures ext != "." ==> r == "."
  {
    TrimPrefix(".", ext)
  }

  /** The extension `SetFilesExt` evidently means to store: one leading "."
      dropped, the rest kept. */
  function FilesExt(ext: string): (r: string)
    ensures HasPrefix(ext, ".") ==> "." + r == ext
    ensures !HasPrefix(ext, ".") ==> r == ext
  {
    TrimPrefix(ext, ".")
  }

  /** Whatever extension is set, the stored one is "." or "", so that only
      files whose names end in ".." (or in ".") are loaded afterwards. */
  lemma SetFilesExtLosesExtension()
    ensures FilesExtAsWritten("json") == "." && FilesExtAsWritten(".json") == "."
    ensures FilesExt("json") == "json" && FilesExt(".json") == "json"
    ensures !HasSuffix("a.json", "." + FilesExtAsWritten("json"))
    ensures HasSuffix("a.json", "." + FilesExt("json"))
  {
    assert "json"[..1][0] == 'j';
    assert ".json"[..1] == "." && ".json"[1..] == "json";
    assert "." + FilesExtAsWritten("json") == "..";
    assert "a.json"[6 - 2..] == "on";
    assert "." + FilesExt("json") == ".json";
    assert "a.json"[6 - 5..] == ".json";
  }

  /** The last element of a path, `DirEntry.Name`. */
  function BaseName(p: string): (b: string)
    ensures !Contains(b, [Separator])
  {
    var parts := Split(p, [Separator]);
    parts[|parts| - 1]
  }

  /** The walked files `Load` takes: those whose name ends in "." and the extension. */
  function Selected(walked: seq<string>, ext: string): (files: seq<string>)
  {
    if walked == [] then []
    else
      var rest := Selected(walked[1..], ext);
      if HasSuffix(BaseName(walked[0]), "." + ext) then [walked[0]] + rest else rest
  }

  /** The selected files are exactly the walked files with a matching name, in the walk's order. */
  lemma {:induction false} SelectedSpec(walked: seq<string>, ext: string)
    ensures var files := Selected(walked, ext);
      |files| <= |walked| &&
      (forall k | 0 <= k < |files| :: files[k] in walked && HasSuffix(BaseName(files[k]), "." + ext)) &&
      (forall p | p in walked :: p in files <==> HasSuffix(BaseName(p), "." + ext))
  {
    if walked != [] {
      SelectedSpec(walked[1..], ext);
    }
  }

  /** The form name `Load` derives from a file's path, as written: the first
      occurrence of the root is removed, then the extension, then one leading
      separator, and the remaining separators become ".". */
  function FormName(file: string, root: string): (name: string)
    ensures forall i | 0 <= i < |name| :: name[i] != Separator
  {
    var unrooted := ReplaceFirst(file, root, "");
    var stem := TrimSuffix(unrooted, Ext(unrooted));
    var relative := TrimPrefix(stem, [Separator]);
    ReplaceAllCharGone(relative, Separator, ".");
    ReplaceAll(relative, [Separator], ".")
  }

  /** The name evidently intended: the root "." that `filepath.Join`
      makes of "./" is not a prefix of what the walk gives, so nothing is to
      be removed for it. */
  function FormNameIntended(file: string, root: string): (name: string)
    ensures root != "." ==> name == FormName(file, root)
  {
    var unrooted := if root == "." then file else ReplaceFirst(file, root, "");
    var stem := TrimSuffix(unrooted, Ext(unrooted));
    var relative := TrimPrefix(stem, [Separator]);
    ReplaceAll(relative, [Separator], ".")
  }

  /** The path the walk gives for a file at `rel` under a cleaned root. */
  function Walked(root: string, rel: string): string {
    if root == "." then rel else root + [Separator] + rel
  }

  /** The dotted name of a relative path: its extension dropped and its
      separators made ".". */
  function Dotted(rel: string): string {
    ReplaceAll(TrimSuffix(rel, Ext(rel)), [Separator], ".")
  }

  /** The intended name of every walked file is the dotted form of its path
      relative to the root, whatever the root. */
  lemma IntendedNameIsRelative(root: string, rel: string)
    requires root != [] && root[|root| - 1] != Separator
    requires rel != [] && rel[0] != Separator
    ensures FormNameIntended(Walked(root, rel), root) == Dotted(rel)
  {
    if root == "." {
      var t := TrimSuffix(rel, Ext(rel));
      assert t == [] || t[0] == rel[0];
      assert TrimPrefix(t, [Separator]) == t;
    } else {
      RootRemoved(root, rel);
      SeparatorDropped(rel);
    }
  }

  /** The first occurrence of the root in a path under it is its start. */
  lemma RootRemoved(root: string, rel: string)
    ensures ReplaceFirst(root + [Separator] + rel, root, "") == [Separator] + rel
  {
    var file := root + [Separator] + rel;
    assert OccursAt(file, root, 0);
    assert Index(file, root) == 0;
    assert file[|root|..] == [Separator] + rel;
  }

  /** Dropping the extension and then one leading separator from
      "/" + rel gives rel without its extension. */
  lemma SeparatorDropped(rel: string)
    ensures TrimPrefix(TrimSuffix([Separator] + rel, Ext([Separator] + rel)), [Separator]) == TrimSuffix(rel, Ext(rel))
  {
    var e := Ext(rel);
    var q := [Separator] + rel;
    ExtAfterSeparator(rel, |rel|);
    assert Ext(q) == e;
    assert HasSuffix(rel, e);
    assert q[|q| - |e|..] == rel[|rel| - |e|..];
    assert TrimSuffix(q, e) == [Separator] + TrimSuffix(rel, e);
  }

  /** The extension of a path does not change when a separator is put in
      front of it. */
  lemma {:induction false} ExtAfterSeparator(rel: string, n: nat)
    requires n <= |rel| && NoDotOrSeparatorAfter(rel, n)
    ensures NoDotOrSeparatorAfter([Separator] + rel, n + 1)
    ensures ExtBefore([Separator] + rel, n + 1) == ExtBefore(rel, n)
    decreases n
  {
    var q := [Separator] + rel;
    assert forall i | n + 1 <= i < |q| :: q[i] == rel[i - 1];
    if n > 0 {
      assert q[n] == rel[n - 1];
      if rel[n - 1] != Separator && rel[n - 1] != '.' {
        ExtAfterSeparator(rel, n - 1);
      } else if rel[n - 1] == '.' {
        assert q[n..] == rel[n - 1..];
      }
    }
  }

  /** Neither a '.' nor a separator occurs in `s`. */
  predicate Plain(s: string) {
    forall i | 0 <= i < |s| :: s[i] != '.' && s[i] != Separator
  }

  /** With the default root "./", which `filepath.Join` cleans to ".", the
      as-written name of a file loses the dot of its extension instead of
      the extension: "forms/login.json" is registered as "forms.loginjson".
      The intended name is "forms.login". */
  lemma DefaultRootLosesDot(dir: string, stem: string, ext: string)
    requires dir != [] && Plain(dir) && Plain(stem) && Plain(ext)
    ensures FormName(dir + "/" + stem + "." + ext, JoinPath(["./"])) == dir + "." + stem + ext
    ensures FormNameIntended(dir + "/" + stem + "." + ext, JoinPath(["./"])) == dir + "." + stem
  {
    CleanCurrentDir();
    AsWrittenDropsDot(dir, stem, ext);
    IntendedDropsExtension(dir, stem, ext);
  }

  lemma AsWrittenDropsDot(dir: string, stem: string, ext: string)
    requires dir != [] && Plain(dir) && Plain(stem) && Plain(ext)
    ensures FormName(dir + "/" + stem + "." + ext, ".") == dir + "." + stem + ext
  {
    var file := dir + "/" + stem + "." + ext;
    var u := dir + "/" + stem + ext;
    FirstDotRemoved(dir, stem, ext);
    assert TrimPrefix(TrimSuffix(u, Ext(u)), [Separator]) == u by {
      ExtWithoutDot(u, |u|);
      assert u[0] == dir[0];
    }
    assert ReplaceAll(u, [Separator], ".") == dir + "." + stem + ext by {
      DottedPath(dir, stem + ext);
      assert u == dir + [Separator] + (stem + ext);
    }
    FormNameSteps(file, ".", u, u);
  }

  /** The only '.' of the path is the one of its extension. */
  lemma FirstDotRemoved(dir: string, stem: string, ext: string)
    requires Plain(dir) && Plain(stem) && Plain(ext)
    ensures ReplaceFirst(dir + "/" + stem + "." + ext, ".", "") == dir + "/" + stem + ext
  {
    var file := dir + "/" + stem + "." + ext;
    var p := |dir| + 1 + |stem|;
    assert OccursAt(file, ".", p);
    forall j | 0 <= j < p
      ensures !OccursAt(file, ".", j)
    {
      assert file[j] != '.';
    }
    assert Index(file, ".") == p;
    assert file[..p] == dir + "/" + stem && file[p + 1..] == ext;
  }

  lemma IntendedDropsExtension(dir: string, stem: string, ext: string)
    requires dir != [] && Plain(dir) && Plain(stem) && Plain(ext)
    ensures FormNameIntended(dir + "/" + stem + "." + ext, ".") == dir + "." + stem
  {
    var file := dir + "/" + stem + "." + ext;
    var p := |dir| + 1 + |stem|;
    assert TrimSuffix(file, Ext(file)) == dir + "/" + stem by {
      assert file[p] == '.' && NoDotOrSeparatorAfter(file, p + 1);
      ExtAtLastDot(file, p, |file|);
      assert file[p..] == "." + ext;
    }
    assert TrimPrefix(dir + "/" + stem, [Separator]) == dir + "/" + stem by {
      assert (dir + "/" + stem)[0] == dir[0];
    }
    DottedPath(dir, stem);
    assert dir + "/" + stem == dir + [Separator] + stem;
  }

  /** A directory and a file name, joined by one separator, have it replaced by ".". */
  lemma DottedPath(dir: string, name: string)
    requires Plain(dir) && Plain(name)
    ensures ReplaceAll(dir + [Separator] + name, [Separator], ".") == dir + "." + name
  {
    var t := [Separator] + name;
    assert dir + [Separator] + name == dir + t;
    assert ReplaceAll(t, [Separator], ".") == "." + name by {
      ReplaceNoChar(name, Separator, ".");
      ReplaceCharHead(Separator, name, Separator, ".");
    }
    assert ReplaceAll(dir, [Separator], ".") == dir by {
      ReplaceNoChar(dir, Separator, ".");
    }
    ReplaceCharAppend(dir, t, Separator, ".");
  }

  /** Replacing a character distributes over concatenation. */
  lemma {:induction false} ReplaceCharAppend(a: string, b: string, c: char, rep: string)
    ensures ReplaceAll(a + b, [c], rep) == ReplaceAll(a, [c], rep) + ReplaceAll(b, [c], rep)
    decreases |a|
  {
    if a != [] {
      ReplaceCharAppend(a[1..], b, c, rep);
      assert a == [a[0]] + a[1..] && a + b == [a[0]] + (a[1..] + b);
      ReplaceCharHead(a[0], a[1..] + b, c, rep);
      ReplaceCharHead(a[0], a[1..], c, rep);
    } else {
      assert a + b == b;
    }
  }

  /** `FormName`, step by step. */
  lemma FormNameSteps(file: string, root: string, unrooted: string, relative: string)
    requires ReplaceFirst(file, root, "") == unrooted
    requires TrimPrefix(TrimSuffix(unrooted, Ext(unrooted)), [Separator]) == relative
    ensures FormName(file, root) == ReplaceAll(relative, [Separator], ".")
  {
  }

  /** Replacing a character that does not occur changes nothing. */
  lemma {:induction false} ReplaceNoChar(s: string, c: char, rep: string)
    requires forall i | 0 <= i < |s| :: s[i] != c
    ensures ReplaceAll(s, [c], rep) == s
    decreases |s|
  {
    if s != [] {
      ReplaceNoChar(s[1..], c, rep);
      assert s == [s[0]] + s[1..];
      ReplaceCharHead(s[0], s[1..], c, rep);
    }
  }

  /** Replacing a character, one character at a time. */
  lemma ReplaceCharHead(x: char, t: string, c: char, rep: string)
    ensures ReplaceAll([x] + t, [c], rep) == (if x == c then rep else [x]) + ReplaceAll(t, [c], rep)
  {
    assert ([x] + t)[..1] == [x] && ([x] + t)[1..] == t;
  }

  class Forms<A> {
    var forms: map<string, Form<A>>
    var rootPath: string
    var filesExt: string

    /** `New`. */
    constructor ()
      ensures forms == map[] && rootPath == "./" && filesExt == "json"
    {
      forms := map[];
      rootPath := "./";
      filesExt := "json";
    }

    method SetRootPath(p: string)
      modifies this`rootPath
      ensures rootPath == p
    {
      rootPath := p;
    }

    /** `SetFilesExt`, as written. */
    method SetFilesExt(ext: string)
      modifies this`filesExt
      ensures filesExt == FilesExtAsWritten(ext)
    {
      filesExt := TrimPrefix(".", ext);
    }

    /** `GetRootPath`: the root as `filepath.Join` gives it. */
    function GetRootPath(): (r: string)
      reads this`rootPath
      ensures r == JoinPath([rootPath])
    {
      JoinPath([rootPath])
    }

    /** `AddForm`: the method is upper-cased, the name recorded, and the
        form stored under it, replacing any form of that name. */
    method AddForm(name: string, form: Form<A>)
      modifies form, this`forms
      ensures form.httpMethod == ToUpper(old(form.httpMethod)) && form.name == name
      ensures form.data == old(form.data) && form.headers == old(form.headers) && form.error == old(form.error)
      ensures forms == old(forms)[name := form]
    {
      form.httpMethod := ToUpper(form.httpMethod);
      form.name := name;
      forms := forms[name := form];
    }

    /** `Get`. */
    function Get(key: string): (r: (Form?<A>, bool))
      reads this
      ensures r.1 <==> key in forms
      ensures r.1 ==> r.0 == forms[key]
      ensures !r.1 ==> r.0 == null
    {
      if key in forms then (forms[key], true) else (null, false)
    }

    /** `Load`: no selected file is an error; otherwise each file is
        decoded and added in turn, and the first failure ends the load with
        the files before it added. The final check that some form is
        registered cannot fail once a file was added. */
    method Load(walked: seq<string>, decode: string -> Result<FormData<A>>) returns (err: Option<Error>)
      modifies this`forms
      ensures var files := Selected(walked, filesExt);
        files == [] ==> err == Some(ErrNoForms(GetRootPath())) && forms == old(forms)
      ensures var files := Selected(walked, filesExt);
        var names := FormNames(files, GetRootPath());
        var k := Decodable(files, decode);
        forms.Keys == old(forms).Keys + Prefix(names, k) &&
        (forall n | n in Prefix(names, k) :: Registered(forms[n], decode(files[LastIndex(names, k, n)]).value, n)) &&
        (forall n | n in old(forms) && n !in Prefix(names, k) :: forms[n] == old(forms)[n]) &&
        (k < |files| ==> err == Some(decode(files[k]).error)) &&
        (k == |files| && files != [] ==> err.None?)
    {
      var root := GetRootPath();
      var files := Selected(walked, filesExt);
      if |files| < 1 {
        return Some(ErrNoForms(root));
      }
      err := AddFiles(files, FormNames(files, root), decode);
      ghost var k := Decodable(files, decode);
      assert LoadedFrom(forms, old(forms), files, FormNames(files, root), decode, k);
    }

    /** The loop of `Load` over the selected files and their names. */
    method AddFiles(files: seq<string>, names: seq<string>, decode: string -> Result<FormData<A>>) returns (err: Option<Error>)
      requires |names| == |files|
      modifies this`forms
      ensures var k := Decodable(files, decode);
        LoadedFrom(forms, old(forms), files, names, decode, k) &&
        (k < |files| ==> err == Some(decode(files[k]).error)) &&
        (k == |files| ==> err.None?)
    {
      ghost var k := Decodable(files, decode);
      var i := 0;
      while i < |files|
        invariant 0 <= i <= k
        invariant LoadedFrom(forms, old(forms), files, names, decode, i)
      {
        DecodableStep(files, decode, i);
        var d := decode(files[i]);
        if d.Err? {
          assert i == k;
          return Some(d.error);
        }
        ghost var before := forms;
        var form := AddDecoded(names[i], d.value);
        LoadedStep(before, forms, old(forms), files, names, decode, i, form);
        i := i + 1;
      }
      assert i == k;
      return None;
    }

    /** One turn of the loop of `Load`: a new form holding what was decoded,
        added under its name. */
    method AddDecoded(name: string, d: FormData<A>) returns (form: Form<A>)
      modifies this`forms
      ensures fresh(form) && Registered(form, d, name)
      ensures forms == old(forms)[name := form]
    {
      form := new Form(d.data, d.headers, d.httpMethod);
      AddForm(name, form);
    }
  }

  /** The form names of the files, in order. */
  function FormNames(files: seq<string>, root: string): (names: seq<string>)
    ensures |names| == |files| && forall j | 0 <= j < |files| :: names[j] == FormName(files[j], root)
  {
    seq(|files|, j requires 0 <= j < |files| => FormName(files[j], root))
  }

  /** The first `n` names, as a set. */
  function Prefix(names: seq<string>, n: nat): set<string>
    requires n <= |names|
  {
    if n == 0 then {} else Prefix(names, n - 1) + {names[n - 1]}
  }

  /** The position of the last of the first `k` names that is `n`: the file
      whose form `n` holds once the first `k` files are added. */
  function LastIndex(names: seq<string>, k: nat, n: string): (j: nat)
    requires k <= |names| && n in Prefix(names, k)
    ensures j < k && names[j] == n
    ensures forall i | j < i < k :: names[i] != n
  {
    if names[k - 1] == n then k - 1 else LastIndex(names, k - 1, n)
  }

  /** The form holds what was decoded for it, with its method upper-cased,
      under the name `n` and without an error. */
  ghost predicate Registered<A>(f: Form<A>, d: FormData<A>, n: string)
    reads f
  {
    f.data == d.data && f.headers == d.headers && f.httpMethod == ToUpper(d.httpMethod) &&
    f.name == n && f.error.None?
  }

  /** The registry `forms` once the first `i` files are added to `base`:
      every name added holds the form of its last file, and every other
      form of `base` is kept. */
  ghost predicate LoadedFrom<A>(forms: map<string, Form<A>>, base: map<string, Form<A>>, files: seq<string>,
                                names: seq<string>, decode: string -> Result<FormData<A>>, i: nat)
    requires i <= Decodable(files, decode) && |names| == |files|
    reads forms.Values
  {
    && forms.Keys == base.Keys + Prefix(names, i)
    && (forall n | n in Prefix(names, i) :: Registered(forms[n], decode(files[LastIndex(names, i, n)]).value, n))
    && (forall n | n in base && n !in Prefix(names, i) :: forms[n] == base[n])
  }

  /** Adding the form of the next file under its name extends the registry by one file. */
  lemma LoadedStep<A>(before: map<string, Form<A>>, forms: map<string, Form<A>>, base: map<string, Form<A>>,
                      files: seq<string>, names: seq<string>, decode: string -> Result<FormData<A>>, i: nat, form: Form<A>)
    requires i < Decodable(files, decode) && |names| == |files|
    requires LoadedFrom(before, base, files, names, decode, i)
    requires forms == before[names[i] := form]
    requires Registered(form, decode(files[i]).value, names[i])
    ensures LoadedFrom(forms, base, files, names, decode, i + 1)
  {
    RegisteredStep(before, forms, base, files, names, decode, i, form);
    KeptStep(before, forms, base, names, i, form);
  }

  /** Adding the next name keeps every other form of `base`, and the keys grow by that name. */
  lemma KeptStep<A>(before: map<string, Form<A>>, forms: map<string, Form<A>>, base: map<string, Form<A>>,
                    names: seq<string>, i: nat, form: Form<A>)
    requires i < |names|
    requires before.Keys == base.Keys + Prefix(names, i)
    requires forall n | n in base && n !in Prefix(names, i) :: before[n] == base[n]
    requires forms == before[names[i] := form]
    ensures forms.Keys == base.Keys + Prefix(names, i + 1)
    ensures forall n | n in base && n !in Prefix(names, i + 1) :: forms[n] == base[n]
  {
    assert Prefix(names, i + 1) == Prefix(names, i) + {names[i]};
  }

  /** The names added so far, the next one included, hold the forms of their last files. */
  lemma RegisteredStep<A>(before: map<string, Form<A>>, forms: map<string, Form<A>>, base: map<string, Form<A>>,
                          files: seq<string>, names: seq<string>, decode: string -> Result<FormData<A>>, i: nat, form: Form<A>)
    requires i < Decodable(files, decode) && |names| == |files|
    requires LoadedFrom(before, base, files, names, decode, i)
    requires forms == before[names[i] := form]
    requires Registered(form, decode(files[i]).value, names[i])
    ensures forall n | n in Prefix(names, i + 1) :: n in forms && Registered(forms[n], decode(files[LastIndex(names, i + 1, n)]).value, n)
  {
    forall n | n in Prefix(names, i + 1)
      ensures n in forms && Registered(forms[n], decode(files[LastIndex(names, i + 1, n)]).value, n)
    {
      if n != names[i] {
        assert n in Prefix(names, i) && forms[n] == before[n];
      }
    }
  }

  /** The number of files that decode before the first that does not. */
  function Decodable<A>(files: seq<string>, decode: string -> Result<FormData<A>>): (k: nat)
    ensures k <= |files|
    ensures forall j | 0 <= j < k :: decode(files[j]).Ok?
    ensures k < |files| ==> decode(files[k]).Err?
  {
    if files == [] || decode(files[0]).Err? then 0
    else 1 + Decodable(files[1..], decode)
  }

  /** Below the first failure, a file decodes; at it, the file does not. */
  lemma DecodableStep<A>(files: seq<string>, decode: string -> Result<FormData<A>>, i: nat)
    requires i < |files| && i <= Decodable(files, decode)
    ensures decode(files[i]).Ok? <==> i < Decodable(files, decode)
  {
  }
}

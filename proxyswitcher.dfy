/** The proxy switcher: an ordered list of proxies with distinct ids, handed
    out one at a time. The id of a proxy is the checksum of its url; the
    checksum and the url parser are parameters of the switcher, and the
    checksum is not assumed injective. */
module ProxySwitcher {
  import opened Common
  import Helpers
  import opened Proxies

  /** What `Add` does to the list of ids: the id of the url, unless it is
      already there or the url does not parse. */
  function AddId(ids: seq<string>, url: string, checksum: string -> string, urlError: string -> Option<Error>):
    (r: Result<seq<string>>)
    ensures checksum(url) in ids ==> r == Err(Msg("Proxy is duplicated [" + url + "]"))
    ensures checksum(url) !in ids && urlError(url).Some? ==> r == Err(urlError(url).value)
    ensures r.Ok? <==> checksum(url) !in ids && urlError(url).None?
    ensures r.Ok? ==> r.value == ids + [checksum(url)]
  {
    if checksum(url) in ids then Err(Msg("Proxy is duplicated [" + url + "]"))
    else if urlError(url).Some? then Err(urlError(url).value)
    else Ok(ids + [checksum(url)])
  }

  /** What `Load`'s loop does to the list of ids: each url added in turn, up
      to the first failure; the ids added before it stay. */
  function LoadIds(ids: seq<string>, urls: seq<string>, checksum: string -> string, urlError: string -> Option<Error>):
    (r: (seq<string>, Option<Error>))
    ensures |ids| <= |r.0| <= |ids| + |urls| && r.0[..|ids|] == ids
    ensures r.1.None? ==> |r.0| == |ids| + |urls|
    decreases |urls|
  {
    if urls == [] then (ids, None)
    else match AddId(ids, urls[0], checksum, urlError)
      case Err(e) => (ids, Some(e))
      case Ok(next) =>
        var r := LoadIds(next, urls[1..], checksum, urlError);
        assert r.0[..|ids|] == next[..|next|][..|ids|];
        r
  }

  /** Loading keeps the ids distinct. */
  lemma {:induction false} LoadKeepsIdsDistinct(ids: seq<string>, urls: seq<string>, checksum: string -> string, urlError: string -> Option<Error>)
    requires Distinct(ids)
    ensures Distinct(LoadIds(ids, urls, checksum, urlError).0)
    decreases |urls|
  {
    if urls != [] {
      match AddId(ids, urls[0], checksum, urlError)
      case Err(_) =>
      case Ok(next) =>
        assert Distinct(next);
        LoadKeepsIdsDistinct(next, urls[1..], checksum, urlError);
    }
  }

  /** With no id already present and every url parsing, a successful load
      adds the ids of all urls in order. */
  lemma {:induction false} LoadAddsAll(ids: seq<string>, urls: seq<string>, checksum: string -> string, urlError: string -> Option<Error>)
    requires LoadIds(ids, urls, checksum, urlError).1.None?
    ensures LoadIds(ids, urls, checksum, urlError).0 == ids + seq(|urls|, i requires 0 <= i < |urls| => checksum(urls[i]))
    decreases |urls|
  {
    if urls != [] {
      var next := ids + [checksum(urls[0])];
      LoadAddsAll(next, urls[1..], checksum, urlError);
      var tail := seq(|urls| - 1, i requires 0 <= i < |urls| - 1 => checksum(urls[1..][i]));
      assert next + tail == ids + seq(|urls|, i requires 0 <= i < |urls| => checksum(urls[i]));
    }
  }

  predicate Distinct(ids: seq<string>) {
    forall i, j | 0 <= i < j < |ids| :: ids[i] != ids[j]
  }

  /** Removing one entry of distinct ids leaves them distinct, and without that entry. */
  lemma DistinctRemoved(ids: seq<string>, i: int)
    requires Distinct(ids) && 0 <= i < |ids|
    ensures var r := Helpers.RemoveByIndex(ids, i); Distinct(r) && ids[i] !in r
  {
    var r := Helpers.RemoveByIndex(ids, i);
    forall j | 0 <= j < |r|
      ensures r[j] == ids[if j < i then j else j + 1]
    {
    }
  }

  /** The position of the first proxy with the id, or -1. */
  function FirstWithId(proxies: seq<Proxy>, id: string): (k: int)
    ensures -1 <= k < |proxies|
    ensures k == -1 <==> forall i | 0 <= i < |proxies| :: proxies[i].id != id
    ensures k >= 0 ==> proxies[k].id == id && forall i | 0 <= i < k :: proxies[i].id != id
    decreases |proxies|
  {
    if proxies == [] then -1
    else if proxies[0].id == id then 0
    else
      var k := FirstWithId(proxies[1..], id);
      if k < 0 then -1 else k + 1
  }

  /** The position of the first proxy available for the usage id, or -1. */
  function FirstAvailable(proxies: seq<Proxy>, usageId: seq<string>): (k: int)
    reads set p | p in proxies
    ensures -1 <= k < |proxies|
    ensures k == -1 <==> forall i | 0 <= i < |proxies| :: !proxies[i].IsAvailable(usageId)
    ensures k >= 0 ==> proxies[k].IsAvailable(usageId) && forall i | 0 <= i < k :: !proxies[i].IsAvailable(usageId)
    decreases |proxies|
  {
    if proxies == [] then -1
    else if proxies[0].IsAvailable(usageId) then 0
    else
      var k := FirstAvailable(proxies[1..], usageId);
      if k < 0 then -1 else k + 1
  }

  class Switcher {
    var proxies: seq<Proxy>
    const checksum: string -> string
    const urlError: string -> Option<Error>

    /** The ids of the stored proxies are distinct, so no proxy is stored twice. */
    ghost predicate Valid()
      reads this
    {
      Distinct(Ids())
    }

    function Ids(): (ids: seq<string>)
      reads this
      ensures |ids| == |proxies|
      ensures forall i | 0 <= i < |proxies| :: ids[i] == proxies[i].id
    {
      var ps := proxies;
      seq(|ps|, i requires 0 <= i < |ps| => ps[i].id)
    }

    /** `New`. */
    constructor (checksum: string -> string, urlError: string -> Option<Error>)
      ensures Valid() && proxies == []
      ensures this.checksum == checksum && this.urlError == urlError
    {
      proxies := [];
      this.checksum := checksum;
      this.urlError := urlError;
    }

    /** `get`: the first proxy with the id. */
    function Get(id: string): (p: Proxy?)
      reads this
      ensures p == null <==> id !in Ids()
      ensures p != null ==> p == proxies[FirstWithId(proxies, id)]
    {
      var k := FirstWithId(proxies, id);
      if k < 0 then null else proxies[k]
    }

    /** `Add`. */
    method Add(url: string) returns (err: Option<Error>)
      requires Valid()
      modifies this`proxies
      ensures Valid()
      ensures var r := AddId(old(Ids()), url, checksum, urlError);
        (r.Err? ==> err == Some(r.error) && proxies == old(proxies)) &&
        (r.Ok? ==> err.None? && Ids() == r.value)
      ensures err.None? ==>
        |proxies| == |old(proxies)| + 1 && proxies[..|old(proxies)|] == old(proxies) &&
        var p := proxies[|proxies| - 1];
        fresh(p) && p.url == url && !p.isInUse && p.usageIds == []
    {
      var id := checksum(url);
      var known := Get(id);
      if known != null {
        return Some(Msg("Proxy is duplicated [" + url + "]"));
      }
      if urlError(url).Some? {
        return urlError(url);
      }
      var proxy := new Proxy(id, url);
      proxies := proxies + [proxy];
      assert Ids() == old(Ids()) + [id];
      return None;
    }

    /** `Load`: an empty list is an error; otherwise the urls are added in
        turn up to the first failing one. */
    method Load(urls: seq<string>) returns (err: Option<Error>)
      requires Valid()
      modifies this`proxies
      ensures Valid()
      ensures urls == [] ==> err == Some(Msg("Proxy list is empty")) && proxies == old(proxies)
      ensures urls != [] ==>
        (Ids(), err) == LoadIds(old(Ids()), urls, checksum, urlError)
      ensures proxies[..|old(proxies)|] == old(proxies)
    {
      if |urls| == 0 {
        return Some(Msg("Proxy list is empty"));
      }
      var i := 0;
      while i < |urls|
        invariant 0 <= i <= |urls|
        invariant Valid()
        invariant |old(proxies)| <= |proxies| && proxies[..|old(proxies)|] == old(proxies)
        invariant LoadIds(old(Ids()), urls, checksum, urlError) == LoadIds(Ids(), urls[i..], checksum, urlError)
      {
        ghost var before := proxies;
        assert urls[i..][1..] == urls[i + 1..];
        err := Add(urls[i]);
        if err.Some? {
          return;
        }
        assert proxies[..|old(proxies)|] == before[..|old(proxies)|];
        i := i + 1;
      }
      err := None;
    }

    /** `Remove`: the first proxy with the url's id goes, the others keep
        their order. */
    method Remove(url: string) returns (err: Option<Error>)
      requires Valid()
      modifies this`proxies
      ensures Valid()
      ensures checksum(url) !in old(Ids()) ==> err == Some(Msg("Proxy not found [" + url + "]")) && proxies == old(proxies)
      ensures checksum(url) in old(Ids()) ==>
        err.None? && proxies == Helpers.RemoveByIndex(old(proxies), FirstWithId(old(proxies), checksum(url)))
      ensures checksum(url) !in Ids()
    {
      var id := checksum(url);
      var proxy := Get(id);
      if proxy == null {
        return Some(Msg("Proxy not found [" + url + "]"));
      }
      ghost var ids := Ids();
      var i := 0;
      while i < |proxies|
        invariant 0 <= i <= FirstWithId(proxies, id)
        invariant proxies == old(proxies)
      {
        if proxies[i].id == id {
          proxies := proxies[..i] + proxies[i + 1..];
          break;
        }
        i := i + 1;
      }
      assert i == FirstWithId(old(proxies), id) && ids[i] == id;
      assert proxies == Helpers.RemoveByIndex(old(proxies), i);
      assert Ids() == Helpers.RemoveByIndex(ids, i);
      DistinctRemoved(ids, i);
      return None;
    }

    /** `All`. */
    function All(): (ps: seq<Proxy>)
      reads this
      ensures ps == proxies
    {
      proxies
    }

    /** `Count`. */
    function Count(): (n: nat)
      reads this
      ensures n == |Ids()|
    {
      |proxies|
    }

    /** `Next`: takes the first proxy available for the usage id, and only
        that one; none when no proxy is available. */
    method Next(usageId: seq<string>) returns (p: Proxy?)
      requires Valid()
      modifies set q | q in proxies
      ensures var k := old(FirstAvailable(proxies, usageId));
        (k < 0 ==> p == null) && (k >= 0 ==> p == proxies[k])
      ensures p != null ==>
        p.isInUse && p.usageIds == old(p.usageIds) + usageId[..if |usageId| > 0 then 1 else 0]
      ensures forall q | q in proxies && q != p :: q.isInUse == old(q.isInUse) && q.usageIds == old(q.usageIds)
    {
      p := null;
      ghost var k := FirstAvailable(proxies, usageId);
      var i := 0;
      while i < |proxies|
        invariant 0 <= i <= |proxies|
        invariant forall j | 0 <= j < i :: !proxies[j].IsAvailable(usageId)
      {
        if proxies[i].IsAvailable(usageId) {
          break;
        }
        i := i + 1;
      }
      if i < |proxies| {
        assert k == i;
        var proxy := proxies[i];
        var ok := proxy.Use(usageId);
        if ok {
          p := proxy;
        }
      }
    }
  }
}

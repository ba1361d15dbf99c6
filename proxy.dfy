/** One proxy of the switcher: its id and url, whether it is in use, and the
    usage ids it has served. The timers that drop a usage id after a delay
    are not part of this model. */
module Proxies {
  import Helpers

  class Proxy {
    const id: string
    const url: string
    var isInUse: bool
    var usageIds: seq<string>

    /** `NewProxy`, after the url has parsed. */
    constructor (id: string, url: string)
      ensures this.id == id && this.url == url
      ensures !isInUse && usageIds == []
    {
      this.id := id;
      this.url := url;
      isInUse := false;
      usageIds := [];
    }

    function Id(): (r: string)
      ensures r == id
    {
      id
    }

    function RawUrl(): (r: string)
      ensures r == url
    {
      url
    }

    function IsInUse(): (b: bool)
      reads this`isInUse
      ensures b == isInUse
    {
      isInUse
    }

    /** `IsUsedFor`: only the first of the variadic ids is looked at; with
        none the answer is no. */
    function IsUsedFor(usageId: seq<string>): (b: bool)
      reads this`usageIds
      ensures |usageId| == 0 ==> !b
      ensures |usageId| > 0 ==> (b <==> usageId[0] in usageIds)
    {
      |usageId| > 0 && usageId[0] in usageIds
    }

    /** `isAvailable`: free, and not yet used for that id. */
    function IsAvailable(usageId: seq<string>): (b: bool)
      reads this`isInUse, this`usageIds
      ensures b <==> !isInUse && !(|usageId| > 0 && usageId[0] in usageIds)
    {
      !isInUse && !IsUsedFor(usageId)
    }

    /** `use`: takes the proxy if it is available, recording the id. */
    method Use(usageId: seq<string>) returns (ok: bool)
      modifies this`isInUse, this`usageIds
      ensures ok <==> old(IsAvailable(usageId))
      ensures !ok ==> isInUse == old(isInUse) && usageIds == old(usageIds)
      ensures ok ==> isInUse && usageIds == old(usageIds) + usageId[..if |usageId| > 0 then 1 else 0]
      ensures |usageId| > 0 ==> IsUsedFor(usageId) == (ok || old(IsUsedFor(usageId)))
    {
      if isInUse {
        return false;
      }
      if |usageId| > 0 && IsUsedFor(usageId[..1]) {
        return false;
      }
      isInUse := true;
      if |usageId| > 0 {
        usageIds := usageIds + [usageId[0]];
      }
      return true;
    }

    /** `Release`: the usage ids stay. */
    method Release()
      modifies this`isInUse
      ensures !isInUse
    {
      isInUse := false;
    }

    /** `RemoveUsage`: the first occurrence of the id goes. */
    method RemoveUsage(usageId: string)
      modifies this`usageIds
      ensures usageIds == Helpers.RemoveItem(old(usageIds), usageId)
    {
      usageIds := Helpers.RemoveItem(usageIds, usageId);
    }
  }

  /** `use` and `RemoveUsage` are partners: an id recorded once is gone
      after `RemoveUsage`, so a released proxy is available for it again;
      an id recorded twice survives one removal. */
  lemma RemoveUsageFreesId(ids: seq<string>, u: string)
    requires multiset(ids)[u] <= 1
    ensures u !in Helpers.RemoveItem(ids, u)
  {
    assert multiset(Helpers.RemoveItem(ids, u))[u] == 0;
  }

  /** An id recorded more than once is still recorded after one removal,
      with one record fewer. */
  lemma TwiceUsedSurvivesOneRemoval(ids: seq<string>, u: string)
    requires multiset(ids)[u] >= 2
    ensures u in Helpers.RemoveItem(ids, u)
    ensures multiset(Helpers.RemoveItem(ids, u))[u] == multiset(ids)[u] - 1
  {
    assert u in multiset(ids);
    assert multiset(Helpers.RemoveItem(ids, u))[u] >= 1;
  }
}

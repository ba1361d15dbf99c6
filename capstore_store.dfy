/** The captcha store: named token pools, one of them active, and the action
    names the next `GetToken` uses. A store of the application is described
    here by the pool it hands out; the default store is a fresh pool. */
module CapStore {
  import opened Common
  import opened CapPool

  const DefaultStoreKey := "defaultStore"

  class CaptchaStore<D> {
    var stores: map<string, Pool<D>>
    var activeStore: string
    var actionName: seq<string>

    /** Every pool of the store keeps its own invariant. */
    ghost predicate Valid()
      reads this, stores.Values
    {
      forall n | n in stores :: stores[n].Valid()
    }

    /** `New`: the default store is registered, but none is active. */
    constructor (checksum: string -> string)
      ensures Valid()
      ensures stores.Keys == {DefaultStoreKey} && fresh(stores[DefaultStoreKey])
      ensures stores[DefaultStoreKey].tokens == map[]
      ensures activeStore == "" && actionName == []
      ensures Current() == null
    {
      var pool := new Pool(checksum);
      stores := map[DefaultStoreKey := pool];
      activeStore := "";
      actionName := [];
    }

    /** `AddStore`: inserts or replaces the named store. */
    method AddStore(name: string, s: Pool<D>)
      modifies this`stores
      ensures stores == old(stores)[name := s]
    {
      stores := stores[name := s];
    }

    /** `Use`. */
    method Use(storeName: string)
      modifies this`activeStore
      ensures activeStore == storeName && GetActiveName() == storeName
    {
      activeStore := storeName;
    }

    /** `WithAction`: the action names for the next `GetToken`. */
    method WithAction(action: seq<string>) returns (r: CaptchaStore<D>)
      modifies this`actionName
      ensures actionName == action && r == this
    {
      actionName := action;
      r := this;
    }

    method ResetAction()
      modifies this`actionName
      ensures actionName == []
    {
      actionName := [];
    }

    function GetActiveName(): (name: string)
      reads this
      ensures name == activeStore
    {
      activeStore
    }

    /** `Current`: the active store, nil when no store has that name. */
    function Current(): (p: Pool?<D>)
      reads this
      ensures p == null <==> activeStore !in stores
      ensures p != null ==> p == stores[activeStore]
    {
      if activeStore in stores then stores[activeStore] else null
    }

    /** `Pool`: the pool of the active store, nil without one. */
    function Pool(): (p: Pool?<D>)
      reads this
      ensures p == Current()
    {
      var current := Current();
      if current == null then null else current
    }

    /** `GetToken`: the active pool's `Get` for the chosen action names,
        which are then cleared; without an active store an error, and the
        action names stay. */
    method GetToken() returns (t: Option<Token<D>>, err: Option<Error>)
      requires Valid()
      modifies this`actionName, Current()
      ensures Valid()
      ensures old(Current()) == null ==>
        t.None? && err == Some(Msg("no active store")) && actionName == old(actionName)
      ensures old(Current()) != null ==>
        actionName == [] &&
        var p := old(Current());
        var a := ActionName(old(actionName));
        (old(p.Held(a)) == 0 ==>
          err == Some(Msg(NoCaptchaExists)) && t.None? &&
          p.tokens == old(p.tokens) && p.checksums == old(p.checksums)) &&
        (old(p.Held(a)) > 0 ==>
          err.None? && t.Some? &&
          var c := p.checksum(t.value.value);
          c in old(p.tokens[a]) && old(p.tokens[a][c]) == t.value &&
          p.tokens == old(p.tokens)[a := old(p.tokens[a]) - {c}] &&
          p.checksums == old(p.checksums) - {c} &&
          p.Held(a) == old(p.Held(a)) - 1)
      ensures old(Current()) != null ==>
        var p := old(Current());
        p.tokenLifeTime == old(p.tokenLifeTime) && p.minTokens == old(p.minTokens) &&
        p.onAddHandlers == old(p.onAddHandlers) && p.onRemoveHandlers == old(p.onRemoveHandlers)
      ensures stores == old(stores) && activeStore == old(activeStore)
    {
      var current := Current();
      if current == null {
        return None, Some(Msg("no active store"));
      }
      t, err := current.Get(actionName);
      ResetAction();
    }
  }
}

/** The captcha token pool: tokens grouped by action, each keyed by the
    checksum of its value, with a global record of the checksums so that a
    token is never held twice. The checksum is a parameter (the code uses
    "_" followed by the hexadecimal CRC-32 of the value); times are
    milliseconds and the current time is passed in. The expiry timers and
    the add/remove handlers, which run on goroutines, are not part of this
    model: the handlers are only recorded. */
module CapPool {
  import opened Common

  const DefaultKey := "_default"

  /** The text of the error `Get` returns. The code passes this message key
      through the global translator; the translation is not part of this model. */
  const NoCaptchaExists := "no_captcha_exists"

  datatype Token<D> = Token(value: string, data: D, createdAt: int, expiryTime: int)

  /** The action a variadic action argument names: the first, unless it is
      absent or empty. */
  function ActionName(action: seq<string>): (a: string)
    ensures a != ""
    ensures |action| > 0 && action[0] != "" ==> a == action[0]
    ensures !(|action| > 0 && action[0] != "") ==> a == DefaultKey
  {
    if |action| == 0 || action[0] == "" then DefaultKey else action[0]
  }

  /** The pool's invariant on its two maps: every held token sits under the
      checksum of its value, that checksum is recorded, and no checksum is
      held under two actions. */
  ghost predicate Consistent<D>(tokens: map<string, map<string, Token<D>>>, checksums: set<string>, checksum: string -> string) {
    (forall a, c | a in tokens && c in tokens[a] :: c in checksums && checksum(tokens[a][c].value) == c) &&
    (forall a, b, c | a in tokens && b in tokens && c in tokens[a] && c in tokens[b] :: a == b)
  }

  /** Storing a token whose checksum is not recorded keeps the invariant,
      and adds one token to its action. */
  lemma ConsistentPush<D>(tokens: map<string, map<string, Token<D>>>, checksums: set<string>, checksum: string -> string,
                          a: string, tok: Token<D>)
    requires Consistent(tokens, checksums, checksum)
    requires checksum(tok.value) !in checksums
    ensures var c := checksum(tok.value);
      var held := if a in tokens then tokens[a] else map[];
      && c !in held && |held[c := tok]| == |held| + 1
      && Consistent(tokens[a := held[c := tok]], checksums + {c}, checksum)
  {
    var c := checksum(tok.value);
    var held: map<string, Token<D>> := if a in tokens then tokens[a] else map[];
    assert c !in held;
    var t2: map<string, map<string, Token<D>>> := tokens[a := held[c := tok]];
    PushOrigin(tokens, checksums, checksum, a, tok);
    forall x, d | x in t2 && d in t2[x]
      ensures d in checksums + {c} && checksum(t2[x][d].value) == d
    {
      if d != c {
        assert x in tokens && d in tokens[x] && t2[x][d] == tokens[x][d];
      }
    }
    forall x, y, d | x in t2 && y in t2 && d in t2[x] && d in t2[y]
      ensures x == y
    {
      if d == c {
        assert x == a && y == a;
      } else {
        assert x in tokens && d in tokens[x] && y in tokens && d in tokens[y];
      }
    }
    assert Consistent(t2, checksums + {c}, checksum);
  }

  /** Where each token of the map `Push` leaves comes from: the map before, under a
      checksum already recorded, or the new token under its own checksum. */
  lemma PushOrigin<D>(tokens: map<string, map<string, Token<D>>>, checksums: set<string>, checksum: string -> string,
                      a: string, tok: Token<D>)
    requires Consistent(tokens, checksums, checksum)
    requires checksum(tok.value) !in checksums
    ensures var c := checksum(tok.value);
      var held := if a in tokens then tokens[a] else map[];
      var t2 := tokens[a := held[c := tok]];
      forall x, d | x in t2 && d in t2[x] ::
        (x in tokens && d in tokens[x] && t2[x][d] == tokens[x][d] && d in checksums) || (x == a && d == c && t2[x][d] == tok)
  {
  }

  class Pool<D> {
    var tokens: map<string, map<string, Token<D>>>
    var checksums: set<string>
    var tokenLifeTime: int
    var minTokens: map<string, int>
    var onAddHandlers: seq<nat>
    var onRemoveHandlers: seq<nat>
    const checksum: string -> string

    /** Every held token sits under the checksum of its value, that checksum
        is recorded, and no checksum is held under two actions. */
    ghost predicate Valid()
      reads this
    {
      Consistent(tokens, checksums, checksum)
    }

    /** `NewPool`: a lifetime of 60 seconds, no tokens. */
    constructor (checksum: string -> string)
      ensures Valid()
      ensures tokens == map[] && checksums == {} && minTokens == map[]
      ensures tokenLifeTime == 60000 && onAddHandlers == [] && onRemoveHandlers == []
      ensures this.checksum == checksum
    {
      this.checksum := checksum;
      tokenLifeTime := 60000;
      minTokens := map[];
      onAddHandlers := [];
      onRemoveHandlers := [];
      tokens := map[];
      checksums := {};
    }

    function Tokens(): (m: map<string, map<string, Token<D>>>)
      reads this
      ensures m == tokens
    {
      tokens
    }

    method SetTokenLifeTime(t: int)
      modifies this`tokenLifeTime
      ensures tokenLifeTime == t
    {
      tokenLifeTime := t;
    }

    /** `SetMinToken`: records the minimum for the named action only. */
    method SetMinToken(min: int, action: seq<string>)
      modifies this`minTokens
      ensures minTokens == old(minTokens)[ActionName(action) := min]
    {
      var name := ActionName(action);
      minTokens := minTokens[name := min];
    }

    method SubscribeOnAdd(fn: nat)
      modifies this`onAddHandlers
      ensures onAddHandlers == old(onAddHandlers) + [fn]
    {
      onAddHandlers := onAddHandlers + [fn];
    }

    method SubscribeOnRemove(fn: nat)
      modifies this`onRemoveHandlers
      ensures onRemoveHandlers == old(onRemoveHandlers) + [fn]
    {
      onRemoveHandlers := onRemoveHandlers + [fn];
    }

    /** The number of tokens an action holds; 0 for an unknown action. */
    function Held(a: string): (n: nat)
      reads this
      ensures a !in tokens ==> n == 0
      ensures a in tokens ==> n == |tokens[a]|
    {
      if a in tokens then |tokens[a]| else 0
    }

    /** `Push`: stores the token under its action and records its checksum,
        unless the token is empty or its checksum is already held. */
    method Push(token: string, data: D, action: seq<string>, now: int) returns (t: Option<Token<D>>)
      requires Valid()
      modifies this`tokens, this`checksums
      ensures Valid()
      ensures (token == "" || checksum(token) in old(checksums)) ==>
        t.None? && tokens == old(tokens) && checksums == old(checksums)
      ensures !(token == "" || checksum(token) in old(checksums)) ==>
        var a := ActionName(action);
        var c := checksum(token);
        t == Some(Token(token, data, now, now + tokenLifeTime)) &&
        checksums == old(checksums) + {c} &&
        tokens == old(tokens)[a := (if a in old(tokens) then old(tokens)[a] else map[])[c := t.value]] &&
        Held(a) == old(Held(a)) + 1
    {
      if token == "" {
        return None;
      }
      var a := ActionName(action);
      var c := checksum(token);
      if c in checksums {
        return None;
      }
      var held := if a in tokens then tokens[a] else map[];
      var tok := Token(token, data, now, now + tokenLifeTime);
      ConsistentPush(tokens, checksums, checksum, a, tok);
      checksums := checksums + {c};
      tokens := tokens[a := held[c := tok]];
      return Some(tok);
    }

    /** `remove`: deletes the checksum from the action (nothing when the
        action is unknown) and from the global record. The call from `Get`
        passes the action the checksum is held under, as required here; the
        call from the expiry timer of `Push` is not part of this model. */
    method Remove(action: string, c: string)
      requires Valid()
      requires forall b | b in tokens && c in tokens[b] :: b == action
      modifies this`tokens, this`checksums
      ensures Valid()
      ensures action in old(tokens) ==> tokens == old(tokens)[action := old(tokens)[action] - {c}]
      ensures action !in old(tokens) ==> tokens == old(tokens)
      ensures checksums == old(checksums) - {c}
    {
      if action in tokens {
        tokens := tokens[action := tokens[action] - {c}];
      }
      checksums := checksums - {c};
    }

    /** `Get`: one token of the action, whichever the map's iteration order
        gives first, removed from the pool; an error when the action holds
        none. */
    method Get(action: seq<string>) returns (t: Option<Token<D>>, err: Option<Error>)
      requires Valid()
      modifies this`tokens, this`checksums
      ensures Valid()
      ensures old(Held(ActionName(action))) == 0 ==>
        t.None? && err == Some(Msg(NoCaptchaExists)) && tokens == old(tokens) && checksums == old(checksums)
      ensures old(Held(ActionName(action))) > 0 ==>
        var a := ActionName(action);
        err.None? && t.Some? &&
        var c := checksum(t.value.value);
        c in old(tokens[a]) && old(tokens[a][c]) == t.value &&
        tokens == old(tokens)[a := old(tokens[a]) - {c}] &&
        checksums == old(checksums) - {c} &&
        Held(a) == old(Held(a)) - 1
    {
      var a := ActionName(action);
      if a !in tokens || |tokens[a]| == 0 {
        return None, Some(Msg(NoCaptchaExists));
      }
      var c :| c in tokens[a];
      var tok := tokens[a][c];
      assert c in checksums && checksum(tokens[a][c].value) == c;
      Remove(a, checksum(tok.value));
      return Some(tok), None;
    }

    /** `Len`: the number of tokens of every known action. */
    function Len(): (m: map<string, nat>)
      reads this
      ensures m.Keys == tokens.Keys
      ensures forall a | a in m :: m[a] == Held(a)
    {
      map a | a in tokens :: |tokens[a]|
    }

    /** `reset`. */
    method Reset() returns (r: Pool<D>)
      modifies this`tokens, this`checksums
      ensures Valid() && tokens == map[] && checksums == {} && r == this
    {
      tokens := map[];
      checksums := {};
      r := this;
    }
  }

  /** A token pushed under one action cannot be pushed again under any
      action while it is held, because the record of checksums is global. */
  lemma HeldTokenBlocksPush<D>(p: Pool<D>, a: string, token: string)
    requires p.Valid()
    requires a in p.tokens && p.checksum(token) in p.tokens[a]
    ensures p.checksum(token) in p.checksums
  {
  }
}

/** The identity service: a list of valid clients, and for each client that
    asked for one a UI token with its creation time. Times are milliseconds
    and the current time is passed in; the random part of a new key is
    passed in too. The expiry timer of a token is not part of this model;
    the expiry time is still what `IsUiTokenValid` measures against. A
    token record is a value in the map here, where the code shares the
    record by reference. */
module Identity {
  import opened Common
  import Helpers

  datatype UiClient = UiClient(owner: string, key: string, createdAt: int)

  class Identity {
    var validClients: seq<string>
    var clients: map<string, UiClient>
    var uiKeysExpire: int

    /** Every token record sits under its owner. */
    ghost predicate Valid()
      reads this
    {
      forall o | o in clients :: clients[o].owner == o
    }

    /** The service instance: tokens expire after ten minutes. */
    constructor ()
      ensures Valid()
      ensures validClients == [] && clients == map[] && uiKeysExpire == 600000
    {
      validClients := [];
      clients := map[];
      uiKeysExpire := 600000;
    }

    method SetExpireTime(d: int)
      modifies this`uiKeysExpire
      ensures uiKeysExpire == d
    {
      uiKeysExpire := d;
    }

    /** `AddClient`: appends, duplicates included. */
    method AddClient(client: string)
      modifies this`validClients
      ensures validClients == old(validClients) + [client]
    {
      validClients := validClients + [client];
    }

    /** `AddClients`: each client in order. */
    method AddClients(cs: seq<string>)
      modifies this`validClients
      ensures validClients == old(validClients) + cs
    {
      var i := 0;
      while i < |cs|
        invariant 0 <= i <= |cs|
        invariant validClients == old(validClients) + cs[..i]
      {
        AddClient(cs[i]);
        assert cs[..i + 1] == cs[..i] + [cs[i]];
        i := i + 1;
      }
      assert cs[..i] == cs;
    }

    /** `RemoveClient`: the first occurrence goes. */
    method RemoveClient(client: string)
      modifies this`validClients
      ensures validClients == Helpers.RemoveItem(old(validClients), client)
    {
      var index := 0;
      while index < |validClients|
        invariant 0 <= index <= |validClients|
        invariant validClients == old(validClients)
        invariant client !in validClients[..index]
      {
        if validClients[index] == client {
          assert Helpers.FirstIndexOf(validClients, client) == index;
          validClients := validClients[..index] + validClients[index + 1..];
          return;
        }
        assert validClients[..index + 1] == validClients[..index] + [validClients[index]];
        index := index + 1;
      }
      assert validClients[..index] == validClients;
    }

    /** `ClientExists`: the linear search. */
    method ClientExists(client: string) returns (found: bool)
      ensures found <==> client in validClients
    {
      found := false;
      var k := 0;
      while k < |validClients|
        invariant 0 <= k <= |validClients|
        invariant client !in validClients[..k]
      {
        if validClients[k] == client {
          found := true;
          break;
        }
        assert validClients[..k + 1] == validClients[..k] + [validClients[k]];
        k := k + 1;
      }
      assert !found ==> validClients[..k] == validClients;
    }

    function ClientsCount(): (n: nat)
      reads this
      ensures n == |validClients|
    {
      |validClients|
    }

    function Clients(): (m: map<string, UiClient>)
      reads this
      ensures m == clients
    {
      clients
    }

    /** Some token record holds the key and has not yet expired at `now`. */
    ghost predicate ValidAt(key: string, now: int)
      reads this
    {
      exists o | o in clients :: clients[o].key == key && clients[o].createdAt + uiKeysExpire > now
    }

    /** `GenerateUiToken`: only for a valid client; a client with a token
        keeps its key and has its time refreshed, any other gets "v" followed
        by the random part. */
    method GenerateUiToken(ownerId: string, random: string, now: int) returns (key: string, err: Option<Error>)
      requires Valid()
      modifies this`clients
      ensures Valid()
      ensures ownerId !in validClients ==>
        key == "" && err == Some(Msg("client does not exist")) && clients == old(clients)
      ensures ownerId in validClients ==> err.None?
      ensures ownerId in validClients && ownerId in old(clients) ==>
        key == old(clients[ownerId].key) && clients == old(clients)[ownerId := UiClient(ownerId, key, now)]
      ensures ownerId in validClients && ownerId !in old(clients) ==>
        key == "v" + random && clients == old(clients)[ownerId := UiClient(ownerId, key, now)]
      ensures err.None? && uiKeysExpire > 0 ==> ValidAt(key, now)
    {
      var known := ClientExists(ownerId);
      if !known {
        return "", Some(Msg("client does not exist"));
      }
      if ownerId in clients {
        var c := clients[ownerId];
        clients := clients[ownerId := c.(createdAt := now)];
        assert clients[ownerId].key == c.key;
        return c.key, None;
      }
      key := "v" + random;
      clients := clients[ownerId := UiClient(ownerId, key, now)];
      assert clients[ownerId].key == key;
      return key, None;
    }

    /** `RemoveUiToken`: one record holding the key, whichever the map's
        iteration order meets first, goes; nothing when none holds it. */
    method RemoveUiToken(key: string)
      requires Valid()
      modifies this`clients
      ensures Valid()
      ensures (forall o | o in old(clients) :: old(clients[o].key) != key) ==> clients == old(clients)
      ensures (exists o | o in old(clients) :: old(clients[o].key) == key) ==>
        exists o | o in old(clients) && old(clients[o].key) == key :: clients == old(clients) - {o}
    {
      if o :| o in clients && clients[o].key == key {
        var client := clients[o];
        clients := clients - {client.owner};
      }
    }

    /** `IsUiTokenValid`: a search of the token records. */
    method IsUiTokenValid(key: string, now: int) returns (b: bool)
      ensures b <==> ValidAt(key, now)
    {
      var rest := clients.Keys;
      while rest != {}
        invariant rest <= clients.Keys
        invariant forall o | o in clients && o !in rest :: !(clients[o].key == key && clients[o].createdAt + uiKeysExpire > now)
        decreases |rest|
      {
        var o :| o in rest;
        var k := clients[o];
        if k.key == key && k.createdAt + uiKeysExpire > now {
          return true;
        }
        rest := rest - {o};
      }
      return false;
    }
  }
}

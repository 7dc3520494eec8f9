/** The server's in-memory registry: a game counter and the games by id,
    the clients subscribed to each game, and the names of connected clients.

    JavaScript walks an object's keys in a fixed order: integer-like keys
    (the game ids of `subscription`) in ascending order, other keys (the
    random uids of `names`) in insertion order.  The subscriptions are a map
    walked in ascending key order; the names are a list of entries in
    insertion order. */
module Registry {
  import opened Defines
  import opened Games

  /** A client connection, by identity. */
  type ClientId = nat
  /** `ws.uid`: the random number a connection is tagged with. */
  type Uid = real

  // ---------------------------------------------------------------------
  // Subscriptions.
  // ---------------------------------------------------------------------

  /** subscribe(game, client): the game's set, created empty if absent, with
      the client added. */
  function Subscribed(sub: map<nat, set<ClientId>>, game: nat, client: ClientId): (r: map<nat, set<ClientId>>)
    ensures r.Keys == sub.Keys + {game}
    ensures client in r[game]
    ensures forall k :: k in sub && k != game ==> r[k] == sub[k]
  {
    var clients := if game in sub then sub[game] else {};
    sub[game := clients + {client}]
  }

  /** Subscribing adds exactly the client to the game's set, and subscribing
      again changes nothing. */
  lemma SubscribeIdempotent(sub: map<nat, set<ClientId>>, game: nat, client: ClientId)
    ensures Subscribed(Subscribed(sub, game, client), game, client) == Subscribed(sub, game, client)
    ensures game in sub ==> Subscribed(sub, game, client)[game] == sub[game] + {client}
    ensures game !in sub ==> Subscribed(sub, game, client)[game] == {client}
  {
  }

  /** The games whose set holds the client. */
  ghost function Holders(sub: map<nat, set<ClientId>>, client: ClientId): set<nat> {
    set k | k in sub && client in sub[k]
  }

  /** k is the least element of s. */
  predicate IsLeast(k: nat, s: set<nat>) {
    k in s && forall j :: j in s ==> k <= j
  }

  /** A non-empty set of game ids has a least element. */
  lemma {:induction false} LeastExists(s: set<nat>)
    requires s != {}
    ensures exists k :: IsLeast(k, s)
    decreases s
  {
    var x :| x in s;
    var below := set j | j in s && j < x;
    if below == {} {
      forall j | j in s
        ensures x <= j
      {
        assert j < x ==> j in below;
      }
      assert IsLeast(x, s);
    } else {
      assert x !in below;
      assert below < s;
      LeastExists(below);
      var k :| IsLeast(k, below);
      forall j | j in s
        ensures k <= j
      {
        assert j < x ==> j in below;
      }
      assert IsLeast(k, s);
    }
  }

  /** The lowest-numbered game whose set holds the client. */
  ghost function LeastHolder(sub: map<nat, set<ClientId>>, client: ClientId): (k: nat)
    requires Holders(sub, client) != {}
    ensures k in sub && client in sub[k]
    ensures forall j :: j in sub && client in sub[j] ==> k <= j
  {
    LeastExists(Holders(sub, client));
    var k :| IsLeast(k, Holders(sub, client));
    assert forall j :: j in sub && client in sub[j] ==> j in Holders(sub, client);
    k
  }

  /** unsubscribe(client): walking the games in ascending id order, the
      client leaves the first game whose set holds it, and only that one. */
  ghost function Unsubscribed(sub: map<nat, set<ClientId>>, client: ClientId): (r: map<nat, set<ClientId>>)
    ensures r.Keys == sub.Keys
  {
    if Holders(sub, client) == {} then sub
    else
      var k := LeastHolder(sub, client);
      sub[k := sub[k] - {client}]
  }

  /** unsubscribe removes the client from the lowest-numbered game holding
      it and from no other: every set only loses the client, a set without
      the client is untouched, the first holder no longer holds it, and a
      game after a holder keeps its set (so the client stays in any later
      game it had subscribed to). */
  lemma UnsubscribeFirstOnly(sub: map<nat, set<ClientId>>, client: ClientId)
    ensures forall k :: k in sub ==> sub[k] - {client} <= Unsubscribed(sub, client)[k] <= sub[k]
    ensures forall k :: k in sub && client !in sub[k] ==> Unsubscribed(sub, client)[k] == sub[k]
    ensures forall k :: k in sub && client in sub[k] && (forall j :: j in sub && j < k ==> client !in sub[j]) ==>
      client !in Unsubscribed(sub, client)[k]
    ensures forall k, j :: k in sub && j in sub && k < j && client in sub[k] ==> Unsubscribed(sub, client)[j] == sub[j]
  {
    if Holders(sub, client) != {} {
      var g := LeastHolder(sub, client);
      forall k | k in sub && client in sub[k] && (forall j :: j in sub && j < k ==> client !in sub[j])
        ensures k == g
      {
      }
      assert Unsubscribed(sub, client) == sub[g := sub[g] - {client}];
    } else {
      forall k | k in sub
        ensures client !in sub[k]
      {
        assert k !in Holders(sub, client);
      }
    }
  }

  // ---------------------------------------------------------------------
  // Names.
  // ---------------------------------------------------------------------

  /** One property of the names object: a uid and the name stored for it
      (`null` after the client left). */
  datatype NameEntry = NameEntry(uid: Uid, name: Option<string>)

  predicate UniqueUids(entries: seq<NameEntry>) {
    forall i, j :: 0 <= i < j < |entries| ==> entries[i].uid != entries[j].uid
  }

  /** `names[uid] = name`: an existing property keeps its place and takes
      the new value; a new one goes at the end. */
  function SetName(entries: seq<NameEntry>, uid: Uid, name: Option<string>): (r: seq<NameEntry>)
    ensures |entries| <= |r| <= |entries| + 1
    ensures forall i :: 0 <= i < |entries| ==> r[i].uid == entries[i].uid
    decreases |entries|
  {
    if |entries| == 0 then [NameEntry(uid, name)]
    else if entries[0].uid == uid then [NameEntry(uid, name)] + entries[1..]
    else [entries[0]] + SetName(entries[1..], uid, name)
  }

  /** The value stored under a uid, None when the property does not exist. */
  function Lookup(entries: seq<NameEntry>, uid: Uid): Option<Option<string>>
    decreases |entries|
  {
    if |entries| == 0 then None
    else if entries[0].uid == uid then Some(entries[0].name)
    else Lookup(entries[1..], uid)
  }

  /** Storing a name under a uid: that uid now holds it, every other uid
      holds what it held, and the uids stay distinct. */
  lemma {:induction false} SetNameLookup(entries: seq<NameEntry>, uid: Uid, name: Option<string>, other: Uid)
    requires UniqueUids(entries)
    ensures UniqueUids(SetName(entries, uid, name))
    ensures Lookup(SetName(entries, uid, name), uid) == Some(name)
    ensures other != uid ==> Lookup(SetName(entries, uid, name), other) == Lookup(entries, other)
    decreases |entries|
  {
    if |entries| > 0 && entries[0].uid != uid {
      SetNameLookup(entries[1..], uid, name, other);
      SetNameAbsent(entries[1..], uid, name, entries[0].uid);
    } else if |entries| > 0 {
      LookupAbsent(entries[1..], uid);
    }
  }

  lemma {:induction false} LookupAbsent(entries: seq<NameEntry>, uid: Uid)
    requires forall i :: 0 <= i < |entries| ==> entries[i].uid != uid
    ensures Lookup(entries, uid) == None
    decreases |entries|
  {
    if |entries| > 0 {
      LookupAbsent(entries[1..], uid);
    }
  }

  lemma {:induction false} SetNameAbsent(entries: seq<NameEntry>, uid: Uid, name: Option<string>, x: Uid)
    requires x != uid && forall i :: 0 <= i < |entries| ==> entries[i].uid != x
    ensures forall i :: 0 <= i < |SetName(entries, uid, name)| ==> SetName(entries, uid, name)[i].uid != x
    decreases |entries|
  {
    if |entries| > 0 && entries[0].uid != uid {
      SetNameAbsent(entries[1..], uid, name, x);
    }
  }

  /** The names getNames reports: the stored values JavaScript treats as
      true, in property order. */
  function TruthyNames(entries: seq<NameEntry>): seq<string>
    decreases |entries|
  {
    if |entries| == 0 then []
    else if Truthy(entries[|entries| - 1].name) then TruthyNames(entries[..|entries| - 1]) + [entries[|entries| - 1].name.value]
    else TruthyNames(entries[..|entries| - 1])
  }

  /** getNames reports exactly the stored names that are neither null nor
      empty, once per entry holding them, in property order. */
  lemma {:induction false} TruthyNamesExact(entries: seq<NameEntry>)
    ensures forall x :: x in TruthyNames(entries) ==> x != "" && exists i :: 0 <= i < |entries| && entries[i].name == Some(x)
    ensures forall i :: 0 <= i < |entries| && Truthy(entries[i].name) ==> entries[i].name.value in TruthyNames(entries)
    ensures |TruthyNames(entries)| <= |entries|
    decreases |entries|
  {
    if |entries| > 0 {
      var front := entries[..|entries| - 1];
      TruthyNamesExact(front);
      forall x | x in TruthyNames(entries)
        ensures x != "" && exists i :: 0 <= i < |entries| && entries[i].name == Some(x)
      {
        if x in TruthyNames(front) {
          var i :| 0 <= i < |front| && front[i].name == Some(x);
          assert entries[i] == front[i];
        } else {
          assert entries[|entries| - 1].name == Some(x);
        }
      }
      forall i | 0 <= i < |entries| && Truthy(entries[i].name)
        ensures entries[i].name.value in TruthyNames(entries)
      {
        if i < |front| {
          assert front[i] == entries[i];
        }
      }
    }
  }

  /** Removing a name hides it from getNames without deleting its entry. */
  lemma RemovedNameHidden(entries: seq<NameEntry>, uid: Uid)
    requires UniqueUids(entries)
    ensures Lookup(SetName(entries, uid, None), uid) == Some(None)
    ensures |SetName(entries, uid, None)| >= |entries|
    ensures forall x :: x in TruthyNames(SetName(entries, uid, None)) ==>
      exists i :: 0 <= i < |entries| && entries[i].uid != uid && entries[i].name == Some(x)
  {
    var after := SetName(entries, uid, None);
    SetNameLookup(entries, uid, None, uid);
    TruthyNamesExact(after);
    forall x | x in TruthyNames(after)
      ensures exists i :: 0 <= i < |entries| && entries[i].uid != uid && entries[i].name == Some(x)
    {
      var i :| 0 <= i < |after| && after[i].name == Some(x);
      SetNameEntry(entries, uid, None, i);
    }
  }

  /** An entry of SetName's result is the stored value under its uid, or an
      untouched entry of the input. */
  lemma {:induction false} SetNameEntry(entries: seq<NameEntry>, uid: Uid, name: Option<string>, i: nat)
    requires UniqueUids(entries) && i < |SetName(entries, uid, name)|
    ensures var e := SetName(entries, uid, name)[i];
      (e.uid == uid && e.name == name) || (i < |entries| && e == entries[i] && e.uid != uid)
    decreases |entries|
  {
    if |entries| > 0 && entries[0].uid != uid && i > 0 {
      SetNameEntry(entries[1..], uid, name, i - 1);
    }
  }

  // ---------------------------------------------------------------------
  // The registry.
  // ---------------------------------------------------------------------

  /** The ids 1..n. */
  function Ids(n: nat): (r: set<nat>)
    ensures forall i :: i in r <==> 1 <= i <= n
  {
    if n == 0 then {} else Ids(n - 1) + {n}
  }

  class Registry {
    var counter: nat
    var games: map<nat, Game>
    var subscription: map<nat, set<ClientId>>
    var names: seq<NameEntry>

    /** The games are exactly those numbered 1..counter, and no uid has two
        entries. */
    ghost predicate Valid()
      reads this
    {
      games.Keys == Ids(counter) && UniqueUids(names)
    }

    constructor ()
      ensures Valid() && counter == 0 && games == map[] && subscription == map[] && names == []
    {
      counter := 0;
      games := map[];
      subscription := map[];
      names := [];
    }

    /** newGame(data): the next id, and a new game stored under it. */
    method NewGame(data: Option<nat>)
      requires Valid()
      modifies this
      ensures Valid() && counter == old(counter) + 1
      ensures counter in games && fresh(games[counter]) && games[counter].State() == Games.NewGame(SizeOf(data))
      ensures games == old(games)[counter := games[counter]]
      ensures subscription == old(subscription) && names == old(names)
    {
      counter := counter + 1;
      var g := new Game(data);
      games := games[counter := g];
    }

    method GetCounter() returns (n: nat)
      ensures n == counter
    {
      n := counter;
    }

    method Subscribe(game: nat, client: ClientId)
      modifies this
      ensures subscription == Subscribed(old(subscription), game, client)
      ensures counter == old(counter) && games == old(games) && names == old(names)
    {
      // game already has client joined
      if game !in subscription {
        subscription := subscription[game := {}];
      }
      subscription := subscription[game := subscription[game] + {client}];
    }

    method Unsubscribe(client: ClientId)
      modifies this
      ensures subscription == Unsubscribed(old(subscription), client)
      ensures counter == old(counter) && games == old(games) && names == old(names)
    {
      // The games are walked in ascending id order; the walk stops at the
      // first one whose set holds the client.
      var rest := subscription.Keys;
      var found: Option<nat> := None;
      while rest != {}
        invariant rest <= subscription.Keys && subscription == old(subscription)
        invariant counter == old(counter) && games == old(games) && names == old(names)
        invariant found.None?
        invariant forall k :: k in subscription && k !in rest ==> client !in subscription[k]
        invariant forall k, j :: k in subscription && k !in rest && j in rest ==> k < j
        decreases |rest|
      {
        LeastExists(rest);
        var game :| IsLeast(game, rest);
        if client in subscription[game] {
          assert game in Holders(subscription, client);
          ghost var least := LeastHolder(subscription, client);
          assert least in rest;
          assert least == game;
          found := Some(game);
          break;
        }
        rest := rest - {game};
      }
      if found.Some? {
        var game := found.value;
        assert game == LeastHolder(subscription, client);
        subscription := subscription[game := subscription[game] - {client}];
      } else {
        assert forall k :: k !in Holders(subscription, client);
      }
    }

    method AddName(uid: Uid, name: string)
      requires Valid()
      modifies this
      ensures Valid() && names == SetName(old(names), uid, Some(name))
      ensures counter == old(counter) && games == old(games) && subscription == old(subscription)
    {
      SetNameLookup(names, uid, Some(name), uid);
      names := SetName(names, uid, Some(name));
    }

    method RemoveName(uid: Uid)
      requires Valid()
      modifies this
      ensures Valid() && names == SetName(old(names), uid, None)
      ensures counter == old(counter) && games == old(games) && subscription == old(subscription)
    {
      SetNameLookup(names, uid, None, uid);
      names := SetName(names, uid, None);
    }

    method GetNames() returns (validNames: seq<string>)
      ensures validNames == TruthyNames(names)
    {
      validNames := [];
      var i := 0;
      while i < |names|
        invariant 0 <= i <= |names|
        invariant validNames == TruthyNames(names[..i])
      {
        assert names[..i + 1][..i] == names[..i];
        if Truthy(names[i].name) {
          validNames := validNames + [names[i].name.value];
        }
        i := i + 1;
      }
      assert names[..i] == names;
    }
  }
}

/** Listening through relays for friends (components/channeler/src/listen_pool_state.rs and listen_pool.rs).

    For every relay the pool records the friends it lets in. A connected relay has a listener with its own copy of
    that set, started with the friends at spawn time and changed only by the operations sent to it. */
module ListenPool {
  import opened AccessControl

  type Address = nat

  /** A spawned listener: the keys it was started with and the operations sent to it since. */
  datatype Listener = Listener(spawned: set<PublicKey>, ops: seq<AccessControlOp>)

  datatype RelayStatus = Waiting(ticks: nat) | Connected(listener: Listener)

  datatype Relay = Relay(friends: set<PublicKey>, status: RelayStatus)

  type Relays = map<Address, Relay>

  // ---------------------------------------------------------------- what every event keeps

  /** The keys a listener lets in. */
  function Allowed(listener: Listener): set<PublicKey> {
    ApplyAll(listener.spawned, listener.ops)
  }

  predicate InSync(relay: Relay) {
    relay.status.Connected? ==> Allowed(relay.status.listener) == relay.friends
  }

  predicate Inv(relays: Relays, local: set<Address>) {
    && (forall a :: a in relays ==> InSync(relays[a]))
    && (forall a :: a in local ==> a in relays)
    && (forall a :: a in relays && a !in local ==> relays[a].friends != {})
  }

  // ---------------------------------------------------------------- one relay

  function NewRelay(friends: set<PublicKey>): (r: Relay)
    ensures InSync(r)
  {
    Relay(friends, Connected(Listener(friends, [])))
  }

  /** A relay whose listener, if there is one, was sent an operation. */
  function Sent(relay: Relay, op: AccessControlOp): Relay {
    match relay.status
    case Waiting(_) => relay
    case Connected(Listener(spawned, ops)) => relay.(status := Connected(Listener(spawned, ops + [op])))
  }

  function Granted(relay: Relay, friend: PublicKey): Relay {
    if friend in relay.friends then relay
    else Sent(relay.(friends := relay.friends + {friend}), Add(friend))
  }

  function Revoked(relay: Relay, friend: PublicKey): Relay {
    if friend !in relay.friends then relay
    else Sent(relay.(friends := relay.friends - {friend}), Remove(friend))
  }

  lemma GrantedInSync(relay: Relay, friend: PublicKey)
    requires InSync(relay)
    ensures InSync(Granted(relay, friend)) && Granted(relay, friend).friends == relay.friends + {friend}
    ensures InSync(Revoked(relay, friend)) && Revoked(relay, friend).friends == relay.friends - {friend}
  {
    if relay.status.Connected? {
      ApplyAllAppend(relay.status.listener.spawned, relay.status.listener.ops, Add(friend));
      ApplyAllAppend(relay.status.listener.spawned, relay.status.listener.ops, Remove(friend));
    }
  }

  // ---------------------------------------------------------------- the events

  datatype LpConfig =
    | SetLocalAddresses(localAddresses: seq<Address>)
    | UpdateFriend(friend: PublicKey, addresses: seq<Address>)
    | RemoveFriend(friend: PublicKey)

  datatype LpEvent = Config(config: LpConfig) | RelayClosed(address: Address) | TimerTick

  datatype Pool = Pool(relays: Relays, local: set<Address>)

  function Elements(s: seq<Address>): set<Address> {
    set a | a in s
  }

  function AllFriends(relays: Relays): set<PublicKey> {
    set a, f | a in relays && f in relays[a].friends :: f
  }

  /** The relays that are still needed. */
  function Needed(relays: Relays, local: set<Address>): Relays {
    map a | a in relays && (relays[a].friends != {} || a in local) :: relays[a]
  }

  function AfterSetLocal(relays: Relays, local: set<Address>): Relays {
    var kept := Needed(relays, local);
    map a | a in kept.Keys + local :: if a in kept then kept[a] else NewRelay(AllFriends(kept))
  }

  function AfterUpdate(relays: Relays, local: set<Address>, friend: PublicKey, addresses: set<Address>): Relays {
    var targets := addresses + local;
    map a | a in relays.Keys + targets && (a in targets || relays[a].friends - {friend} != {}) ::
      if a !in relays then NewRelay({friend})
      else if a in targets then Granted(relays[a], friend)
      else Revoked(relays[a], friend)
  }

  function AfterRemove(relays: Relays, local: set<Address>, friend: PublicKey): Relays {
    map a | a in relays && (relays[a].friends - {friend} != {} || a in local) :: Revoked(relays[a], friend)
  }

  function AfterConfig(pool: Pool, config: LpConfig): Pool {
    match config
    case SetLocalAddresses(addresses) => Pool(AfterSetLocal(pool.relays, Elements(addresses)), Elements(addresses))
    case UpdateFriend(friend, addresses) =>
      Pool(AfterUpdate(pool.relays, pool.local, friend, Elements(addresses)), pool.local)
    case RemoveFriend(friend) => Pool(AfterRemove(pool.relays, pool.local, friend), pool.local)
  }

  function AfterClosed(relays: Relays, address: Address, backoffTicks: nat): Relays {
    if address in relays then relays[address := relays[address].(status := Waiting(backoffTicks))] else relays
  }

  function Ticked(relay: Relay): Relay {
    match relay.status
    case Connected(_) => relay
    case Waiting(ticks) => if ticks <= 1 then NewRelay(relay.friends) else relay.(status := Waiting(ticks - 1))
  }

  function AfterTick(relays: Relays): Relays {
    map a | a in relays :: Ticked(relays[a])
  }

  function AfterEvent(pool: Pool, event: LpEvent, backoffTicks: nat): Pool {
    match event
    case Config(config) => AfterConfig(pool, config)
    case RelayClosed(address) => Pool(AfterClosed(pool.relays, address, backoffTicks), pool.local)
    case TimerTick => Pool(AfterTick(pool.relays), pool.local)
  }

  lemma UpdateKeepsInv(relays: Relays, local: set<Address>, friend: PublicKey, addresses: set<Address>)
    requires Inv(relays, local)
    ensures Inv(AfterUpdate(relays, local, friend, addresses), local)
    ensures var r := AfterUpdate(relays, local, friend, addresses);
            forall a :: (a in r && friend in r[a].friends) <==> a in addresses + local
  {
    forall a | a in relays {
      GrantedInSync(relays[a], friend);
    }
  }

  lemma RemoveKeepsInv(relays: Relays, local: set<Address>, friend: PublicKey)
    requires Inv(relays, local)
    ensures Inv(AfterRemove(relays, local, friend), local)
    ensures friend !in AllFriends(AfterRemove(relays, local, friend))
  {
    forall a | a in relays {
      GrantedInSync(relays[a], friend);
    }
  }

  lemma EventKeepsInv(pool: Pool, event: LpEvent, backoffTicks: nat)
    requires Inv(pool.relays, pool.local)
    ensures var next := AfterEvent(pool, event, backoffTicks); Inv(next.relays, next.local)
  {
    match event
    case Config(UpdateFriend(friend, addresses)) =>
      UpdateKeepsInv(pool.relays, pool.local, friend, Elements(addresses));
    case Config(RemoveFriend(friend)) => RemoveKeepsInv(pool.relays, pool.local, friend);
    case Config(SetLocalAddresses(addresses)) =>
    case RelayClosed(_) =>
    case TimerTick =>
  }

  // ---------------------------------------------------------------- every sequence of events

  const EMPTY := Pool(map[], {})

  function AfterEvents(pool: Pool, events: seq<LpEvent>, backoffTicks: nat): Pool {
    if events == [] then pool
    else AfterEvent(AfterEvents(pool, events[..|events| - 1], backoffTicks), events[|events| - 1], backoffTicks)
  }

  /** In every reachable pool each listener lets in exactly the friends recorded for its relay, every local address
      has a relay, and every other relay has a friend. */
  lemma {:induction false} RunKeepsInv(events: seq<LpEvent>, backoffTicks: nat)
    ensures var pool := AfterEvents(EMPTY, events, backoffTicks); Inv(pool.relays, pool.local)
    decreases |events|
  {
    if events != [] {
      var init := events[..|events| - 1];
      RunKeepsInv(init, backoffTicks);
      EventKeepsInv(AfterEvents(EMPTY, init, backoffTicks), events[|events| - 1], backoffTicks);
    }
  }

  function Ticks(events: seq<LpEvent>): nat {
    if events == [] then 0
    else Ticks(events[..|events| - 1]) + if events[|events| - 1].TimerTick? then 1 else 0
  }

  /** The relay is in the pool before and after each of the events. */
  predicate Stays(pool: Pool, events: seq<LpEvent>, backoffTicks: nat, a: Address) {
    && a in AfterEvents(pool, events, backoffTicks).relays
    && (events != [] ==> Stays(pool, events[..|events| - 1], backoffTicks, a))
  }

  /** A wait of `ticks`, after `n` of them. */
  predicate Waited(status: RelayStatus, ticks: nat, n: nat) {
    n < ticks + (if ticks == 0 then 1 else 0) && status == Waiting(ticks - n)
  }

  /** A closed relay waits for the backoff, tick by tick, and then has a listener again, unless it was removed: a relay
      that comes back to the pool has one at once. */
  lemma {:induction false} ClosedRelayReturns(pool: Pool, a: Address, events: seq<LpEvent>, backoffTicks: nat)
    requires a in pool.relays && forall i :: 0 <= i < |events| ==> events[i] != RelayClosed(a)
    ensures var closed := AfterEvent(pool, RelayClosed(a), backoffTicks);
            var relays := AfterEvents(closed, events, backoffTicks).relays;
            && (a in relays && !Waited(relays[a].status, backoffTicks, Ticks(events)) ==> relays[a].status.Connected?)
            && (Stays(closed, events, backoffTicks, a) && Ticks(events) < backoffTicks ==>
                  relays[a].status == Waiting(backoffTicks - Ticks(events)))
    decreases |events|
  {
    if events != [] {
      var before := events[..|events| - 1];
      ClosedRelayReturns(pool, a, before, backoffTicks);
    }
  }

  predicate Admits(relays: Relays, address: Address, friend: PublicKey) {
    address in relays && friend in relays[address].friends
  }

  /** An event that is not a config for `friend`. */
  predicate Unrelated(event: LpEvent, friend: PublicKey) {
    event.Config? && !event.config.SetLocalAddresses? ==> event.config.friend != friend
  }

  lemma EventKeepsAdmission(pool: Pool, event: LpEvent, backoffTicks: nat, friend: PublicKey)
    requires Inv(pool.relays, pool.local) && Unrelated(event, friend)
    ensures var next := AfterEvent(pool, event, backoffTicks);
            && (forall a :: Admits(pool.relays, a, friend) ==> Admits(next.relays, a, friend))
            && (friend !in AllFriends(pool.relays) ==> friend !in AllFriends(next.relays))
  {
    match event
    case Config(UpdateFriend(other, addresses)) =>
      forall a | a in pool.relays
        ensures Admits(pool.relays, a, friend) ==> friend in pool.relays[a].friends - {other}
      {
        GrantedInSync(pool.relays[a], other);
      }
    case Config(RemoveFriend(other)) =>
      forall a | a in pool.relays
        ensures Admits(pool.relays, a, friend) ==> friend in pool.relays[a].friends - {other}
      {
        GrantedInSync(pool.relays[a], other);
      }
    case Config(SetLocalAddresses(addresses)) => NeededKeepsFriends(pool.relays, Elements(addresses));
    case RelayClosed(_) =>
    case TimerTick =>
  }

  lemma NeededKeepsFriends(relays: Relays, local: set<Address>)
    ensures AllFriends(Needed(relays, local)) == AllFriends(relays)
  {
    forall f | f in AllFriends(relays) ensures f in AllFriends(Needed(relays, local)) {
      var a :| a in relays && f in relays[a].friends;
      assert a in Needed(relays, local);
    }
  }

  /** Until the next config for a friend, whatever happens, the friend stays admitted where it was, and a friend
      that was admitted nowhere stays out. */
  lemma {:induction false} FriendKept(pool: Pool, events: seq<LpEvent>, backoffTicks: nat, friend: PublicKey)
    requires Inv(pool.relays, pool.local)
    requires forall i :: 0 <= i < |events| ==> Unrelated(events[i], friend)
    ensures var next := AfterEvents(pool, events, backoffTicks);
            && Inv(next.relays, next.local)
            && (forall a :: Admits(pool.relays, a, friend) ==> Admits(next.relays, a, friend))
            && (friend !in AllFriends(pool.relays) ==> friend !in AllFriends(next.relays))
    decreases |events|
  {
    if events != [] {
      var init := events[..|events| - 1];
      FriendKept(pool, init, backoffTicks, friend);
      var mid := AfterEvents(pool, init, backoffTicks);
      EventKeepsInv(mid, events[|events| - 1], backoffTicks);
      EventKeepsAdmission(mid, events[|events| - 1], backoffTicks, friend);
    }
  }

  // ---------------------------------------------------------------- the friends the pool was told about

  /** The friends that were updated and not removed since. */
  function Configured(events: seq<LpEvent>): set<PublicKey> {
    if events == [] then {}
    else
      var before := Configured(events[..|events| - 1]);
      match events[|events| - 1]
      case Config(UpdateFriend(friend, _)) => before + {friend}
      case Config(RemoveFriend(friend)) => before - {friend}
      case _ => before
  }

  /** The addresses of a friend and the local ones, at the last config for the friend; none if it was a removal. */
  function LastTargets(events: seq<LpEvent>, backoffTicks: nat, friend: PublicKey): set<Address> {
    if events == [] then {}
    else
      var init, last := events[..|events| - 1], events[|events| - 1];
      if Unrelated(last, friend) then LastTargets(init, backoffTicks, friend)
      else if last.config.RemoveFriend? then {}
      else Elements(last.config.addresses) + AfterEvents(EMPTY, init, backoffTicks).local
  }

  lemma {:induction false} OnlyConfiguredHaveTargets(events: seq<LpEvent>, backoffTicks: nat, friend: PublicKey)
    requires LastTargets(events, backoffTicks, friend) != {}
    ensures friend in Configured(events)
    decreases |events|
  {
    if Unrelated(events[|events| - 1], friend) {
      OnlyConfiguredHaveTargets(events[..|events| - 1], backoffTicks, friend);
    }
  }

  /** A config for the friend itself decides where it is recorded. */
  lemma RelatedRecords(pool: Pool, event: LpEvent, backoffTicks: nat, friend: PublicKey)
    requires Inv(pool.relays, pool.local) && !Unrelated(event, friend)
    ensures friend in AllFriends(AfterEvent(pool, event, backoffTicks).relays) <==>
            event.config.UpdateFriend? && Elements(event.config.addresses) + pool.local != {}
  {
    if event.config.RemoveFriend? {
      RemoveKeepsInv(pool.relays, pool.local, friend);
    } else {
      var targets := Elements(event.config.addresses) + pool.local;
      UpdateKeepsInv(pool.relays, pool.local, friend, Elements(event.config.addresses));
      var after := AfterEvent(pool, event, backoffTicks).relays;
      if a :| a in targets {
        assert a in after && friend in after[a].friends;
      }
    }
  }

  lemma UnrelatedKeepsRecords(pool: Pool, event: LpEvent, backoffTicks: nat, friend: PublicKey)
    requires Inv(pool.relays, pool.local) && Unrelated(event, friend)
    ensures friend in AllFriends(AfterEvent(pool, event, backoffTicks).relays) <==> friend in AllFriends(pool.relays)
  {
    EventKeepsAdmission(pool, event, backoffTicks, friend);
    if friend in AllFriends(pool.relays) {
      var a :| a in pool.relays && friend in pool.relays[a].friends;
      assert Admits(pool.relays, a, friend) && Admits(AfterEvent(pool, event, backoffTicks).relays, a, friend);
    }
  }

  /** In every run a friend is recorded at some relay if and only if there was an address for it, its own or a local
      one, at its last update. A friend updated without any is forgotten. */
  lemma {:induction false} RecordedIff(events: seq<LpEvent>, backoffTicks: nat, friend: PublicKey)
    ensures friend in AllFriends(AfterEvents(EMPTY, events, backoffTicks).relays) <==>
            LastTargets(events, backoffTicks, friend) != {}
    decreases |events|
  {
    if events != [] {
      var init, last := events[..|events| - 1], events[|events| - 1];
      RunKeepsInv(init, backoffTicks);
      RecordedIff(init, backoffTicks, friend);
      if Unrelated(last, friend) {
        UnrelatedKeepsRecords(AfterEvents(EMPTY, init, backoffTicks), last, backoffTicks, friend);
      } else {
        RelatedRecords(AfterEvents(EMPTY, init, backoffTicks), last, backoffTicks, friend);
      }
    }
  }

  /** Every relay of `local` admits every friend of `friends`. */
  predicate AdmitAll(relays: Relays, local: set<Address>, friends: set<PublicKey>) {
    forall a, f :: a in local && f in friends ==> Admits(relays, a, f)
  }

  /** What new local addresses admit: the relays already there what they did, new ones the recorded friends. */
  lemma SetLocalAdmits(relays: Relays, local: set<Address>, a: Address, f: PublicKey)
    requires a in local
    ensures Admits(AfterSetLocal(relays, local), a, f) <==>
            if a in relays then f in relays[a].friends else f in AllFriends(relays)
  {
    NeededKeepsFriends(relays, local);
  }

  /** After new local addresses all of them admit all configured friends if and only if there are none, or every
      configured friend had an address at its last update and every relay that becomes or stays local already
      admitted all of them. */
  lemma LocalAdmitsAllIff(events: seq<LpEvent>, backoffTicks: nat, addresses: seq<Address>)
    ensures var pool, friends := AfterEvents(EMPTY, events, backoffTicks), Configured(events);
            var next := AfterEvent(pool, Config(SetLocalAddresses(addresses)), backoffTicks);
            AdmitAll(next.relays, next.local, friends) <==>
            addresses == [] ||
            ((forall f :: f in friends ==> LastTargets(events, backoffTicks, f) != {}) &&
             (forall a :: a in addresses && a in pool.relays ==> friends <= pool.relays[a].friends))
  {
    var pool, friends := AfterEvents(EMPTY, events, backoffTicks), Configured(events);
    var local := Elements(addresses);
    forall f | f in friends
      ensures f in AllFriends(pool.relays) <==> LastTargets(events, backoffTicks, f) != {}
    {
      RecordedIff(events, backoffTicks, f);
    }
    forall a, f | a in local && f in friends
      ensures Admits(AfterSetLocal(pool.relays, local), a, f) <==>
              if a in pool.relays then f in pool.relays[a].friends else f in AllFriends(pool.relays)
    {
      SetLocalAdmits(pool.relays, local, a, f);
    }
    SomeLocal(pool.relays, addresses, friends);
  }

  /** With an address, all configured friends are recorded as soon as they are admitted at it. */
  lemma SomeLocal(relays: Relays, addresses: seq<Address>, friends: set<PublicKey>)
    ensures addresses != [] && AdmitAll(AfterSetLocal(relays, Elements(addresses)), Elements(addresses), friends) ==>
              friends <= AllFriends(relays)
  {
    var local := Elements(addresses);
    if addresses != [] && AdmitAll(AfterSetLocal(relays, local), local, friends) {
      var a := addresses[0];
      assert a in local;
      forall f | f in friends ensures f in AllFriends(relays) {
        assert Admits(AfterSetLocal(relays, local), a, f);
        SetLocalAdmits(relays, local, a, f);
      }
    }
  }

  lemma AfterOneMore(pool: Pool, events: seq<LpEvent>, event: LpEvent, backoffTicks: nat)
    ensures AfterEvents(pool, events + [event], backoffTicks)
         == AfterEvent(AfterEvents(pool, events, backoffTicks), event, backoffTicks)
  {
    assert (events + [event])[..|events|] == events;
  }

  /** One friend behind each of two relays: making the first relay local does not let the second friend in. */
  lemma LocalCanLackAFriend(f: PublicKey, g: PublicKey, a: Address, b: Address, backoffTicks: nat)
    requires f != g && a != b
    ensures var events := [Config(UpdateFriend(f, [a]))] + [Config(UpdateFriend(g, [b]))];
            var pool := AfterEvents(EMPTY, events + [Config(SetLocalAddresses([a]))], backoffTicks);
            g in Configured(events) && a in pool.local && !Admits(pool.relays, a, g)
  {
    var first, second := Config(UpdateFriend(f, [a])), Config(UpdateFriend(g, [b]));
    var third := Config(SetLocalAddresses([a]));
    AfterOneMore(EMPTY, [], first, backoffTicks);
    assert [] + [first] == [first];
    AfterOneMore(EMPTY, [first], second, backoffTicks);
    AfterOneMore(EMPTY, [first] + [second], third, backoffTicks);
    var one := AfterEvents(EMPTY, [first], backoffTicks);
    var two := AfterEvents(EMPTY, [first] + [second], backoffTicks);
    UpdateKeepsInv(map[], {}, f, Elements([a]));
    assert Admits(one.relays, a, f);
    UpdateKeepsInv(one.relays, {}, g, Elements([b]));
    EventKeepsAdmission(one, second, backoffTicks, f);
    SetLocalAdmits(two.relays, Elements([a]), a, g);
  }

  /** A friend updated without an address before there is a local one: it is not let in at the first local relay. */
  lemma LocalCanForgetAFriend(f: PublicKey, a: Address, backoffTicks: nat)
    ensures var events := [Config(UpdateFriend(f, []))];
            var pool := AfterEvents(EMPTY, events + [Config(SetLocalAddresses([a]))], backoffTicks);
            f in Configured(events) && a in pool.local && !Admits(pool.relays, a, f)
  {
    var first := Config(UpdateFriend(f, []));
    AfterOneMore(EMPTY, [], first, backoffTicks);
    assert [] + [first] == [first];
    AfterOneMore(EMPTY, [first], Config(SetLocalAddresses([a])), backoffTicks);
    SetLocalAdmits(AfterEvents(EMPTY, [first], backoffTicks).relays, Elements([a]), a, f);
  }

  // ---------------------------------------------------------------- the state of the pool

  /** `s` lists each element of `t` once. */
  ghost predicate ListsOnce(s: seq<Address>, t: set<Address>) {
    (forall i, j :: 0 <= i < j < |s| ==> s[i] != s[j]) && Elements(s) == t
  }

  lemma ListsOnceAppend(s: seq<Address>, t: set<Address>, a: Address)
    requires ListsOnce(s, t) && a !in t
    ensures ListsOnce(s + [a], t + {a})
  {
    assert forall i :: 0 <= i < |s| ==> s[i] in Elements(s);
  }

  /** Visiting `a`: what is wanted outside the rest grows by `a` if it is wanted. */
  lemma ListsNext(s: seq<Address>, want: set<Address>, rest: set<Address>, a: Address)
    requires a in rest && ListsOnce(s, want - rest)
    ensures ListsOnce(if a in want then s + [a] else s, want - (rest - {a}))
  {
    if a in want {
      ListsOnceAppend(s, want - rest, a);
      assert want - (rest - {a}) == want - rest + {a};
    } else {
      assert want - (rest - {a}) == want - rest;
    }
  }

  /** The local addresses without a relay. */
  method FindMissing(local: set<Address>, relays: Relays) returns (missing: seq<Address>)
    ensures ListsOnce(missing, local - relays.Keys)
  {
    missing := [];
    var rest := local;
    ghost var want := local - relays.Keys;
    while rest != {}
      invariant rest <= local && ListsOnce(missing, want - rest)
      decreases |rest|
    {
      var address :| address in rest;
      ListsNext(missing, want, rest, address);
      rest := rest - {address};
      if address !in relays {
        missing := missing + [address];
      }
    }
    assert want - rest == want;
  }

  method CollectFriends(relays: Relays) returns (friends: set<PublicKey>)
    ensures friends == AllFriends(relays)
  {
    friends := {};
    var rest := relays.Keys;
    while rest != {}
      invariant rest <= relays.Keys
      invariant friends == set a, f | a in relays.Keys - rest && f in relays[a].friends :: f
      decreases |rest|
    {
      var address :| address in rest;
      friends := friends + relays[address].friends;
      rest := rest - {address};
    }
  }

  /** The relays of `targets` that do not know the friend yet. */
  function ToAdd(relays: Relays, targets: set<Address>, friend: PublicKey): set<Address> {
    set a | a in relays && a in targets && friend !in relays[a].friends
  }

  /** The relays outside `targets` that know the friend. */
  function ToRemove(relays: Relays, targets: set<Address>, friend: PublicKey): set<Address> {
    set a | a in relays && a !in targets && friend in relays[a].friends
  }

  /** The relays with the friend entered at those of `done`. */
  function Entered(relays: Relays, done: set<Address>, friend: PublicKey): Relays {
    map a | a in relays :: if a in done then relays[a].(friends := relays[a].friends + {friend}) else relays[a]
  }

  lemma EnteredNext(relays: Relays, done: set<Address>, friend: PublicKey, a: Address)
    requires a !in done
    ensures Entered(relays, done + {a}, friend)
         == if a in relays && friend !in relays[a].friends
            then Entered(relays, done, friend)[a := relays[a].(friends := relays[a].friends + {friend})]
            else Entered(relays, done, friend)
  {
    if a in relays && friend in relays[a].friends {
      assert relays[a].friends + {friend} == relays[a].friends;
    }
  }

  /** The first loop of `update_friend`. */
  method EnterFriend(relays: Relays, targets: set<Address>, friend: PublicKey)
    returns (entered: Relays, add: seq<Address>, spawn: seq<Address>)
    ensures entered == Entered(relays, targets, friend)
    ensures ListsOnce(add, ToAdd(relays, targets, friend)) && ListsOnce(spawn, targets - relays.Keys)
  {
    entered, add, spawn := relays, [], [];
    var rest := targets;
    ghost var wantAdd, wantSpawn := ToAdd(relays, targets, friend), targets - relays.Keys;
    while rest != {}
      invariant rest <= targets && entered == Entered(relays, targets - rest, friend)
      invariant ListsOnce(add, wantAdd - rest) && ListsOnce(spawn, wantSpawn - rest)
      decreases |rest|
    {
      var address :| address in rest;
      ListsNext(add, wantAdd, rest, address);
      ListsNext(spawn, wantSpawn, rest, address);
      EnteredNext(relays, targets - rest, friend, address);
      assert targets - (rest - {address}) == targets - rest + {address};
      rest := rest - {address};
      if address in entered {
        if friend !in entered[address].friends {
          add := add + [address];
          entered := entered[address := entered[address].(friends := entered[address].friends + {friend})];
        }
      } else {
        spawn := spawn + [address];
      }
    }
    assert wantAdd - rest == wantAdd && wantSpawn - rest == wantSpawn && targets - rest == targets;
  }

  /** The relays outside `targets` from which the friend has to be removed. */
  method FindKnowing(relays: Relays, targets: set<Address>, friend: PublicKey) returns (knowing: seq<Address>)
    ensures ListsOnce(knowing, ToRemove(relays, targets, friend))
  {
    knowing := [];
    var rest := relays.Keys;
    ghost var want := ToRemove(relays, targets, friend);
    while rest != {}
      invariant rest <= relays.Keys && ListsOnce(knowing, want - rest)
      decreases |rest|
    {
      var address :| address in rest;
      ListsNext(knowing, want, rest, address);
      rest := rest - {address};
      if address in targets || friend !in relays[address].friends {
        continue;
      }
      knowing := knowing + [address];
    }
    assert want - rest == want;
  }

  /** What `retain` leaves when the friend is dropped outside `targets`. */
  function Dropped(relays: Relays, targets: set<Address>, friend: PublicKey): Relays {
    map a | a in relays && (a in targets || relays[a].friends - {friend} != {}) ::
      if a in targets then relays[a] else relays[a].(friends := relays[a].friends - {friend})
  }

  class ListenPoolState {
    var relays: Relays
    var localAddresses: set<Address>

    constructor ()
      ensures relays == map[] && localAddresses == {}
    {
      relays, localAddresses := map[], {};
    }

    method SetLocalAddresses(addresses: seq<Address>)
      returns (relayFriends: set<PublicKey>, newAddresses: seq<Address>)
      modifies this
      ensures localAddresses == Elements(addresses) && relays == Needed(old(relays), localAddresses)
      ensures relayFriends == AllFriends(relays)
      ensures ListsOnce(newAddresses, localAddresses - relays.Keys)
    {
      localAddresses := Elements(addresses);
      relays := Needed(relays, localAddresses);
      newAddresses := FindMissing(localAddresses, relays);
      relayFriends := CollectFriends(relays);
    }

    method UpdateFriend(friend: PublicKey, addresses: seq<Address>)
      returns (relaysAdd: seq<Address>, relaysRemove: seq<Address>, relaysSpawn: seq<Address>)
      modifies this`relays
      ensures var targets := Elements(addresses) + localAddresses;
              && relays == Dropped(Entered(old(relays), targets, friend), targets, friend)
              && ListsOnce(relaysAdd, ToAdd(old(relays), targets, friend))
              && ListsOnce(relaysRemove, ToRemove(old(relays), targets, friend))
              && ListsOnce(relaysSpawn, targets - old(relays).Keys)
    {
      var targets := Elements(addresses) + localAddresses;
      var entered;
      entered, relaysAdd, relaysSpawn := EnterFriend(relays, targets, friend);
      relaysRemove := FindKnowing(entered, targets, friend);
      assert ToRemove(entered, targets, friend) == ToRemove(relays, targets, friend);
      relays := Dropped(entered, targets, friend);
    }

    method RemoveFriend(friend: PublicKey) returns (relaysRemove: seq<Address>)
      modifies this`relays
      ensures relays == Needed(Dismissed(old(relays), friend), localAddresses)
      ensures ListsOnce(relaysRemove, ToRemove(old(relays), {}, friend))
    {
      relaysRemove := FindKnowing(relays, {}, friend);
      relays := Needed(Dismissed(relays, friend), localAddresses);
    }
  }

  /** The relays without the friend. */
  function Dismissed(relays: Relays, friend: PublicKey): Relays {
    map a | a in relays :: relays[a].(friends := relays[a].friends - {friend})
  }

  // ---------------------------------------------------------------- the pool

  /** The relays after an operation was sent to the listeners of `addresses`. */
  function SentTo(relays: Relays, addresses: set<Address>, op: AccessControlOp): Relays {
    map a | a in relays :: if a in addresses then Sent(relays[a], op) else relays[a]
  }

  function Spawned(relays: Relays, addresses: set<Address>, friends: set<PublicKey>): Relays {
    map a | a in relays.Keys + addresses :: if a in addresses then NewRelay(friends) else relays[a]
  }

  lemma NothingChanged(relay: Relay, friend: PublicKey)
    ensures friend in relay.friends ==> relay.(friends := relay.friends + {friend}) == relay
    ensures friend !in relay.friends ==> relay.(friends := relay.friends - {friend}) == relay
  {
    if friend in relay.friends {
      assert relay.friends + {friend} == relay.friends;
    } else {
      assert relay.friends - {friend} == relay.friends;
    }
  }

  /** The old relays after an update of the friend. */
  function Told(relays: Relays, targets: set<Address>, friend: PublicKey): Relays {
    map a | a in relays && (a in targets || relays[a].friends - {friend} != {}) ::
      if a in targets then Granted(relays[a], friend) else Revoked(relays[a], friend)
  }

  /** What `update_friend` records, told to the listeners that have to know. */
  lemma UpdateTold(relays: Relays, targets: set<Address>, friend: PublicKey)
    ensures var recorded := Dropped(Entered(relays, targets, friend), targets, friend);
            var added := SentTo(recorded, ToAdd(relays, targets, friend), Add(friend));
            SentTo(added, ToRemove(relays, targets, friend), Remove(friend)) == Told(relays, targets, friend)
  {
    forall a | a in relays {
      NothingChanged(relays[a], friend);
    }
  }

  lemma UpdateSteps(relays: Relays, local: set<Address>, friend: PublicKey, addresses: set<Address>)
    ensures var targets := addresses + local;
            var recorded := Dropped(Entered(relays, targets, friend), targets, friend);
            var added := SentTo(recorded, ToAdd(relays, targets, friend), Add(friend));
            var removed := SentTo(added, ToRemove(relays, targets, friend), Remove(friend));
            Spawned(removed, targets - relays.Keys, {friend}) == AfterUpdate(relays, local, friend, addresses)
  {
    UpdateTold(relays, addresses + local, friend);
  }

  lemma RemoveSteps(relays: Relays, local: set<Address>, friend: PublicKey)
    ensures SentTo(Needed(Dismissed(relays, friend), local), ToRemove(relays, {}, friend), Remove(friend))
         == AfterRemove(relays, local, friend)
  {
    forall a | a in relays {
      NothingChanged(relays[a], friend);
    }
  }

  lemma SetLocalSteps(relays: Relays, local: set<Address>)
    ensures var kept := Needed(relays, local);
            Spawned(kept, local - kept.Keys, AllFriends(kept)) == AfterSetLocal(relays, local)
  {
  }

  /** A waiting relay counts down. */
  function Counted(relay: Relay): Relay {
    match relay.status
    case Connected(_) => relay
    case Waiting(ticks) => relay.(status := Waiting(if ticks > 0 then ticks - 1 else 0))
  }

  function CountedAt(relays: Relays, done: set<Address>): Relays {
    map a | a in relays :: if a in done then Counted(relays[a]) else relays[a]
  }

  lemma CountedNext(relays: Relays, done: set<Address>, a: Address)
    requires a in relays && a !in done
    ensures CountedAt(relays, done)[a] == relays[a]
    ensures CountedAt(relays, done + {a}) == CountedAt(relays, done)[a := Counted(relays[a])]
  {
  }

  /** The relays whose time is up. */
  function Due(relays: Relays): set<Address> {
    set a | a in relays && relays[a].status.Waiting? && relays[a].status.ticks <= 1
  }

  method CountDown(relays: Relays) returns (counted: Relays, due: seq<Address>)
    ensures counted == CountedAt(relays, relays.Keys) && ListsOnce(due, Due(relays))
  {
    counted, due := relays, [];
    var rest := relays.Keys;
    ghost var want := Due(relays);
    while rest != {}
      invariant rest <= relays.Keys && counted == CountedAt(relays, relays.Keys - rest) && ListsOnce(due, want - rest)
      decreases |rest|
    {
      var address :| address in rest;
      ListsNext(due, want, rest, address);
      CountedNext(relays, relays.Keys - rest, address);
      assert relays.Keys - (rest - {address}) == relays.Keys - rest + {address};
      rest := rest - {address};
      match counted[address].status
      case Connected(_) => assert counted[address := counted[address]] == counted;
      case Waiting(ticks) =>
        var remaining := if ticks > 0 then ticks - 1 else 0;
        counted := counted[address := counted[address].(status := Waiting(remaining))];
        if remaining == 0 {
          due := due + [address];
        }
    }
    assert want - rest == want && relays.Keys - rest == relays.Keys;
  }

  lemma TickSteps(relays: Relays, due: set<Address>)
    requires due == Due(relays)
    ensures var counted := CountedAt(relays, relays.Keys);
            AfterTick(relays) == map a | a in counted :: if a in due then NewRelay(counted[a].friends) else counted[a]
  {
  }

  class ListenPool {
    const state: ListenPoolState
    const backoffTicks: nat

    ghost function View(): Pool
      reads state
    {
      Pool(state.relays, state.localAddresses)
    }

    constructor (backoffTicks: nat)
      ensures View() == Pool(map[], {}) && this.backoffTicks == backoffTicks && fresh(state)
    {
      state := new ListenPoolState();
      this.backoffTicks := backoffTicks;
    }

    /** Starts a listener whose access control is filled friend by friend. */
    method SpawnListen(relayFriends: set<PublicKey>) returns (listener: Listener)
      ensures listener == Listener(relayFriends, [])
    {
      var accessControl := new AccessControl();
      var rest := relayFriends;
      while rest != {}
        invariant rest <= relayFriends && fresh(accessControl) && accessControl.allowed == relayFriends - rest
        decreases |rest|
      {
        var friend :| friend in rest;
        accessControl.ApplyOp(Add(friend));
        rest := rest - {friend};
      }
      listener := Listener(accessControl.allowed, []);
    }

    method SendTo(addresses: seq<Address>, op: AccessControlOp)
      requires ListsOnce(addresses, Elements(addresses))
      modifies state`relays
      ensures state.relays == SentTo(old(state.relays), Elements(addresses), op)
    {
      ghost var before := state.relays;
      assert SentTo(before, Elements([]), op) == before;
      for i := 0 to |addresses|
        invariant state.relays == SentTo(before, Elements(addresses[..i]), op)
      {
        var address := addresses[i];
        assert Elements(addresses[..i + 1]) == Elements(addresses[..i]) + {address};
        assert address !in addresses[..i];
        if address in state.relays {
          state.relays := state.relays[address := Sent(state.relays[address], op)];
        }
      }
      assert addresses[..|addresses|] == addresses;
    }

    method SpawnAll(addresses: seq<Address>, friends: set<PublicKey>)
      modifies state`relays
      ensures state.relays == Spawned(old(state.relays), Elements(addresses), friends)
    {
      ghost var before := state.relays;
      assert Spawned(before, Elements([]), friends) == before;
      for i := 0 to |addresses|
        invariant state.relays == Spawned(before, Elements(addresses[..i]), friends)
      {
        assert Elements(addresses[..i + 1]) == Elements(addresses[..i]) + {addresses[i]};
        var listener := SpawnListen(friends);
        state.relays := state.relays[addresses[i] := Relay(friends, Connected(listener))];
      }
      assert addresses[..|addresses|] == addresses;
    }

    method HandleConfig(config: LpConfig)
      modifies state
      ensures View() == AfterConfig(old(View()), config)
    {
      match config
      case SetLocalAddresses(localAddresses) =>
        SetLocalSteps(state.relays, Elements(localAddresses));
        var relayFriends, addresses := state.SetLocalAddresses(localAddresses);
        SpawnAll(addresses, relayFriends);
      case UpdateFriend(friend, addresses) =>
        UpdateSteps(state.relays, state.localAddresses, friend, Elements(addresses));
        var relaysAdd, relaysRemove, relaysSpawn := state.UpdateFriend(friend, addresses);
        SendTo(relaysAdd, Add(friend));
        SendTo(relaysRemove, Remove(friend));
        SpawnAll(relaysSpawn, {friend});
      case RemoveFriend(friend) =>
        RemoveSteps(state.relays, state.localAddresses, friend);
        var removeRelays := state.RemoveFriend(friend);
        SendTo(removeRelays, Remove(friend));
    }

    method HandleRelayClosed(address: Address)
      modifies state`relays
      ensures state.relays == AfterClosed(old(state.relays), address, backoffTicks)
    {
      if address in state.relays {
        state.relays := state.relays[address := state.relays[address].(status := Waiting(backoffTicks))];
      }
    }

    method HandleTimerTick()
      modifies state`relays
      ensures state.relays == AfterTick(old(state.relays))
    {
      var counted, due := CountDown(state.relays);
      TickSteps(state.relays, Elements(due));
      state.relays := counted;
      for i := 0 to |due|
        invariant state.relays ==
                  map a | a in counted :: if a in due[..i] then NewRelay(counted[a].friends) else counted[a]
      {
        var address := due[i];
        assert address in Elements(due);
        assert due[..i + 1] == due[..i] + [address];
        assert address !in due[..i];
        var listener := SpawnListen(state.relays[address].friends);
        state.relays := state.relays[address := state.relays[address].(status := Connected(listener))];
      }
      assert due[..|due|] == due;
    }
  }

  /** The event loop, with the closing of a channel at the end of the events. */
  method ListenPoolLoop(events: seq<LpEvent>, backoffTicks: nat) returns (final: Pool)
    ensures final == AfterEvents(EMPTY, events, backoffTicks)
    ensures Inv(final.relays, final.local)
  {
    var pool := new ListenPool(backoffTicks);
    for i := 0 to |events|
      invariant fresh(pool) && fresh(pool.state) && pool.backoffTicks == backoffTicks
      invariant pool.View() == AfterEvents(EMPTY, events[..i], backoffTicks)
    {
      assert events[..i + 1][..i] == events[..i];
      match events[i]
      case Config(config) => pool.HandleConfig(config);
      case RelayClosed(address) => pool.HandleRelayClosed(address);
      case TimerTick => pool.HandleTimerTick();
    }
    assert events[..|events|] == events;
    RunKeepsInv(events, backoffTicks);
    final := Pool(pool.state.relays, pool.state.localAddresses);
  }
}

/** Keeping an idle connection alive (components/keepalive/src/keepalive.rs).

    Two endpoints run the same event loop over a reliable channel in each direction. Their timers tick together, and
    a message stays under way for at most `d` ticks. */
module Keepalive {
  datatype KaMessage = KeepAlive | Message(payload: nat)

  /** The two counters of the event loop. */
  datatype Counters = Counters(toClose: nat, toSend: nat)

  datatype Event = FromRemote(message: KaMessage) | FromUser(payload: nat) | TimerTick | Closed

  /** What handling an event does. */
  datatype Effect = Effect(counters: Counters, toRemote: seq<KaMessage>, toUser: seq<nat>, timeout: bool)

  function Start(k: nat): Counters {
    Counters(k, k / 2)
  }

  function SaturatingPred(n: nat): nat {
    if n == 0 then 0 else n - 1
  }

  function OnRemote(k: nat, c: Counters, m: KaMessage): Effect {
    Effect(c.(toClose := k), [], if m.Message? then [m.payload] else [], false)
  }

  function OnUser(k: nat, c: Counters, payload: nat): Effect {
    Effect(c.(toSend := k / 2), [Message(payload)], [], false)
  }

  function OnTick(k: nat, c: Counters): Effect {
    var next := Counters(SaturatingPred(c.toClose), SaturatingPred(c.toSend));
    if next.toClose == 0 then Effect(next, [], [], true)
    else if next.toSend == 0 then Effect(next.(toSend := k / 2), [KeepAlive], [], false)
    else Effect(next, [], [], false)
  }

  function OnEvent(k: nat, c: Counters, e: Event): Effect
    requires !e.Closed?
  {
    match e
    case FromRemote(m) => OnRemote(k, c, m)
    case FromUser(payload) => OnUser(k, c, payload)
    case TimerTick => OnTick(k, c)
  }

  // ---------------------------------------------------------------- one endpoint

  /** The events before the loop ends: up to the first closed channel or timeout. */
  function Handled(k: nat, c: Counters, events: seq<Event>): (r: Effect)
    decreases |events|
  {
    if events == [] || events[0].Closed? then Effect(c, [], [], false)
    else
      var first := OnEvent(k, c, events[0]);
      if first.timeout then first
      else
        var rest := Handled(k, first.counters, events[1..]);
        Effect(rest.counters, first.toRemote + rest.toRemote, first.toUser + rest.toUser, rest.timeout)
  }

  function Ticks(events: seq<Event>): nat {
    if events == [] then 0 else (if events[0].TimerTick? then 1 else 0) + Ticks(events[1..])
  }

  /** The ticks between two keepalives of a silent endpoint. */
  function HalfPeriod(k: nat): (h: nat)
    ensures h >= 1
  {
    if k < 2 then 1 else k / 2
  }

  /** Nothing from the user, and nothing is closed. */
  predicate Quiet(events: seq<Event>) {
    forall i :: 0 <= i < |events| ==> events[i].FromRemote? || events[i].TimerTick?
  }

  /** Nothing but keepalives: one for each half period within `ticks`. */
  predicate OnePerHalfPeriod(k: nat, ticks: nat, messages: seq<KaMessage>) {
    && (forall i :: 0 <= i < |messages| ==> messages[i] == KeepAlive)
    && |messages| * HalfPeriod(k) <= ticks < (|messages| + 1) * HalfPeriod(k)
  }

  lemma OnePeriodMore(k: nat, ticks: nat, messages: seq<KaMessage>)
    requires OnePerHalfPeriod(k, ticks, messages)
    ensures OnePerHalfPeriod(k, HalfPeriod(k) + ticks, [KeepAlive] + messages)
  {
    var n, h := |messages|, HalfPeriod(k);
    assert (n + 1) * h == n * h + h && (n + 2) * h == (n + 1) * h + h;
  }

  /** An endpoint that last sent something `since` ticks ago sends a keepalive whenever a half period is over. */
  lemma {:induction false} QuietSends(k: nat, c: Counters, events: seq<Event>, since: nat)
    requires Quiet(events) && since < HalfPeriod(k) && c.toSend == k / 2 - since
    ensures var r := Handled(k, c, events);
            !r.timeout ==> OnePerHalfPeriod(k, since + Ticks(events), r.toRemote)
    decreases |events|
  {
    if events != [] {
      var first := OnEvent(k, c, events[0]);
      var rest := events[1..];
      if !first.timeout {
        if first.toRemote != [] {
          QuietSends(k, first.counters, rest, 0);
          if !Handled(k, first.counters, rest).timeout {
            OnePeriodMore(k, Ticks(rest), Handled(k, first.counters, rest).toRemote);
          }
        } else {
          QuietSends(k, first.counters, rest, if events[0].TimerTick? then since + 1 else since);
        }
      }
    }
  }

  /** After every message, a user's or a keepalive, a silent endpoint sends the next keepalive exactly half a period
      later, and then one for each half period; it sends none before. */
  lemma KeepaliveEveryHalfPeriod(k: nat, c: Counters, e: Event, quiet: seq<Event>)
    requires !e.Closed? && OnEvent(k, c, e).toRemote != [] && Quiet(quiet)
    ensures var r := Handled(k, OnEvent(k, c, e).counters, quiet);
            !r.timeout ==> OnePerHalfPeriod(k, Ticks(quiet), r.toRemote)
  {
    QuietSends(k, OnEvent(k, c, e).counters, quiet, 0);
  }

  /** How many ticks without a word from the remote side the endpoint bears. */
  function Patience(k: nat): nat {
    if k == 0 then 1 else k
  }

  /** The ticks since the remote side was last heard, after one more event. */
  function Waited(since: nat, e: Event): nat {
    if e.FromRemote? then 0 else if e.TimerTick? then since + 1 else since
  }

  /** The ticks since the remote side was last heard, if it was last heard `since` ticks before the events. */
  function Silence(since: nat, events: seq<Event>): nat
    decreases |events|
  {
    if events == [] then since else Silence(Waited(since, events[0]), events[1..])
  }

  /** At some moment the remote side has been silent for too long. */
  ghost predicate FallsSilent(k: nat, since: nat, events: seq<Event>) {
    exists n :: 0 <= n <= |events| && Silence(since, events[..n]) >= Patience(k)
  }

  function UntilClosed(events: seq<Event>): seq<Event> {
    if events == [] || events[0].Closed? then [] else [events[0]] + UntilClosed(events[1..])
  }

  /** What the remote side's messages tell the user. */
  function Arrived(events: seq<Event>): seq<nat> {
    if events == [] then []
    else (if events[0].FromRemote? && events[0].message.Message? then [events[0].message.payload] else [])
         + Arrived(events[1..])
  }

  /** The messages the user has for the remote side. */
  function Given(events: seq<Event>): seq<nat> {
    if events == [] then []
    else (if events[0].FromUser? then [events[0].payload] else []) + Given(events[1..])
  }

  function UserMessages(messages: seq<KaMessage>): seq<nat> {
    if messages == [] then []
    else (if messages[0].Message? then [messages[0].payload] else []) + UserMessages(messages[1..])
  }

  lemma SilentLater(k: nat, since: nat, events: seq<Event>)
    requires events != [] && since < Patience(k)
    ensures FallsSilent(k, since, events) <==> FallsSilent(k, Waited(since, events[0]), events[1..])
  {
    var next, rest := Waited(since, events[0]), events[1..];
    if FallsSilent(k, since, events) {
      var n :| 0 <= n <= |events| && Silence(since, events[..n]) >= Patience(k);
      assert events[..n][1..] == rest[..n - 1];
      assert Silence(next, rest[..n - 1]) >= Patience(k);
    }
    if FallsSilent(k, next, rest) {
      var n :| 0 <= n <= |rest| && Silence(next, rest[..n]) >= Patience(k);
      assert events[..n + 1][1..] == rest[..n];
      assert Silence(since, events[..n + 1]) >= Patience(k);
    }
  }

  lemma {:induction false} TimesOutIff(k: nat, c: Counters, events: seq<Event>, since: nat)
    requires since < Patience(k) && c.toClose == k - since
    ensures Handled(k, c, events).timeout <==> FallsSilent(k, since, UntilClosed(events))
    decreases |events|
  {
    var live := UntilClosed(events);
    if live != [] {
      SilentLater(k, since, live);
      assert live[1..] == UntilClosed(events[1..]);
      var first, next := OnEvent(k, c, events[0]), Waited(since, events[0]);
      if next < Patience(k) {
        TimesOutIff(k, first.counters, events[1..], next);
      } else {
        assert Silence(next, live[1..][..0]) >= Patience(k);
      }
    }
  }

  lemma {:induction false} UserMessagesConcat(a: seq<KaMessage>, b: seq<KaMessage>)
    ensures UserMessages(a + b) == UserMessages(a) + UserMessages(b)
    decreases |a|
  {
    if a == [] {
      assert a + b == b;
    } else {
      UserMessagesConcat(a[1..], b);
      var first := if a[0].Message? then [a[0].payload] else [];
      assert (a + b)[0] == a[0] && (a + b)[1..] == a[1..] + b;
      assert UserMessages(a + b) == first + UserMessages(a[1..] + b);
      assert first + (UserMessages(a[1..]) + UserMessages(b)) == (first + UserMessages(a[1..])) + UserMessages(b);
    }
  }

  lemma {:induction false} MessagesPass(k: nat, c: Counters, events: seq<Event>)
    ensures var r := Handled(k, c, events);
            !r.timeout ==>
              r.toUser == Arrived(UntilClosed(events)) && UserMessages(r.toRemote) == Given(UntilClosed(events))
    decreases |events|
  {
    if events != [] && !events[0].Closed? {
      var first := OnEvent(k, c, events[0]);
      assert UntilClosed(events)[1..] == UntilClosed(events[1..]);
      if !first.timeout {
        MessagesPass(k, first.counters, events[1..]);
        UserMessagesConcat(first.toRemote, Handled(k, first.counters, events[1..]).toRemote);
      }
    }
  }

  /** `whole` is what was done so far followed by `rest`. */
  ghost predicate Continues(whole: Effect, toRemote: seq<KaMessage>, toUser: seq<nat>, rest: Effect) {
    whole.toRemote == toRemote + rest.toRemote && whole.toUser == toUser + rest.toUser && whole.timeout == rest.timeout
  }

  lemma HandledNext(k: nat, c: Counters, events: seq<Event>, whole: Effect, toRemote: seq<KaMessage>, toUser: seq<nat>)
    requires events != [] && !events[0].Closed? && Continues(whole, toRemote, toUser, Handled(k, c, events))
    ensures var first := OnEvent(k, c, events[0]);
            if first.timeout then Continues(whole, toRemote, toUser, first)
            else Continues(whole, toRemote + first.toRemote, toUser + first.toUser,
                           Handled(k, first.counters, events[1..]))
  {
  }

  /** The body of the event loop. */
  method HandleEvent(event: Event, keepaliveTicks: nat, counters: Counters) returns (effect: Effect)
    requires !event.Closed?
    ensures effect == OnEvent(keepaliveTicks, counters, event)
  {
    var ticksToClose, ticksToSendKeepalive := counters.toClose, counters.toSend;
    var toRemote, toUser := [], [];
    match event {
      case FromRemote(message) =>
        ticksToClose := keepaliveTicks;
        if message.Message? {
          toUser := toUser + [message.payload];
        }
      case FromUser(payload) =>
        toRemote := toRemote + [Message(payload)];
        ticksToSendKeepalive := keepaliveTicks / 2;
      case TimerTick =>
        ticksToClose := SaturatingPred(ticksToClose);
        ticksToSendKeepalive := SaturatingPred(ticksToSendKeepalive);
        if ticksToClose == 0 {
          return Effect(Counters(ticksToClose, ticksToSendKeepalive), toRemote, toUser, true);
        }
        if ticksToSendKeepalive == 0 {
          toRemote := toRemote + [KeepAlive];
          ticksToSendKeepalive := keepaliveTicks / 2;
        }
    }
    effect := Effect(Counters(ticksToClose, ticksToSendKeepalive), toRemote, toUser, false);
  }

  /** The event loop. */
  method InnerKeepaliveLoop(events: seq<Event>, keepaliveTicks: nat)
    returns (toRemote: seq<KaMessage>, toUser: seq<nat>, timeout: bool)
    ensures var r := Handled(keepaliveTicks, Start(keepaliveTicks), events);
            toRemote == r.toRemote && toUser == r.toUser && timeout == r.timeout
    ensures timeout <==> FallsSilent(keepaliveTicks, 0, UntilClosed(events))
    ensures !timeout ==> toUser == Arrived(UntilClosed(events)) && UserMessages(toRemote) == Given(UntilClosed(events))
  {
    TimesOutIff(keepaliveTicks, Start(keepaliveTicks), events, 0);
    MessagesPass(keepaliveTicks, Start(keepaliveTicks), events);
    toRemote, toUser := [], [];
    var counters := Counters(keepaliveTicks, keepaliveTicks / 2);
    ghost var whole := Handled(keepaliveTicks, Start(keepaliveTicks), events);
    var rest := events;
    while rest != []
      invariant Continues(whole, toRemote, toUser, Handled(keepaliveTicks, counters, rest))
      decreases |rest|
    {
      if rest[0].Closed? {
        break;
      }
      HandledNext(keepaliveTicks, counters, rest, whole, toRemote, toUser);
      var effect := HandleEvent(rest[0], keepaliveTicks, counters);
      toRemote, toUser := toRemote + effect.toRemote, toUser + effect.toUser;
      if effect.timeout {
        return toRemote, toUser, true;
      }
      counters, rest := effect.counters, rest[1..];
    }
    timeout := false;
  }

  // ---------------------------------------------------------------- two endpoints

  /** A message under way and the ticks since it was sent. */
  datatype Flight = Flight(message: KaMessage, age: nat)

  /** One direction: the messages under way, oldest first, and what the users sent and got. */
  datatype Link = Link(flights: seq<Flight>, sent: seq<nat>, got: seq<nat>)

  datatype Side = A | B

  datatype Net = Net(a: Counters, b: Counters, ab: Link, ba: Link, timeout: bool)

  datatype Action = UserSends(side: Side, payload: nat) | Delivered(side: Side) | Tick

  function Init(k: nat): Net {
    Net(Start(k), Start(k), Link([], [], []), Link([], [], []), false)
  }

  /** A message arrives before it is older than `d` ticks, so time waits for it. */
  predicate Enabled(d: nat, net: Net, action: Action) {
    && !net.timeout
    && match action
       case UserSends(_, _) => true
       case Delivered(A) => net.ba.flights != []
       case Delivered(B) => net.ab.flights != []
       case Tick =>
         && (forall f :: f in net.ab.flights ==> f.age < d)
         && (forall f :: f in net.ba.flights ==> f.age < d)
  }

  function Departing(messages: seq<KaMessage>): seq<Flight> {
    seq(|messages|, i requires 0 <= i < |messages| => Flight(messages[i], 0))
  }

  function Aged(flights: seq<Flight>): seq<Flight> {
    seq(|flights|, i requires 0 <= i < |flights| => Flight(flights[i].message, flights[i].age + 1))
  }

  function UserStep(k: nat, c: Counters, link: Link, payload: nat): (Counters, Link) {
    var e := OnUser(k, c, payload);
    (e.counters, link.(flights := link.flights + Departing(e.toRemote), sent := link.sent + [payload]))
  }

  function DeliverStep(k: nat, c: Counters, link: Link): (Counters, Link)
    requires link.flights != []
  {
    var e := OnRemote(k, c, link.flights[0].message);
    (e.counters, link.(flights := link.flights[1..], got := link.got + e.toUser))
  }

  function Step(k: nat, d: nat, net: Net, action: Action): Net
    requires Enabled(d, net, action)
  {
    match action
    case UserSends(A, payload) => var (a, ab) := UserStep(k, net.a, net.ab, payload); net.(a := a, ab := ab)
    case UserSends(B, payload) => var (b, ba) := UserStep(k, net.b, net.ba, payload); net.(b := b, ba := ba)
    case Delivered(A) => var (a, ba) := DeliverStep(k, net.a, net.ba); net.(a := a, ba := ba)
    case Delivered(B) => var (b, ab) := DeliverStep(k, net.b, net.ab); net.(b := b, ab := ab)
    case Tick =>
      var a, b := OnTick(k, net.a), OnTick(k, net.b);
      Net(a.counters, b.counters,
          net.ab.(flights := Aged(net.ab.flights) + Departing(a.toRemote)),
          net.ba.(flights := Aged(net.ba.flights) + Departing(b.toRemote)),
          a.timeout || b.timeout)
  }

  // ---------------------------------------------------------------- what one direction keeps

  /** The payloads of the user messages under way. */
  function Payloads(flights: seq<Flight>): seq<nat> {
    if flights == [] then []
    else (if flights[0].message.Message? then [flights[0].message.payload] else []) + Payloads(flights[1..])
  }

  /** The receiver's time since it heard something is covered: by the time since the sender spoke last, or else by
      one sending period and the age of the oldest message under way. */
  predicate LinkInv(k: nat, d: nat, toSend: nat, link: Link, toClose: nat) {
    && 1 <= toSend <= k / 2 && 1 <= toClose <= k
    && (forall f :: f in link.flights ==> f.age <= d)
    && (link.flights == [] ==> k - toClose <= k / 2 - toSend)
    && (link.flights != [] ==> k - toClose <= k / 2 + link.flights[0].age)
    && link.sent == link.got + Payloads(link.flights)
  }

  predicate Inv(k: nat, d: nat, net: Net) {
    && !net.timeout
    && LinkInv(k, d, net.a.toSend, net.ab, net.b.toClose)
    && LinkInv(k, d, net.b.toSend, net.ba, net.a.toClose)
  }

  lemma {:induction false} PayloadsConcat(f: seq<Flight>, g: seq<Flight>)
    ensures Payloads(f + g) == Payloads(f) + Payloads(g)
    decreases |f|
  {
    if f == [] {
      assert f + g == g;
    } else {
      PayloadsConcat(f[1..], g);
      var first := if f[0].message.Message? then [f[0].message.payload] else [];
      assert (f + g)[0] == f[0] && (f + g)[1..] == f[1..] + g;
      assert Payloads(f + g) == first + Payloads(f[1..] + g);
      assert first + (Payloads(f[1..]) + Payloads(g)) == (first + Payloads(f[1..])) + Payloads(g);
    }
  }

  lemma {:induction false} PayloadsAged(f: seq<Flight>)
    ensures Payloads(Aged(f)) == Payloads(f)
    decreases |f|
  {
    if f != [] {
      PayloadsAged(f[1..]);
      assert Aged(f)[1..] == Aged(f[1..]);
    }
  }

  lemma TickKeepsLink(k: nat, d: nat, sender: Counters, link: Link, receiver: Counters)
    requires k >= 2 && k / 2 + d < k
    requires LinkInv(k, d, sender.toSend, link, receiver.toClose)
    requires forall f :: f in link.flights ==> f.age < d
    ensures receiver.toClose > 1
    ensures sender.toClose > 1 ==>
              var s := OnTick(k, sender);
              LinkInv(k, d, s.counters.toSend, link.(flights := Aged(link.flights) + Departing(s.toRemote)),
                      receiver.toClose - 1)
  {
    PayloadsAged(link.flights);
    PayloadsConcat(Aged(link.flights), Departing(OnTick(k, sender).toRemote));
    if link.flights != [] {
      assert link.flights[0] in link.flights;
    }
    if sender.toClose > 1 {
      TickAges(k, d, link.flights, OnTick(k, sender).toRemote);
    }
  }

  lemma TickAges(k: nat, d: nat, flights: seq<Flight>, messages: seq<KaMessage>)
    requires forall f :: f in flights ==> f.age < d
    ensures forall f :: f in Aged(flights) + Departing(messages) ==> f.age <= d
    ensures messages == [] || messages == [KeepAlive] ==> Payloads(Departing(messages)) == []
  {
    forall f | f in Aged(flights) ensures f.age <= d {
      var i :| 0 <= i < |flights| && Aged(flights)[i] == f;
      assert flights[i] in flights;
    }
    if messages == [KeepAlive] {
      assert Departing(messages) == [Flight(KeepAlive, 0)];
      assert Departing(messages)[1..] == [];
    } else if messages == [] {
      assert Departing(messages) == [];
    }
  }

  lemma UserKeepsLink(k: nat, d: nat, sender: Counters, link: Link, toClose: nat, payload: nat)
    requires k >= 2 && LinkInv(k, d, sender.toSend, link, toClose)
    ensures var (s, l) := UserStep(k, sender, link, payload); LinkInv(k, d, s.toSend, l, toClose)
  {
    var departing := Departing([Message(payload)]);
    assert departing == [Flight(Message(payload), 0)] && departing[1..] == [];
    assert Payloads(departing) == [payload];
    PayloadsConcat(link.flights, departing);
  }

  lemma DeliverKeepsLink(k: nat, d: nat, toSend: nat, link: Link, receiver: Counters)
    requires k >= 2 && LinkInv(k, d, toSend, link, receiver.toClose) && link.flights != []
    ensures var (r, l) := DeliverStep(k, receiver, link); LinkInv(k, d, toSend, l, r.toClose)
  {
  }

  lemma TickKeepsInv(k: nat, d: nat, net: Net)
    requires k >= 2 && k / 2 + d < k
    requires Inv(k, d, net) && Enabled(d, net, Tick)
    ensures Inv(k, d, Step(k, d, net, Tick))
  {
    TickKeepsLink(k, d, net.a, net.ab, net.b);
    TickKeepsLink(k, d, net.b, net.ba, net.a);
  }

  lemma StepKeepsInv(k: nat, d: nat, net: Net, action: Action)
    requires k >= 2 && k / 2 + d < k
    requires Inv(k, d, net) && Enabled(d, net, action)
    ensures Inv(k, d, Step(k, d, net, action))
  {
    match action
    case UserSends(A, payload) => UserKeepsLink(k, d, net.a, net.ab, net.b.toClose, payload);
    case UserSends(B, payload) => UserKeepsLink(k, d, net.b, net.ba, net.a.toClose, payload);
    case Delivered(A) => DeliverKeepsLink(k, d, net.b.toSend, net.ba, net.a);
    case Delivered(B) => DeliverKeepsLink(k, d, net.a.toSend, net.ab, net.b);
    case Tick => TickKeepsInv(k, d, net);
  }

  // ---------------------------------------------------------------- runs

  /** A net that some run of enabled actions reaches. */
  ghost predicate Reaches(k: nat, d: nat, net: Net, actions: seq<Action>, last: Net)
    decreases |actions|
  {
    if actions == [] then last == net
    else Enabled(d, net, actions[0]) && Reaches(k, d, Step(k, d, net, actions[0]), actions[1..], last)
  }

  lemma {:induction false} RunKeepsInv(k: nat, d: nat, net: Net, actions: seq<Action>, last: Net)
    requires k >= 2 && k / 2 + d < k && Inv(k, d, net) && Reaches(k, d, net, actions, last)
    ensures Inv(k, d, last)
    decreases |actions|
  {
    if actions != [] {
      StepKeepsInv(k, d, net, actions[0]);
      RunKeepsInv(k, d, Step(k, d, net, actions[0]), actions[1..], last);
    }
  }

  /** The users' messages arrive in the order they were sent, none lost or repeated, and no endpoint times out. */
  lemma QuietConnectionStaysOpen(k: nat, d: nat, actions: seq<Action>, last: Net)
    requires k >= 2 && k / 2 + d < k && Reaches(k, d, Init(k), actions, last)
    ensures !last.timeout
    ensures last.ab.sent == last.ab.got + Payloads(last.ab.flights)
    ensures last.ba.sent == last.ba.got + Payloads(last.ba.flights)
  {
    RunKeepsInv(k, d, Init(k), actions, last);
  }

  /** The net after `n` ticks without users and deliveries: each side counts down, and the oldest message has been
      under way since the end of the first sending period. */
  predicate Idle(k: nat, net: Net, n: nat) {
    && !net.timeout && n < k
    && net.a == net.b && net.ab == net.ba
    && net.a.toClose == k - n && 1 <= net.a.toSend <= k / 2
    && (n < k / 2 ==> net.ab.flights == [] && net.a.toSend == k / 2 - n)
    && (n >= k / 2 ==> net.ab.flights != [] && forall f :: f in net.ab.flights ==> f.age <= n - k / 2)
  }

  lemma IdleTick(k: nat, d: nat, net: Net, n: nat)
    requires k >= 2 && k / 2 + d >= k && Idle(k, net, n)
    ensures Enabled(d, net, Tick)
    ensures n + 1 < k ==> Idle(k, Step(k, d, net, Tick), n + 1)
    ensures n + 1 == k ==> Step(k, d, net, Tick).timeout
  {
    if n >= k / 2 {
      TickAges(k, n - k / 2 + 1, net.ab.flights, OnTick(k, net.a).toRemote);
    }
    if n + 1 < k {
      var flights := Aged(net.ab.flights) + Departing(OnTick(k, net.a).toRemote);
      assert Step(k, d, net, Tick).ab.flights == flights;
      if n + 1 == k / 2 {
        assert OnTick(k, net.a).toRemote == [KeepAlive];
        assert flights[0] == Flight(KeepAlive, 0);
      }
    }
  }

  lemma {:induction false} IdleTimesOut(k: nat, d: nat, net: Net, n: nat) returns (actions: seq<Action>, last: Net)
    requires k >= 2 && k / 2 + d >= k && Idle(k, net, n)
    ensures Reaches(k, d, net, actions, last) && last.timeout
    decreases k - n
  {
    IdleTick(k, d, net, n);
    var next := Step(k, d, net, Tick);
    if n + 1 < k {
      var rest;
      rest, last := IdleTimesOut(k, d, next, n + 1);
      actions := [Tick] + rest;
      assert actions[1..] == rest;
    } else {
      actions, last := [Tick], next;
      assert actions[1..] == [];
    }
  }

  lemma ShortPeriodTimesOut(k: nat, d: nat) returns (actions: seq<Action>, last: Net)
    requires k < 2
    ensures Reaches(k, d, Init(k), actions, last) && last.timeout
  {
    actions, last := [Tick], Step(k, d, Init(k), Tick);
    assert actions[1..] == [];
  }

  /** Some run ends in a timeout. */
  ghost predicate CanTimeOut(k: nat, d: nat) {
    exists actions, last :: Reaches(k, d, Init(k), actions, last) && last.timeout
  }

  /** No run ever times out if and only if there are at least two ticks to a period and half a period together with
      the delay is shorter than a whole one. */
  lemma NeverTimesOutIff(k: nat, d: nat)
    ensures !CanTimeOut(k, d) <==> k >= 2 && k / 2 + d < k
  {
    if k >= 2 && k / 2 + d < k {
      forall actions, last | Reaches(k, d, Init(k), actions, last) ensures !last.timeout {
        QuietConnectionStaysOpen(k, d, actions, last);
      }
    } else if k >= 2 {
      var actions, last := IdleTimesOut(k, d, Init(k), 0);
      assert Reaches(k, d, Init(k), actions, last) && last.timeout;
    } else {
      var actions, last := ShortPeriodTimesOut(k, d);
      assert Reaches(k, d, Init(k), actions, last) && last.timeout;
    }
  }
}

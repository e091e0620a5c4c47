/** Polling several streams fairly (components/common/src/select_streams.rs).

    A stream is its script: what it answers when it is polled for the n-th time. The scripts are arbitrary, so the
    theorems hold whatever the streams do. */
module SelectStreams {
  import opened Wrappers

  /** The answer of every stream to each of its polls. */
  type Script<!T> = (nat, nat) -> Poll<T>

  /** A stream, how often it was polled in all, and whether it was polled in this cycle. */
  datatype Keeper = Keeper(id: nat, polls: nat, polled: bool)

  function Answer<T>(script: Script<T>, k: Keeper): Poll<T> {
    script(k.id, k.polls)
  }

  /** A stream after a poll in this cycle. */
  function Polled(k: Keeper): Keeper {
    Keeper(k.id, k.polls + 1, true)
  }

  function Reset(queue: seq<Keeper>): (r: seq<Keeper>)
    ensures |r| == |queue|
  {
    seq(|queue|, i requires 0 <= i < |queue| => queue[i].(polled := false))
  }

  // ---------------------------------------------------------------- one call

  /** The place of the first stream with an item, or the length of the queue. */
  function FirstReady<T>(script: Script<T>, queue: seq<Keeper>): (p: nat)
    ensures p <= |queue|
    ensures forall i :: 0 <= i < p ==> !Answer(script, queue[i]).Item?
    ensures p < |queue| ==> Answer(script, queue[p]).Item?
    decreases |queue|
  {
    if queue == [] || Answer(script, queue[0]).Item? then 0 else 1 + FirstReady(script, queue[1..])
  }

  /** What a poll of all streams leaves of a queue without items: the streams that have not ended, in order. */
  function Survivors<T>(script: Script<T>, queue: seq<Keeper>): seq<Keeper>
    decreases |queue|
  {
    if queue == [] then []
    else
      var k := queue[|queue| - 1];
      Survivors(script, queue[..|queue| - 1]) + if Answer(script, k).Ended? then [] else [Polled(k)]
  }

  datatype Outcome<T> = Outcome(poll: Poll<T>, queue: seq<Keeper>)

  /** A call: the streams up to the first one with an item are polled once and go to the back. */
  function PollOnce<T>(script: Script<T>, queue: seq<Keeper>): Outcome<T> {
    var p := FirstReady(script, queue);
    if p < |queue| then
      Outcome(Answer(script, queue[p]), queue[p + 1..] + Survivors(script, queue[..p]) + [Polled(queue[p])])
    else if Survivors(script, queue) == [] then Outcome(Ended, [])
    else Outcome(Pending, Survivors(script, queue))
  }

  lemma {:induction false} SurvivorsPolled<T>(script: Script<T>, queue: seq<Keeper>)
    ensures forall k :: k in Survivors(script, queue) ==> k.polled
    decreases |queue|
  {
    if queue != [] {
      SurvivorsPolled(script, queue[..|queue| - 1]);
    }
  }

  lemma FirstReadyIs<T>(script: Script<T>, queue: seq<Keeper>, p: nat)
    requires p <= |queue| && forall i :: 0 <= i < p ==> !Answer(script, queue[i]).Item?
    requires p < |queue| ==> Answer(script, queue[p]).Item?
    ensures FirstReady(script, queue) == p
  {
  }

  /** In the middle of a call: the first `i` streams were polled, and those left of them wait at the back. */
  ghost predicate MidCycle<T>(script: Script<T>, queue: seq<Keeper>, i: nat, keepers: seq<Keeper>) {
    && i <= |queue|
    && (forall j :: 0 <= j < |queue| ==> !queue[j].polled)
    && (forall j :: 0 <= j < i ==> !Answer(script, queue[j]).Item?)
    && keepers == queue[i..] + Survivors(script, queue[..i])
  }

  /** The loop meets a polled stream, or none, only after polling all streams. */
  lemma CycleEnds<T>(script: Script<T>, queue: seq<Keeper>, i: nat, keepers: seq<Keeper>)
    requires MidCycle(script, queue, i, keepers) && (keepers == [] || keepers[0].polled)
    ensures PollOnce(script, queue) == Outcome(if keepers == [] then Ended else Pending, keepers)
  {
    assert i == |queue|;
    FirstReadyIs(script, queue, i);
    assert queue[..i] == queue;
  }

  lemma CycleGoesOn<T>(script: Script<T>, queue: seq<Keeper>, i: nat, keepers: seq<Keeper>)
    requires MidCycle(script, queue, i, keepers) && keepers != [] && !keepers[0].polled
    ensures i < |queue| && keepers[0] == queue[i]
    ensures var answer := Answer(script, keepers[0]);
            && (answer.Pending? ==> MidCycle(script, queue, i + 1, keepers[1..] + [Polled(keepers[0])]))
            && (answer.Ended? ==> MidCycle(script, queue, i + 1, keepers[1..]))
            && (answer.Item? ==> PollOnce(script, queue) == Outcome(answer, keepers[1..] + [Polled(keepers[0])]))
  {
    SurvivorsPolled(script, queue[..i]);
    assert i < |queue| && keepers[0] == queue[i];
    assert keepers[1..] == queue[i + 1..] + Survivors(script, queue[..i]);
    if Answer(script, keepers[0]).Item? {
      FirstReadyIs(script, queue, i);
    } else {
      assert queue[..i + 1][..i] == queue[..i];
    }
  }

  // ---------------------------------------------------------------- what one call means

  ghost predicate DistinctIds(queue: seq<Keeper>) {
    forall i, j :: 0 <= i < j < |queue| ==> queue[i].id != queue[j].id
  }

  lemma DistinctConcat(a: seq<Keeper>, b: seq<Keeper>)
    requires DistinctIds(a) && DistinctIds(b) && forall x, y :: x in a && y in b ==> x.id != y.id
    ensures DistinctIds(a + b)
  {
    forall i, j | 0 <= i < j < |a + b| ensures (a + b)[i].id != (a + b)[j].id {
      if i < |a| <= j {
        assert a[i] in a && b[j - |a|] in b;
      }
    }
  }

  /** How many streams of the queue a call polls, each of them once. */
  function PolledCount<T>(script: Script<T>, queue: seq<Keeper>): (n: nat)
    ensures n <= |queue|
  {
    var p := FirstReady(script, queue);
    if p < |queue| then p + 1 else p
  }

  /** The stream at place `j` after a call. */
  function Later<T>(script: Script<T>, queue: seq<Keeper>, j: nat): Keeper
    requires j < |queue|
  {
    if j < PolledCount(script, queue) then Polled(queue[j]) else queue[j]
  }

  /** The stream at place `j` said in this call that it is over. */
  predicate Over<T>(script: Script<T>, queue: seq<Keeper>, j: nat)
    requires j < |queue|
  {
    j < PolledCount(script, queue) && Answer(script, queue[j]).Ended?
  }

  lemma {:induction false} SurvivorsAre<T>(script: Script<T>, queue: seq<Keeper>)
    requires DistinctIds(queue)
    ensures DistinctIds(Survivors(script, queue))
    ensures forall k :: k in Survivors(script, queue) ==>
              exists j :: 0 <= j < |queue| && k == Polled(queue[j]) && !Answer(script, queue[j]).Ended?
    ensures forall j :: 0 <= j < |queue| && !Answer(script, queue[j]).Ended? ==>
              Polled(queue[j]) in Survivors(script, queue)
    decreases |queue|
  {
    if queue != [] {
      var n := |queue| - 1;
      var init := queue[..n];
      SurvivorsAre(script, init);
      forall k | k in Survivors(script, init)
        ensures exists j :: 0 <= j < n && k == Polled(queue[j]) && !Answer(script, queue[j]).Ended?
      {
        var j :| 0 <= j < |init| && k == Polled(init[j]) && !Answer(script, init[j]).Ended?;
        assert queue[j] == init[j];
      }
      forall j | 0 <= j < |queue| && !Answer(script, queue[j]).Ended?
        ensures Polled(queue[j]) in Survivors(script, queue)
      {
        assert j < n ==> init[j] == queue[j];
      }
      DistinctConcat(Survivors(script, init), if Answer(script, queue[n]).Ended? then [] else [Polled(queue[n])]);
    }
  }

  /** Every stream of `part` is one of those at the places `lo..hi`, after the call. */
  ghost predicate FromPlaces<T>(script: Script<T>, queue: seq<Keeper>, part: seq<Keeper>, lo: nat, hi: nat)
    requires hi <= |queue|
  {
    forall k :: k in part ==> exists j :: lo <= j < hi && k == Later(script, queue, j)
  }

  lemma PlacesConcat<T>(script: Script<T>, queue: seq<Keeper>, a: seq<Keeper>, b: seq<Keeper>, m: nat, hi: nat, lo: nat)
    requires DistinctIds(queue) && lo <= m <= hi <= |queue| && DistinctIds(a) && DistinctIds(b)
    requires FromPlaces(script, queue, a, lo, m) && FromPlaces(script, queue, b, m, hi)
    ensures DistinctIds(a + b) && DistinctIds(b + a)
    ensures FromPlaces(script, queue, a + b, lo, hi) && FromPlaces(script, queue, b + a, lo, hi)
  {
    forall x, y | x in a && y in b ensures x.id != y.id {
      var i :| lo <= i < m && x == Later(script, queue, i);
      var j :| m <= j < hi && y == Later(script, queue, j);
    }
    DistinctConcat(a, b);
    DistinctConcat(b, a);
  }

  lemma BackPlaces<T>(script: Script<T>, queue: seq<Keeper>, p: nat)
    requires DistinctIds(queue) && p == FirstReady(script, queue) < |queue|
    ensures FromPlaces(script, queue, queue[p + 1..], p + 1, |queue|) && DistinctIds(queue[p + 1..])
    ensures FromPlaces(script, queue, [Polled(queue[p])], p, p + 1)
  {
    var back := queue[p + 1..];
    forall k | k in back ensures exists j :: p + 1 <= j < |queue| && k == Later(script, queue, j) {
      var i :| 0 <= i < |back| && back[i] == k;
      assert k == Later(script, queue, p + 1 + i);
    }
    assert Polled(queue[p]) == Later(script, queue, p);
  }

  lemma FrontPlaces<T>(script: Script<T>, queue: seq<Keeper>, p: nat)
    requires DistinctIds(queue) && p == FirstReady(script, queue)
    ensures FromPlaces(script, queue, Survivors(script, queue[..p]), 0, p)
    ensures DistinctIds(Survivors(script, queue[..p]))
    ensures forall j :: 0 <= j < p && !Over(script, queue, j) ==>
              Later(script, queue, j) in Survivors(script, queue[..p])
  {
    SurvivorsAre(script, queue[..p]);
    forall k | k in Survivors(script, queue[..p]) ensures exists j :: 0 <= j < p && k == Later(script, queue, j) {
      var j :| 0 <= j < p && k == Polled(queue[..p][j]);
      assert k == Later(script, queue, j);
    }
    forall j | 0 <= j < p && !Over(script, queue, j)
      ensures Later(script, queue, j) in Survivors(script, queue[..p])
    {
      assert queue[..p][j] == queue[j];
    }
  }

  lemma ItemCallKeepsStreams<T>(script: Script<T>, queue: seq<Keeper>, p: nat)
    requires DistinctIds(queue) && p == FirstReady(script, queue) < |queue|
    ensures var next := PollOnce(script, queue).queue;
            && DistinctIds(next) && FromPlaces(script, queue, next, 0, |queue|)
            && (forall j :: 0 <= j < |queue| ==> !Over(script, queue, j) ==> Later(script, queue, j) in next)
  {
    var back, left, served := queue[p + 1..], Survivors(script, queue[..p]), [Polled(queue[p])];
    BackPlaces(script, queue, p);
    FrontPlaces(script, queue, p);
    PlacesConcat(script, queue, left, served, p, p + 1, 0);
    PlacesConcat(script, queue, left + served, back, p + 1, |queue|, 0);
    assert back + (left + served) == back + left + served;
    forall j | 0 <= j < |queue| && !Over(script, queue, j) ensures Later(script, queue, j) in back + left + served {
      assert j > p ==> back[j - p - 1] == queue[j];
    }
  }

  /** A call loses no stream that is not over, adds none, and keeps the streams apart. */
  lemma CallKeepsStreams<T>(script: Script<T>, queue: seq<Keeper>)
    requires DistinctIds(queue)
    ensures var next := PollOnce(script, queue).queue;
            && DistinctIds(next) && FromPlaces(script, queue, next, 0, |queue|)
            && (forall j :: 0 <= j < |queue| ==> !Over(script, queue, j) ==> Later(script, queue, j) in next)
  {
    var p := FirstReady(script, queue);
    if p < |queue| {
      ItemCallKeepsStreams(script, queue, p);
    } else {
      FrontPlaces(script, queue, p);
      assert queue[..p] == queue;
    }
  }

  /** A call answers that nothing is there only if every stream said so or is over, and that all is over only if
      every stream is. */
  lemma CallAnswers<T>(script: Script<T>, queue: seq<Keeper>)
    requires DistinctIds(queue)
    ensures var poll := PollOnce(script, queue).poll;
            && (poll.Ended? <==> forall j :: 0 <= j < |queue| ==> Answer(script, queue[j]).Ended?)
            && (poll.Item? <==> exists j :: 0 <= j < |queue| && Answer(script, queue[j]).Item?)
            && (poll.Pending? ==> PolledCount(script, queue) == |queue|)
  {
    SurvivorsAre(script, queue);
    var p := FirstReady(script, queue);
    if p == |queue| && PollOnce(script, queue).poll.Ended? {
      forall j | 0 <= j < |queue| ensures Answer(script, queue[j]).Ended? {
        assert Polled(queue[j]) !in Survivors(script, queue);
      }
    }
    if p == |queue| && Survivors(script, queue) != [] {
      assert Survivors(script, queue)[0] in Survivors(script, queue);
    }
  }

  // ---------------------------------------------------------------- every sequence of calls

  /** The queue, how often each stream was polled, and what was handed out from which stream. */
  datatype World<T> = World(queue: seq<Keeper>, counts: map<nat, nat>, log: seq<(nat, T)>)

  /** One more call. */
  function Call<T>(script: Script<T>, w: World<T>): World<T> {
    var queue := Reset(w.queue);
    var outcome := PollOnce(script, queue);
    var polled := set j | 0 <= j < PolledCount(script, queue) :: queue[j].id;
    World(outcome.queue,
          map id | id in w.counts :: w.counts[id] + if id in polled then 1 else 0,
          Logged(script, queue, w.log))
  }

  /** The log after a call. */
  function Logged<T>(script: Script<T>, queue: seq<Keeper>, log: seq<(nat, T)>): seq<(nat, T)> {
    var p := FirstReady(script, queue);
    if p < |queue| then log + [(queue[p].id, Answer(script, queue[p]).value)] else log
  }

  function Calls<T>(script: Script<T>, w: World<T>, n: nat): World<T>
    decreases n
  {
    if n == 0 then w else Calls(script, Call(script, w), n - 1)
  }

  /** What was handed out from one stream. */
  function Yielded<T>(log: seq<(nat, T)>, id: nat): seq<T>
    decreases |log|
  {
    if log == [] then []
    else Yielded(log[..|log| - 1], id) + if log[|log| - 1].0 == id then [log[|log| - 1].1] else []
  }

  /** The items among the first `n` answers of a stream. */
  function Items<T>(script: Script<T>, id: nat, n: nat): seq<T> {
    if n == 0 then []
    else Items(script, id, n - 1) + if script(id, n - 1).Item? then [script(id, n - 1).value] else []
  }

  /** The counts are right, a stream is missing from the queue only when it is over, and from every stream exactly
      the items it answered with were handed out, in order. */
  ghost predicate Faithful<T>(script: Script<T>, w: World<T>) {
    && DistinctIds(w.queue)
    && (forall k :: k in w.queue ==> k.id in w.counts && w.counts[k.id] == k.polls)
    && (forall id :: id in w.counts ==> Present(w.queue, id) || Finished(script, id, w.counts[id]))
    && (forall id :: id in w.counts ==> Yielded(w.log, id) == Items(script, id, w.counts[id]))
  }

  ghost predicate Present(queue: seq<Keeper>, id: nat) {
    exists i :: 0 <= i < |queue| && queue[i].id == id
  }

  predicate Finished<T>(script: Script<T>, id: nat, polls: nat) {
    polls > 0 && script(id, polls - 1).Ended?
  }

  lemma YieldedAppend<T>(log: seq<(nat, T)>, id: nat, e: (nat, T))
    ensures Yielded(log + [e], id) == Yielded(log, id) + if e.0 == id then [e.1] else []
  {
    assert (log + [e])[..|log|] == log;
  }

  lemma ResetFaithful<T>(script: Script<T>, w: World<T>)
    requires Faithful(script, w)
    ensures Faithful(script, w.(queue := Reset(w.queue)))
  {
    var r := Reset(w.queue);
    forall k | k in r ensures k.id in w.counts && w.counts[k.id] == k.polls {
      var i :| 0 <= i < |r| && r[i] == k;
      assert w.queue[i] in w.queue;
    }
    forall id | id in w.counts && Present(w.queue, id) ensures Present(r, id) {
      var i :| 0 <= i < |w.queue| && w.queue[i].id == id;
      assert r[i].id == id;
    }
  }

  lemma CountAt<T>(script: Script<T>, w: World<T>, j: nat)
    requires Faithful(script, w) && Reset(w.queue) == w.queue && j < |w.queue|
    ensures var k, next := Later(script, w.queue, j), Call(script, w);
            k.id in next.counts && next.counts[k.id] == k.polls
  {
    var queue, id := w.queue, w.queue[j].id;
    var n := PolledCount(script, queue);
    var polled := set i | 0 <= i < n :: queue[i].id;
    assert queue[j] in queue;
    assert id in polled <==> j < n;
  }

  lemma LoggedAt<T>(script: Script<T>, queue: seq<Keeper>, log: seq<(nat, T)>, j: nat)
    requires DistinctIds(queue) && j < |queue|
    requires Yielded(log, queue[j].id) == Items(script, queue[j].id, queue[j].polls)
    ensures var k := Later(script, queue, j); Yielded(Logged(script, queue, log), k.id) == Items(script, k.id, k.polls)
  {
    var id, p := queue[j].id, FirstReady(script, queue);
    if p < |queue| {
      YieldedAppend(log, id, (queue[p].id, Answer(script, queue[p]).value));
      assert queue[p].id == id <==> p == j;
    }
  }

  lemma YieldedAt<T>(script: Script<T>, w: World<T>, j: nat)
    requires Faithful(script, w) && Reset(w.queue) == w.queue && j < |w.queue|
    ensures var k := Later(script, w.queue, j); Yielded(Call(script, w).log, k.id) == Items(script, k.id, k.polls)
  {
    assert w.queue[j] in w.queue;
    LoggedAt(script, w.queue, w.log, j);
  }

  lemma CallKeepsFaithful<T>(script: Script<T>, w: World<T>)
    requires Faithful(script, w)
    ensures Faithful(script, Call(script, w))
  {
    var v := w.(queue := Reset(w.queue));
    ResetFaithful(script, w);
    assert Reset(v.queue) == v.queue;
    assert Call(script, v) == Call(script, w);
    CallKeepsStreams(script, v.queue);
    var next := Call(script, v);
    forall k | k in next.queue ensures k.id in next.counts && next.counts[k.id] == k.polls {
      var j :| 0 <= j < |v.queue| && k == Later(script, v.queue, j);
      CountAt(script, v, j);
    }
    forall id | id in next.counts
      ensures Present(next.queue, id) || Finished(script, id, next.counts[id])
      ensures Yielded(next.log, id) == Items(script, id, next.counts[id])
    {
      CallId(script, v, id);
    }
  }

  lemma CallId<T>(script: Script<T>, w: World<T>, id: nat)
    requires Faithful(script, w) && Reset(w.queue) == w.queue && id in w.counts
    ensures var next := Call(script, w);
            && (Present(next.queue, id) || Finished(script, id, next.counts[id]))
            && Yielded(next.log, id) == Items(script, id, next.counts[id])
  {
    if Present(w.queue, id) {
      var j :| 0 <= j < |w.queue| && w.queue[j].id == id;
      CountAt(script, w, j);
      YieldedAt(script, w, j);
      StaysOrOver(script, w.queue, j);
    } else {
      CallAbsent(script, w, id);
    }
  }

  lemma StaysOrOver<T>(script: Script<T>, queue: seq<Keeper>, j: nat)
    requires DistinctIds(queue) && j < |queue|
    ensures var k := Later(script, queue, j);
            Present(PollOnce(script, queue).queue, k.id) || Finished(script, k.id, k.polls)
  {
    CallKeepsStreams(script, queue);
    if !Over(script, queue, j) {
      var next, k := PollOnce(script, queue).queue, Later(script, queue, j);
      assert k in next;
      var i :| 0 <= i < |next| && next[i] == k;
      assert next[i].id == k.id;
    }
  }

  lemma CallAbsent<T>(script: Script<T>, w: World<T>, id: nat)
    requires Reset(w.queue) == w.queue && id in w.counts && !Present(w.queue, id)
    ensures Call(script, w).counts[id] == w.counts[id]
    ensures Yielded(Call(script, w).log, id) == Yielded(w.log, id)
  {
    var p := FirstReady(script, w.queue);
    if p < |w.queue| {
      YieldedAppend(w.log, id, (w.queue[p].id, Answer(script, w.queue[p]).value));
    }
  }

  /** Whatever the streams do and however often the combinator is polled, nothing is lost, repeated or reordered. */
  lemma {:induction false} NothingLost<T>(script: Script<T>, w: World<T>, n: nat)
    requires Faithful(script, w)
    ensures Faithful(script, Calls(script, w, n))
    decreases n
  {
    if n > 0 {
      CallKeepsFaithful(script, w);
      NothingLost(script, Call(script, w), n - 1);
    }
  }

  /** A new combinator over `count` streams. */
  lemma NewFaithful<T>(script: Script<T>, count: nat)
    ensures var queue := seq(count, i requires 0 <= i < count => Keeper(i, 0, false));
            Faithful(script, World(queue, map k | k in queue :: k.id := 0, []))
  {
    var queue := seq(count, i requires 0 <= i < count => Keeper(i, 0, false));
    forall k | k in queue ensures Present(queue, k.id) {
      assert queue[k.id].id == k.id;
    }
  }

  /** The n-th call hands out an item of the stream. */
  predicate ServedAt<T>(script: Script<T>, queue: seq<Keeper>, n: nat, id: nat) {
    var q := Reset(QueueAfter(script, queue, n));
    var p := FirstReady(script, q);
    p < |q| && q[p].id == id
  }

  function QueueAfter<T>(script: Script<T>, queue: seq<Keeper>, n: nat): seq<Keeper>
    decreases n
  {
    if n == 0 then queue else QueueAfter(script, PollOnce(script, Reset(queue)).queue, n - 1)
  }

  /** The n-th call hands out an item. */
  predicate YieldsAt<T>(script: Script<T>, queue: seq<Keeper>, n: nat) {
    PollOnce(script, Reset(QueueAfter(script, queue, n))).poll.Item?
  }

  /** A stream that always has an item is served within one call more than its place in the queue, and all these
      calls hand out an item. */
  lemma {:induction false} ReadyStreamServed<T>(script: Script<T>, queue: seq<Keeper>, place: nat)
    requires place < |queue|
    requires forall n :: n >= queue[place].polls ==> script(queue[place].id, n).Item?
    ensures exists n :: 0 <= n <= place && ServedAt(script, queue, n, queue[place].id) &&
              forall m :: 0 <= m <= n ==> YieldsAt(script, queue, m)
    decreases place
  {
    var q, id := Reset(queue), queue[place].id;
    var p := FirstReady(script, q);
    assert Answer(script, q[place]).Item?;
    assert YieldsAt(script, queue, 0);
    if p == place {
      assert ServedAt(script, queue, 0, id);
    } else {
      var next := PollOnce(script, q).queue;
      var nearer := place - p - 1;
      assert next[nearer] == q[p + 1..][nearer] == q[place];
      ReadyStreamServed(script, next, nearer);
      var n :|
        0 <= n <= nearer && ServedAt(script, next, n, id) && forall m :: 0 <= m <= n ==> YieldsAt(script, next, m);
      assert ServedAt(script, queue, n + 1, id);
      forall m | 0 <= m <= n + 1 ensures YieldsAt(script, queue, m) {
        if m > 0 {
          assert YieldsAt(script, next, m - 1);
        }
      }
    }
  }

  class SelectStreams<T> {
    const script: Script<T>
    var streamKeepers: seq<Keeper>

    /** Takes the streams in the given order. */
    constructor (script: Script<T>, count: nat)
      ensures this.script == script && |streamKeepers| == count
      ensures forall i :: 0 <= i < count ==> streamKeepers[i] == Keeper(i, 0, false)
    {
      this.script := script;
      streamKeepers := seq(count, i requires 0 <= i < count => Keeper(i, 0, false));
    }

    method PollNext() returns (r: Poll<T>)
      modifies this
      ensures Outcome(r, streamKeepers) == PollOnce(script, Reset(old(streamKeepers)))
    {
      streamKeepers := Reset(streamKeepers);
      ghost var queue, i := streamKeepers, 0;
      assert queue[0..] + Survivors(script, queue[..0]) == queue;
      while streamKeepers != []
        invariant MidCycle(script, queue, i, streamKeepers)
        decreases |queue| - i
      {
        var keeper := streamKeepers[0];
        if keeper.polled {
          CycleEnds(script, queue, i, streamKeepers);
          return Pending;
        }
        CycleGoesOn(script, queue, i, streamKeepers);
        streamKeepers := streamKeepers[1..];
        var polled := Keeper(keeper.id, keeper.polls + 1, true);
        match script(keeper.id, keeper.polls) {
          case Pending =>
            streamKeepers := streamKeepers + [polled];
          case Item(t) =>
            streamKeepers := streamKeepers + [polled];
            return Item(t);
          case Ended =>
        }
        i := i + 1;
      }
      CycleEnds(script, queue, i, streamKeepers);
      r := Ended;
    }
  }
}

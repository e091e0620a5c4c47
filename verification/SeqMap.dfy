/** A map that hands out its pairs one after the other while it changes (components/index_client/src/seq_map.rs).

    A server that follows the log of handed-out pairs, updates and removals must end up with the whole map once the
    countdown reaches zero. */
module SeqMap {
  import opened Wrappers

  // ---------------------------------------------------------------- the queue

  ghost predicate Distinct<K>(s: seq<K>) {
    forall i, j :: 0 <= i < j < |s| ==> s[i] != s[j]
  }

  /** What `retain` leaves of a queue when it drops a key. */
  function Without<K(==)>(s: seq<K>, key: K): seq<K>
    decreases |s|
  {
    if s == [] then []
    else Without(s[..|s| - 1], key) + if s[|s| - 1] == key then [] else [s[|s| - 1]]
  }

  lemma {:induction false} WithoutAbsent<K>(s: seq<K>, key: K)
    requires key !in s
    ensures Without(s, key) == s
    decreases |s|
  {
    if s != [] {
      WithoutAbsent(s[..|s| - 1], key);
    }
  }

  /** Dropping a key that is there closes the gap it leaves. */
  lemma {:induction false} WithoutPresent<K>(s: seq<K>, i: nat)
    requires Distinct(s) && i < |s|
    ensures Without(s, s[i]) == s[..i] + s[i + 1..]
    decreases |s|
  {
    var n := |s| - 1;
    if i < n {
      WithoutPresent(s[..n], i);
      assert s[..n][i + 1..] + [s[n]] == s[i + 1..];
    } else {
      WithoutAbsent(s[..n], s[n]);
    }
  }

  /** Dropping a key keeps the other keys. */
  lemma WithoutEffect<K>(s: seq<K>, key: K)
    requires Distinct(s)
    ensures var r := Without(s, key);
            && |r| <= |s| && Distinct(r) && key !in r
            && (forall k :: k in r ==> k in s)
            && (forall k :: k in s && k != key ==> k in r)
  {
    if key in s {
      var p :| 0 <= p < |s| && s[p] == key;
      WithoutPresent(s, p);
      forall k | k in s && k != key ensures k in s[..p] + s[p + 1..] {
        assert s == s[..p] + [key] + s[p + 1..];
      }
    } else {
      WithoutAbsent(s, key);
    }
  }

  /** Behind the first `countdown` keys there are only keys from `touched`. */
  ghost predicate Reaches<K>(queue: seq<K>, countdown: nat, touched: set<K>) {
    forall i :: countdown <= i < |queue| ==> queue[i] in touched
  }

  lemma WithoutReaches<K>(s: seq<K>, key: K, countdown: nat, touched: set<K>)
    requires Distinct(s) && Reaches(s, countdown, touched)
    ensures Reaches(Without(s, key), countdown, touched)
  {
    if key in s {
      var p :| 0 <= p < |s| && s[p] == key;
      WithoutPresent(s, p);
      var r := Without(s, key);
      forall i | countdown <= i < |r| ensures r[i] in touched {
        assert r[i] == if i < p then s[i] else s[i + 1];
      }
    } else {
      WithoutAbsent(s, key);
    }
  }

  /** The queue lists every key of the map once. */
  ghost predicate Lists<K, V>(queue: seq<K>, m: map<K, V>) {
    Distinct(queue) && (forall k :: k in queue ==> k in m) && (forall k :: k in m ==> k in queue)
  }

  // ---------------------------------------------------------------- what happened since the last reset

  datatype Event<K, V> =
    | Returned(key: K, value: V)
    | Updated(key: K, value: V)
    | Removed(key: K)

  /** The keys the log mentions. */
  function Touched<K, V>(log: seq<Event<K, V>>): set<K>
    decreases |log|
  {
    if log == [] then {} else Touched(log[..|log| - 1]) + {log[|log| - 1].key}
  }

  /** The map a follower of the log builds, starting with nothing. */
  function Replay<K, V>(log: seq<Event<K, V>>): map<K, V>
    decreases |log|
  {
    if log == [] then map[] else
    var m := Replay(log[..|log| - 1]);
    match log[|log| - 1]
    case Returned(key, value) => m[key := value]
    case Updated(key, value) => m[key := value]
    case Removed(key) => m - {key}
  }

  function Returns<K, V>(log: seq<Event<K, V>>): nat
    decreases |log|
  {
    if log == [] then 0 else Returns(log[..|log| - 1]) + if log[|log| - 1].Returned? then 1 else 0
  }

  datatype State<K, V> = State(pairs: map<K, V>, queue: seq<K>, countdown: nat)

  /** What every call keeps. The keys not yet mentioned in the log are the ones the countdown still reaches. */
  ghost predicate Inv<K, V>(s: State<K, V>, atReset: set<K>, log: seq<Event<K, V>>) {
    && Lists(s.queue, s.pairs)
    && Reaches(s.queue, s.countdown, Touched(log))
    && (forall k :: k in atReset && k !in s.pairs ==> k in Touched(log))
    && Follows(s.pairs, log)
    && s.countdown == if Returns(log) <= |atReset| then |atReset| - Returns(log) else 0
  }

  /** The follower of the log knows the mentioned part of the map, and nothing else. */
  ghost predicate Follows<K, V>(pairs: map<K, V>, log: seq<Event<K, V>>) {
    Replay(log) == map k | k in pairs && k in Touched(log) :: pairs[k]
  }

  // ---------------------------------------------------------------- the operations

  function AfterUpdate<K, V>(s: State<K, V>, key: K, value: V): State<K, V> {
    s.(queue := Without(s.queue, key) + [key], pairs := s.pairs[key := value])
  }

  function AfterRemove<K, V>(s: State<K, V>, key: K): State<K, V> {
    s.(queue := Without(s.queue, key), pairs := s.pairs - {key})
  }

  function AfterNext<K, V>(s: State<K, V>): State<K, V> {
    if s.queue == [] then s
    else s.(queue := s.queue[1..] + [s.queue[0]], countdown := if s.countdown > 0 then s.countdown - 1 else 0)
  }

  lemma LogAppend<K, V>(log: seq<Event<K, V>>, e: Event<K, V>)
    ensures (log + [e])[..|log|] == log
    ensures Touched(log + [e]) == Touched(log) + {e.key}
    ensures Returns(log + [e]) == Returns(log) + if e.Returned? then 1 else 0
  {
  }

  lemma RemoveKeepsInv<K, V>(s: State<K, V>, atReset: set<K>, log: seq<Event<K, V>>, key: K)
    requires Inv(s, atReset, log)
    ensures Inv(AfterRemove(s, key), atReset, log + [Removed(key)])
  {
    LogAppend(log, Removed(key));
    WithoutEffect(s.queue, key);
    WithoutReaches(s.queue, key, s.countdown, Touched(log));
  }

  lemma UpdateKeepsInv<K, V>(s: State<K, V>, atReset: set<K>, log: seq<Event<K, V>>, key: K, value: V)
    requires Inv(s, atReset, log)
    ensures Inv(AfterUpdate(s, key, value), atReset, log + [Updated(key, value)])
  {
    LogAppend(log, Updated(key, value));
    WithoutEffect(s.queue, key);
    WithoutReaches(s.queue, key, s.countdown, Touched(log));
  }

  lemma NextKeepsInv<K, V>(s: State<K, V>, atReset: set<K>, log: seq<Event<K, V>>)
    requires Inv(s, atReset, log) && s.queue != []
    ensures s.queue[0] in s.pairs
    ensures Inv(AfterNext(s), atReset, log + [Returned(s.queue[0], s.pairs[s.queue[0]])])
  {
    LogAppend(log, Returned(s.queue[0], s.pairs[s.queue[0]]));
    RotateLists(s.queue, s.pairs);
    RotateReaches(s.queue, s.countdown, Touched(log));
  }

  lemma RotateLists<K, V>(queue: seq<K>, m: map<K, V>)
    requires Lists(queue, m) && queue != []
    ensures Lists(queue[1..] + [queue[0]], m)
  {
    assert queue == [queue[0]] + queue[1..];
  }

  lemma RotateReaches<K>(queue: seq<K>, countdown: nat, touched: set<K>)
    requires Reaches(queue, countdown, touched) && queue != []
    ensures Reaches(queue[1..] + [queue[0]], if countdown > 0 then countdown - 1 else 0, touched + {queue[0]})
  {
  }

  // ---------------------------------------------------------------- every sequence of calls

  datatype Call<K, V> =
    | CallUpdate(key: K, value: V)
    | CallRemove(key: K)
    | CallNext
    | CallReset

  /** A map together with the keys at its last reset and the log since then. */
  datatype Tracked<K, V> = Tracked(state: State<K, V>, atReset: set<K>, log: seq<Event<K, V>>)

  /** A call; looking up a queued key that is not in the map would panic, and is shown never to happen. */
  ghost function Apply<K, V>(t: Tracked<K, V>, call: Call<K, V>): Tracked<K, V> {
    match call
    case CallUpdate(key, value) => Tracked(AfterUpdate(t.state, key, value), t.atReset, t.log + [Updated(key, value)])
    case CallRemove(key) => Tracked(AfterRemove(t.state, key), t.atReset, t.log + [Removed(key)])
    case CallNext =>
      if t.state.queue == [] || t.state.queue[0] !in t.state.pairs then t
      else
        var key := t.state.queue[0];
        Tracked(AfterNext(t.state), t.atReset, t.log + [Returned(key, t.state.pairs[key])])
    case CallReset => Tracked(t.state.(countdown := |t.state.queue|), t.state.pairs.Keys, [])
  }

  lemma ResetInv<K, V>(pairs: map<K, V>, queue: seq<K>)
    requires Lists(queue, pairs)
    ensures Inv(State(pairs, queue, |queue|), pairs.Keys, [])
  {
    DistinctCount(queue, pairs.Keys);
  }

  lemma {:induction false} DistinctCount<K>(s: seq<K>, keys: set<K>)
    requires Distinct(s) && (forall k :: k in s ==> k in keys) && (forall k :: k in keys ==> k in s)
    ensures |s| == |keys|
    decreases |s|
  {
    if s == [] {
      assert keys == {};
    } else {
      var n := |s| - 1;
      assert s == s[..n] + [s[n]];
      DistinctCount(s[..n], keys - {s[n]});
    }
  }

  lemma ApplyKeepsInv<K, V>(t: Tracked<K, V>, call: Call<K, V>)
    requires Inv(t.state, t.atReset, t.log)
    ensures call.CallNext? && t.state.queue != [] ==> t.state.queue[0] in t.state.pairs
    ensures var u := Apply(t, call); Inv(u.state, u.atReset, u.log)
  {
    match call
    case CallUpdate(key, value) => UpdateKeepsInv(t.state, t.atReset, t.log, key, value);
    case CallRemove(key) => RemoveKeepsInv(t.state, t.atReset, t.log, key);
    case CallNext =>
      if t.state.queue != [] {
        NextKeepsInv(t.state, t.atReset, t.log);
      }
    case CallReset => ResetInv(t.state.pairs, t.state.queue);
  }

  /** A new map, or one that was just reset. */
  function New<K, V>(pairs: map<K, V>, queue: seq<K>): Tracked<K, V> {
    Tracked(State(pairs, queue, |queue|), pairs.Keys, [])
  }

  ghost predicate StepsAt<K, V>(calls: seq<Call<K, V>>, run: seq<Tracked<K, V>>, i: nat)
    requires i < |calls| && |run| == |calls| + 1
  {
    run[i + 1] == Apply(run[i], calls[i])
  }

  /** `run` is what the calls lead to, one after the other, from a new map. */
  ghost predicate IsRun<K, V>(pairs: map<K, V>, queue: seq<K>, calls: seq<Call<K, V>>, run: seq<Tracked<K, V>>) {
    && Lists(queue, pairs) && |run| == |calls| + 1 && run[0] == New(pairs, queue)
    && forall i :: 0 <= i < |calls| ==> StepsAt(calls, run, i)
  }

  /** Any calls have a run. */
  ghost function RunOf<K, V>(pairs: map<K, V>, queue: seq<K>, calls: seq<Call<K, V>>): (run: seq<Tracked<K, V>>)
    requires Lists(queue, pairs)
    ensures IsRun(pairs, queue, calls, run)
    decreases |calls|
  {
    if calls == [] then [New(pairs, queue)]
    else
      var n := |calls| - 1;
      var init := RunOf(pairs, queue, calls[..n]);
      var run := init + [Apply(init[n], calls[n])];
      RunExtends(pairs, queue, calls, init, run);
      run
  }

  lemma RunExtends<K, V>(pairs: map<K, V>, queue: seq<K>, calls: seq<Call<K, V>>, init: seq<Tracked<K, V>>,
                         run: seq<Tracked<K, V>>)
    requires calls != [] && IsRun(pairs, queue, calls[..|calls| - 1], init)
    requires run == init + [Apply(init[|calls| - 1], calls[|calls| - 1])]
    ensures IsRun(pairs, queue, calls, run)
  {
    forall i | 0 <= i < |calls| ensures StepsAt(calls, run, i) {
      if i < |calls| - 1 {
        assert StepsAt(calls[..|calls| - 1], init, i);
      }
    }
  }

  lemma {:induction false} RunKeepsInv<K, V>(pairs: map<K, V>, queue: seq<K>, calls: seq<Call<K, V>>,
                                             run: seq<Tracked<K, V>>, i: nat)
    requires IsRun(pairs, queue, calls, run) && i <= |calls|
    ensures Inv(run[i].state, run[i].atReset, run[i].log)
  {
    if i == 0 {
      ResetInv(pairs, queue);
    } else {
      RunKeepsInv(pairs, queue, calls, run, i - 1);
      assert StepsAt(calls, run, i - 1);
      ApplyKeepsInv(run[i - 1], calls[i - 1]);
    }
  }

  /** Whatever is called, the follower of the log never holds a wrong or outdated pair; once the countdown is 0 it
      holds the whole map, and every key of the last reset was returned, updated or removed since. */
  lemma Coverage<K, V>(pairs: map<K, V>, queue: seq<K>, calls: seq<Call<K, V>>, run: seq<Tracked<K, V>>)
    requires IsRun(pairs, queue, calls, run)
    ensures var t := run[|calls|];
            && (forall k :: k in Replay(t.log) ==> k in t.state.pairs && Replay(t.log)[k] == t.state.pairs[k])
            && (t.state.countdown == 0 ==> Replay(t.log) == t.state.pairs && t.atReset <= Touched(t.log))
            && (Returns(t.log) >= |t.atReset| <==> t.state.countdown == 0)
  {
    RunKeepsInv(pairs, queue, calls, run, |calls|);
    var t := run[|calls|];
    if t.state.countdown == 0 {
      forall k | k in t.state.pairs ensures k in Touched(t.log) {
        assert k in t.state.queue;
      }
    }
  }

  lemma {:induction false} TouchedBy<K, V>(log: seq<Event<K, V>>, key: K)
    requires key in Touched(log)
    ensures exists i :: 0 <= i < |log| && log[i].key == key
    decreases |log|
  {
    var n := |log| - 1;
    if log[n].key != key {
      TouchedBy(log[..n], key);
      var i :| 0 <= i < n && log[..n][i].key == key;
      assert log[i].key == key;
    }
  }

  /** A key of the last reset that was neither updated nor removed has been returned when the countdown is 0. */
  lemma ReturnedUnlessChanged<K, V>(pairs: map<K, V>, queue: seq<K>, calls: seq<Call<K, V>>,
                                    run: seq<Tracked<K, V>>, key: K)
    requires IsRun(pairs, queue, calls, run)
    requires var t := run[|calls|];
             && t.state.countdown == 0 && key in t.atReset
             && forall i :: 0 <= i < |t.log| && t.log[i].key == key ==> t.log[i].Returned?
    ensures var log := run[|calls|].log; exists i :: 0 <= i < |log| && log[i].Returned? && log[i].key == key
  {
    Coverage(pairs, queue, calls, run);
    TouchedBy(run[|calls|].log, key);
  }

  // ---------------------------------------------------------------- one cycle

  /** A map at a reset, its queue in that order, calls that do not reset it again, and what they lead to. */
  datatype Cycle<K, V> = Cycle(pairs: map<K, V>, queue: seq<K>, calls: seq<Call<K, V>>, run: seq<Tracked<K, V>>)

  ghost predicate IsCycle<K, V>(c: Cycle<K, V>) {
    && IsRun(c.pairs, c.queue, c.calls, c.run)
    && forall i :: 0 <= i < |c.calls| ==> !c.calls[i].CallReset?
  }

  /** What follows the last reset of any run is a cycle. */
  lemma ResetStartsCycle<K, V>(pairs: map<K, V>, queue: seq<K>, calls: seq<Call<K, V>>, run: seq<Tracked<K, V>>,
                               i: nat)
    requires IsRun(pairs, queue, calls, run) && i < |calls| && calls[i].CallReset?
    requires forall j :: i < j < |calls| ==> !calls[j].CallReset?
    ensures IsCycle(Cycle(run[i].state.pairs, run[i].state.queue, calls[i + 1..], run[i + 1..]))
  {
    RunKeepsInv(pairs, queue, calls, run, i);
    assert StepsAt(calls, run, i);
    var rest, after := calls[i + 1..], run[i + 1..];
    forall j | 0 <= j < |rest| ensures StepsAt(rest, after, j) {
      assert StepsAt(calls, run, i + 1 + j);
    }
  }

  /** After the first `i` calls of the cycle. */
  ghost function At<K, V>(c: Cycle<K, V>, i: nat): Tracked<K, V>
    requires |c.run| == |c.calls| + 1 && i <= |c.calls|
  {
    c.run[i]
  }

  lemma AtNext<K, V>(c: Cycle<K, V>, i: nat)
    requires IsCycle(c) && i < |c.calls|
    ensures At(c, i + 1) == Apply(At(c, i), c.calls[i]) && !c.calls[i].CallReset?
  {
    assert StepsAt(c.calls, c.run, i);
  }

  /** The part of the invariant that matters within a cycle. */
  ghost predicate InCycle<K, V>(c: Cycle<K, V>, t: Tracked<K, V>) {
    && Distinct(t.state.queue)
    && (forall k :: k in t.state.queue ==> k in t.state.pairs)
    && t.state.countdown == if Returns(t.log) <= |c.pairs| then |c.pairs| - Returns(t.log) else 0
  }

  lemma AtInCycle<K, V>(c: Cycle<K, V>, i: nat)
    requires IsCycle(c) && i <= |c.calls|
    ensures InCycle(c, At(c, i))
  {
    RunKeepsInv(c.pairs, c.queue, c.calls, c.run, i);
    AtReset(c, i);
  }

  lemma {:induction false} AtReset<K, V>(c: Cycle<K, V>, i: nat)
    requires IsCycle(c) && i <= |c.calls|
    ensures At(c, i).atReset == c.pairs.Keys
  {
    if i > 0 {
      AtReset(c, i - 1);
      AtNext(c, i - 1);
    }
  }

  /** One of the first `n` pairs returned since the reset has this key. */
  ghost predicate HandedOut<K, V>(log: seq<Event<K, V>>, n: nat, key: K) {
    exists i :: 0 <= i < |log| && HandedOutAt(log, n, key, i)
  }

  ghost predicate HandedOutAt<K, V>(log: seq<Event<K, V>>, n: nat, key: K, i: nat)
    requires i < |log|
  {
    log[i].Returned? && log[i].key == key && Returns(log[..i]) < n
  }

  /** The key is handed out during the countdown, as its documentation promises for every key of the reset. */
  ghost predicate CoveredBy<K, V>(c: Cycle<K, V>, i: nat, key: K)
    requires |c.run| == |c.calls| + 1 && i <= |c.calls|
  {
    HandedOut(At(c, i).log, |c.pairs|, key)
  }

  /** The rest of the countdown gets as far as the key. */
  ghost predicate Reached<K, V>(s: State<K, V>, key: K) {
    exists p :: 0 <= p < |s.queue| && p < s.countdown && s.queue[p] == key
  }

  ghost predicate Concerns<K, V>(call: Call<K, V>, key: K) {
    (call.CallUpdate? || call.CallRemove?) && call.key == key
  }

  /** No call from the i-th on updates or removes the key. */
  ghost predicate LeftAlone<K, V>(c: Cycle<K, V>, i: nat, key: K) {
    forall j :: i <= j < |c.calls| ==> !Concerns(c.calls[j], key)
  }

  /** The call returns the key during the countdown. */
  ghost predicate Serves<K, V>(s: State<K, V>, call: Call<K, V>, key: K) {
    call.CallNext? && s.queue != [] && s.queue[0] == key && s.countdown > 0
  }

  lemma HandedOutAppend<K, V>(log: seq<Event<K, V>>, e: Event<K, V>, n: nat, key: K)
    ensures HandedOut(log + [e], n, key)
       <==> HandedOut(log, n, key) || (e.Returned? && e.key == key && Returns(log) < n)
  {
    var more := log + [e];
    forall i | 0 <= i < |log| ensures HandedOutAt(more, n, key, i) <==> HandedOutAt(log, n, key, i) {
      assert more[..i] == log[..i];
    }
    assert more[..|log|] == log;
    assert HandedOutAt(more, n, key, |log|) <==> e.Returned? && e.key == key && Returns(log) < n;
  }

  lemma CoveredNext<K, V>(c: Cycle<K, V>, i: nat, key: K)
    requires IsCycle(c) && i < |c.calls|
    ensures CoveredBy(c, i + 1, key) <==> CoveredBy(c, i, key) || Serves(At(c, i).state, c.calls[i], key)
  {
    AtInCycle(c, i);
    AtNext(c, i);
    var t := At(c, i);
    match c.calls[i] {
      case CallUpdate(k, value) => HandedOutAppend(t.log, Updated(k, value), |c.pairs|, key);
      case CallRemove(k) => HandedOutAppend(t.log, Removed(k), |c.pairs|, key);
      case CallNext =>
        if t.state.queue != [] {
          var k := t.state.queue[0];
          HandedOutAppend(t.log, Returned(k, t.state.pairs[k]), |c.pairs|, key);
        }
      case CallReset =>
    }
  }

  /** Where a key is after another one was dropped from the queue. */
  lemma WithoutPlace<K>(s: seq<K>, other: K, p: nat) returns (q: nat)
    requires Distinct(s) && p < |s| && s[p] != other
    ensures q < |Without(s, other)| && Without(s, other)[q] == s[p]
    ensures q == if Ahead(s, other, s[p]) then p - 1 else p
  {
    if other in s {
      var i :| 0 <= i < |s| && s[i] == other;
      WithoutPresent(s, i);
      q := if i < p then p - 1 else p;
      assert i < p <==> Ahead(s, other, s[p]);
    } else {
      WithoutAbsent(s, other);
      q := p;
    }
  }

  /** `other` stands before `key` in the queue. */
  ghost predicate Ahead<K>(queue: seq<K>, other: K, key: K) {
    exists i, j :: 0 <= i < j < |queue| && queue[i] == other && queue[j] == key
  }

  /** The call takes a key from before `key` out of the way. */
  ghost predicate Advances<K, V>(s: State<K, V>, call: Call<K, V>, key: K) {
    (call.CallUpdate? || call.CallRemove?) && Ahead(s.queue, call.key, key)
  }

  /** What a call does to the place of a key it does not concern: `next` takes one off place and countdown, and
      taking another key out of the way one off the place. */
  lemma PlaceNext<K, V>(c: Cycle<K, V>, i: nat, key: K, p: nat) returns (q: nat)
    requires IsCycle(c) && i < |c.calls| && !Concerns(c.calls[i], key)
    requires p < |At(c, i).state.queue| && At(c, i).state.queue[p] == key && !(p == 0 && c.calls[i].CallNext?)
    ensures var s, t := At(c, i).state, At(c, i + 1).state;
            && q < |t.queue| && t.queue[q] == key
            && (c.calls[i].CallNext? ==> q == p - 1 && t.countdown == if s.countdown > 0 then s.countdown - 1 else 0)
            && (!c.calls[i].CallNext? ==>
                  q == p - (if Advances(s, c.calls[i], key) then 1 else 0) && t.countdown == s.countdown)
  {
    AtInCycle(c, i);
    AtNext(c, i);
    var s := At(c, i).state;
    match c.calls[i] {
      case CallUpdate(other, _) => q := WithoutPlace(s.queue, other, p);
      case CallRemove(other) => q := WithoutPlace(s.queue, other, p);
      case CallNext => q := p - 1;
    }
  }

  /** A key the countdown reaches stays reached until it is returned or concerned by a call. */
  lemma ReachedNext<K, V>(c: Cycle<K, V>, i: nat, key: K)
    requires IsCycle(c) && i < |c.calls| && !Concerns(c.calls[i], key) && Reached(At(c, i).state, key)
    ensures Reached(At(c, i + 1).state, key) || Serves(At(c, i).state, c.calls[i], key)
  {
    var s := At(c, i).state;
    var p :| 0 <= p < |s.queue| && p < s.countdown && s.queue[p] == key;
    if !(p == 0 && c.calls[i].CallNext?) {
      var q := PlaceNext(c, i, key, p);
      assert q < At(c, i + 1).state.countdown;
    }
  }

  lemma {:induction false} CoveredStays<K, V>(c: Cycle<K, V>, i: nat, j: nat, key: K)
    requires IsCycle(c) && i <= j <= |c.calls| && CoveredBy(c, i, key)
    ensures CoveredBy(c, j, key)
    decreases j - i
  {
    if i < j {
      CoveredNext(c, i, key);
      CoveredStays(c, i + 1, j, key);
    }
  }

  /** A key at a place the countdown reaches is handed out by the end of the countdown, whatever else is called. */
  lemma {:induction false} ReachedIsCovered<K, V>(c: Cycle<K, V>, i: nat, key: K)
    requires IsCycle(c) && i <= |c.calls| && LeftAlone(c, i, key) && Reached(At(c, i).state, key)
    requires At(c, |c.calls|).state.countdown == 0
    ensures CoveredBy(c, |c.calls|, key)
    decreases |c.calls| - i
  {
    if i < |c.calls| {
      ReachedNext(c, i, key);
      if Serves(At(c, i).state, c.calls[i], key) {
        CoveredNext(c, i, key);
        CoveredStays(c, i + 1, |c.calls|, key);
      } else {
        ReachedIsCovered(c, i + 1, key);
      }
    }
  }

  /** The countdown reached the key at some moment from the i-th call to the j-th. */
  ghost predicate ReachedBetween<K, V>(c: Cycle<K, V>, i: nat, j: nat, key: K)
    requires |c.run| == |c.calls| + 1 && j <= |c.calls|
  {
    exists m :: i <= m <= j && Reached(At(c, m).state, key)
  }

  lemma {:induction false} CoveredWasReached<K, V>(c: Cycle<K, V>, i: nat, j: nat, key: K)
    requires IsCycle(c) && i <= j <= |c.calls| && CoveredBy(c, j, key)
    ensures CoveredBy(c, i, key) || ReachedBetween(c, i, j, key)
    decreases j - i
  {
    if i < j {
      CoveredNext(c, j - 1, key);
      if CoveredBy(c, j - 1, key) {
        CoveredWasReached(c, i, j - 1, key);
      } else {
        assert Reached(At(c, j - 1).state, key);
      }
      if ReachedBetween(c, i, j - 1, key) {
        var m :| i <= m <= j - 1 && Reached(At(c, m).state, key);
        assert i <= m <= j;
      }
    }
  }

  /** Exactly which keys a complete cycle hands out during the countdown: after the call that last concerns the key,
      it was handed out before, or the countdown still reaches it at some moment. */
  lemma CycleCoversIff<K, V>(c: Cycle<K, V>, i: nat, key: K)
    requires IsCycle(c) && i <= |c.calls| && LeftAlone(c, i, key) && At(c, |c.calls|).state.countdown == 0
    ensures CoveredBy(c, |c.calls|, key) <==> CoveredBy(c, i, key) || ReachedBetween(c, i, |c.calls|, key)
  {
    if CoveredBy(c, |c.calls|, key) {
      CoveredWasReached(c, i, |c.calls|, key);
    } else if CoveredBy(c, i, key) {
      CoveredStays(c, i, |c.calls|, key);
    } else if ReachedBetween(c, i, |c.calls|, key) {
      var m :| i <= m <= |c.calls| && Reached(At(c, m).state, key);
      ReachedIsCovered(c, m, key);
    }
  }

  /** In particular a key of the reset that no call concerns is handed out. */
  lemma LeftAloneIsCovered<K, V>(c: Cycle<K, V>, key: K)
    requires IsCycle(c) && key in c.pairs && LeftAlone(c, 0, key) && At(c, |c.calls|).state.countdown == 0
    ensures CoveredBy(c, |c.calls|, key)
  {
    assert key in c.queue && At(c, 0).state == State(c.pairs, c.queue, |c.queue|);
    assert Reached(At(c, 0).state, key);
    ReachedIsCovered(c, 0, key);
  }

  // ---------------------------------------------------------------- what a caller can do for an updated key

  /** How many of the calls from the i-th up to the j-th take a key from before `key` out of the way. */
  ghost function Advancing<K, V>(c: Cycle<K, V>, i: nat, j: nat, key: K): nat
    requires |c.run| == |c.calls| + 1 && j <= |c.calls|
    decreases j
  {
    if j <= i then 0
    else Advancing(c, i, j - 1, key) + if Advances(At(c, j - 1).state, c.calls[j - 1], key) then 1 else 0
  }

  lemma {:induction false} CountdownFalls<K, V>(c: Cycle<K, V>, i: nat, j: nat)
    requires IsCycle(c) && i <= j <= |c.calls|
    ensures At(c, j).state.countdown <= At(c, i).state.countdown
    decreases j - i
  {
    if i < j {
      AtNext(c, j - 1);
      CountdownFalls(c, i, j - 1);
    }
  }

  /** As long as the countdown runs and does not reach the key, only such calls close the gap between its place and
      the countdown. */
  lemma {:induction false} GapCloses<K, V>(c: Cycle<K, V>, i: nat, j: nat, key: K, p: nat) returns (q: nat)
    requires IsCycle(c) && i <= j <= |c.calls| && LeftAlone(c, i, key)
    requires p < |At(c, i).state.queue| && At(c, i).state.queue[p] == key
    requires j > i ==> !ReachedBetween(c, i, j - 1, key)
    requires At(c, j).state.countdown > 0
    ensures q < |At(c, j).state.queue| && At(c, j).state.queue[q] == key
    ensures q - At(c, j).state.countdown == p - At(c, i).state.countdown - Advancing(c, i, j, key)
    decreases j - i
  {
    if i == j {
      q := p;
    } else {
      CountdownFalls(c, j - 1, j);
      var before := GapCloses(c, i, j - 1, key, p);
      assert !Reached(At(c, j - 1).state, key);
      q := PlaceNext(c, j - 1, key, before);
    }
  }

  /** The caller's view of an update that is the last call to concern its key: the key is handed out during the
      countdown if and only if it was before, or, while the countdown runs, enough keys before it are updated or
      removed to make up for the countdown being shorter than the queue. */
  lemma UpdatedKeyCoveredIff<K, V>(c: Cycle<K, V>, i: nat, key: K)
    requires IsCycle(c) && 0 < i <= |c.calls| && At(c, |c.calls|).state.countdown == 0
    requires c.calls[i - 1].CallUpdate? && c.calls[i - 1].key == key && LeftAlone(c, i, key)
    ensures CoveredBy(c, |c.calls|, key) <==>
            CoveredBy(c, i - 1, key) ||
            exists j :: i <= j <= |c.calls| && At(c, j).state.countdown > 0 &&
              Advancing(c, i, j, key) >= |At(c, i).state.queue| - At(c, i).state.countdown
  {
    AtNext(c, i - 1);
    CoveredNext(c, i - 1, key);
    CycleCoversIff(c, i, key);
    var p := |At(c, i).state.queue| - 1;
    if j :| i <= j <= |c.calls| && At(c, j).state.countdown > 0 &&
            Advancing(c, i, j, key) >= |At(c, i).state.queue| - At(c, i).state.countdown
    {
      EnoughAdvances(c, i, j, key, p);
    }
    if ReachedBetween(c, i, |c.calls|, key) {
      var j := FirstReached(c, i, |c.calls|, key);
      var q := GapCloses(c, i, j, key, p);
      AtInCycle(c, j);
      assert At(c, j).state.countdown > 0 && q < At(c, j).state.countdown;
    }
  }

  lemma EnoughAdvances<K, V>(c: Cycle<K, V>, i: nat, j: nat, key: K, p: nat)
    requires IsCycle(c) && i <= j <= |c.calls| && LeftAlone(c, i, key)
    requires p < |At(c, i).state.queue| && At(c, i).state.queue[p] == key
    requires At(c, j).state.countdown > 0 && Advancing(c, i, j, key) > p - At(c, i).state.countdown
    ensures ReachedBetween(c, i, |c.calls|, key)
  {
    if j > i && ReachedBetween(c, i, j - 1, key) {
      var m :| i <= m <= j - 1 && Reached(At(c, m).state, key);
      assert i <= m <= |c.calls|;
    } else {
      var q := GapCloses(c, i, j, key, p);
      assert Reached(At(c, j).state, key);
    }
  }

  lemma {:induction false} FirstReached<K, V>(c: Cycle<K, V>, i: nat, j: nat, key: K) returns (m: nat)
    requires |c.run| == |c.calls| + 1 && i <= j <= |c.calls| && ReachedBetween(c, i, j, key)
    ensures i <= m <= j && Reached(At(c, m).state, key)
    ensures m > i ==> !ReachedBetween(c, i, m - 1, key)
    decreases j - i
  {
    if i < j && ReachedBetween(c, i, j - 1, key) {
      m := FirstReached(c, i, j - 1, key);
    } else {
      m := j;
    }
  }

  ghost predicate OnlyNext<K, V>(c: Cycle<K, V>, i: nat) {
    forall j :: i <= j < |c.calls| ==> c.calls[j].CallNext?
  }

  lemma {:induction false} NextAdvancesNothing<K, V>(c: Cycle<K, V>, i: nat, j: nat, key: K)
    requires |c.run| == |c.calls| + 1 && i <= j <= |c.calls| && OnlyNext(c, i)
    ensures Advancing(c, i, j, key) == 0
    decreases j
  {
    if i < j {
      NextAdvancesNothing(c, i, j - 1, key);
    }
  }

  /** If only `next` is called after the update, the countdown misses the key exactly when it is shorter than the
      queue. */
  lemma UpdatedThenOnlyNextIff<K, V>(c: Cycle<K, V>, i: nat, key: K)
    requires IsCycle(c) && 0 < i <= |c.calls| && At(c, |c.calls|).state.countdown == 0
    requires c.calls[i - 1].CallUpdate? && c.calls[i - 1].key == key && OnlyNext(c, i)
    ensures CoveredBy(c, |c.calls|, key) <==>
            CoveredBy(c, i - 1, key) || 0 < |At(c, i).state.queue| <= At(c, i).state.countdown
  {
    UpdatedKeyCoveredIff(c, i, key);
    AtNext(c, i - 1);
    forall j | i <= j <= |c.calls| ensures Advancing(c, i, j, key) == 0 {
      NextAdvancesNothing(c, i, j, key);
    }
    if |At(c, i).state.queue| <= At(c, i).state.countdown {
      assert Advancing(c, i, i, key) >= |At(c, i).state.queue| - At(c, i).state.countdown;
    }
  }

  lemma {:induction false} NextCountsDown<K, V>(c: Cycle<K, V>, i: nat, j: nat)
    requires IsCycle(c) && i <= j <= |c.calls| && OnlyNext(c, i) && At(c, i).state.queue != []
    ensures At(c, j).state.queue != []
    ensures var before := At(c, i).state.countdown;
            At(c, j).state.countdown == if j - i <= before then before - (j - i) else 0
    decreases j - i
  {
    if i < j {
      NextCountsDown(c, i, j - 1);
      AtInCycle(c, j - 1);
      AtNext(c, j - 1);
    }
  }

  lemma UpdateAt<K, V>(c: Cycle<K, V>, i: nat, key: K)
    requires IsCycle(c) && i < |c.calls| && c.calls[i].CallUpdate?
    ensures At(c, i + 1).state.queue == Without(At(c, i).state.queue, c.calls[i].key) + [c.calls[i].key]
    ensures At(c, i + 1).state.countdown == At(c, i).state.countdown
    ensures CoveredBy(c, i + 1, key) <==> CoveredBy(c, i, key)
  {
    AtNext(c, i);
    CoveredNext(c, i, key);
  }

  lemma WithoutLength<K>(s: seq<K>, key: K)
    requires Distinct(s)
    ensures |Without(s, key)| == if key in s then |s| - 1 else |s|
  {
    if key in s {
      var p :| 0 <= p < |s| && s[p] == key;
      WithoutPresent(s, p);
    } else {
      WithoutAbsent(s, key);
    }
  }

  lemma AtStart<K, V>(c: Cycle<K, V>, key: K)
    requires IsCycle(c)
    ensures At(c, 0).state == State(c.pairs, c.queue, |c.queue|) && !CoveredBy(c, 0, key)
  {
  }

  /** Inserting a key makes the queue longer and leaves the countdown. */
  lemma InsertAt<K, V>(c: Cycle<K, V>, i: nat, key: K)
    requires IsCycle(c) && i < |c.calls| && c.calls[i].CallUpdate? && c.calls[i].key !in At(c, i).state.queue
    ensures At(c, i + 1).state.queue == At(c, i).state.queue + [c.calls[i].key]
    ensures At(c, i + 1).state.countdown == At(c, i).state.countdown
    ensures CoveredBy(c, i + 1, key) <==> CoveredBy(c, i, key)
  {
    UpdateAt(c, i, key);
    WithoutAbsent(At(c, i).state.queue, c.calls[i].key);
  }

  /** Updating a queued key leaves the lengths. */
  lemma UpdateQueuedAt<K, V>(c: Cycle<K, V>, i: nat)
    requires IsCycle(c) && i < |c.calls| && c.calls[i].CallUpdate? && c.calls[i].key in At(c, i).state.queue
    ensures |At(c, i + 1).state.queue| == |At(c, i).state.queue|
    ensures At(c, i + 1).state.countdown == At(c, i).state.countdown
  {
    UpdateAt(c, i, c.calls[i].key);
    AtInCycle(c, i);
    WithoutLength(At(c, i).state.queue, c.calls[i].key);
  }

  /** Inserting a key, updating one of the reset and then calling `next` as often as there were keys at the reset
      never hands out the updated key. */
  lemma InsertThenUpdateMisses<K, V>(c: Cycle<K, V>, key: K)
    requires IsCycle(c) && |c.calls| == |c.queue| + 2 && key in c.queue
    requires c.calls[0].CallUpdate? && c.calls[0].key !in c.queue
    requires c.calls[1].CallUpdate? && c.calls[1].key == key && OnlyNext(c, 2)
    ensures At(c, |c.calls|).state.countdown == 0 && !CoveredBy(c, |c.calls|, key)
  {
    AtStart(c, key);
    InsertAt(c, 0, key);
    UpdateQueuedAt(c, 1);
    NextCountsDown(c, 2, |c.calls|);
    UpdatedThenOnlyNextIff(c, 2, key);
  }

  /** For example with three keys. */
  lemma CountdownCanMissAKey() returns (c: Cycle<int, int>)
    ensures IsCycle(c) && 1 in c.pairs && At(c, |c.calls|).state.countdown == 0 && !CoveredBy(c, |c.calls|, 1)
  {
    var pairs, queue := map[1 := 10, 2 := 20, 3 := 30], [1, 2, 3];
    var calls := [CallUpdate(4, 40), CallUpdate(1, 11), CallNext, CallNext, CallNext];
    c := Cycle(pairs, queue, calls, RunOf(pairs, queue, calls));
    InsertThenUpdateMisses(c, 1);
  }

  // ---------------------------------------------------------------- the map itself

  class SeqMap<K(==), V> {
    var pairs: map<K, V>
    var queue: seq<K>
    var cycleCountdown: nat
    ghost var atReset: set<K>
    ghost var log: seq<Event<K, V>>

    ghost function View(): State<K, V>
      reads this
    {
      State(pairs, queue, cycleCountdown)
    }

    ghost predicate Valid()
      reads this
    {
      Inv(View(), atReset, log)
    }

    /** Queues the keys in whatever order the hash map yields them. */
    constructor (initial: map<K, V>)
      ensures Valid() && pairs == initial && atReset == initial.Keys && log == []
    {
      var keys := initial.Keys;
      var listed: seq<K> := [];
      while keys != {}
        invariant Distinct(listed) && keys <= initial.Keys
        invariant forall k :: k in listed ==> k in initial && k !in keys
        invariant forall k :: k in initial ==> k in listed || k in keys
        decreases |keys|
      {
        var key :| key in keys;
        keys := keys - {key};
        listed := listed + [key];
      }
      pairs, queue, cycleCountdown := initial, listed, |listed|;
      atReset, log := initial.Keys, [];
      ResetInv(initial, listed);
    }

    method Update(key: K, value: V) returns (previous: Option<V>)
      requires Valid()
      modifies this
      ensures Valid() && View() == AfterUpdate(old(View()), key, value)
      ensures atReset == old(atReset) && log == old(log) + [Updated(key, value)]
      ensures previous == if key in old(pairs) then Some(old(pairs)[key]) else None
    {
      UpdateKeepsInv(View(), atReset, log, key, value);
      previous := if key in pairs then Some(pairs[key]) else None;
      queue := Without(queue, key);
      queue := queue + [key];
      pairs := pairs[key := value];
      log := log + [Updated(key, value)];
    }

    method Remove(key: K) returns (previous: Option<V>)
      requires Valid()
      modifies this
      ensures Valid() && View() == AfterRemove(old(View()), key)
      ensures atReset == old(atReset) && log == old(log) + [Removed(key)]
      ensures previous == if key in old(pairs) then Some(old(pairs)[key]) else None
    {
      RemoveKeepsInv(View(), atReset, log, key);
      previous := if key in pairs then Some(pairs[key]) else None;
      queue := Without(queue, key);
      pairs := pairs - {key};
      log := log + [Removed(key)];
    }

    method ResetCountdown()
      requires Valid()
      modifies this
      ensures Valid() && pairs == old(pairs) && queue == old(queue) && cycleCountdown == |queue|
      ensures atReset == pairs.Keys && log == []
    {
      ResetInv(pairs, queue);
      cycleCountdown := |queue|;
      atReset, log := pairs.Keys, [];
    }

    /** Rotates the queue; the key it takes from the queue is always in the map. */
    method Next() returns (r: Option<(nat, (K, V))>)
      requires Valid()
      modifies this
      ensures Valid() && View() == AfterNext(old(View())) && atReset == old(atReset)
      ensures r.None? <==> old(pairs) == map[]
      ensures r.None? ==> log == old(log)
      ensures r.Some? ==>
                var (countdown, (key, value)) := r.value;
                && countdown == cycleCountdown && key in pairs && value == pairs[key]
                && log == old(log) + [Returned(key, value)]
                && old(queue) != [] && key == old(queue)[0]
    {
      if queue == [] {
        return None;
      }
      NextKeepsInv(View(), atReset, log);
      var key := queue[0];
      queue := queue[1..];
      queue := queue + [key];
      var value := pairs[key];
      cycleCountdown := if cycleCountdown > 0 then cycleCountdown - 1 else 0;
      log := log + [Returned(key, value)];
      r := Some((cycleCountdown, (key, value)));
    }
  }
}

/** Forwarding only the newest item to a slow sink (components/channeler/src/overwrite_channel.rs).

    The receiver and the sink are what they answer, one answer for each attempt; the answers are arbitrary. When
    the answers run out, both have nothing to say. */
module OverwriteChannel {
  import opened Wrappers

  /** What the sink answers when it is asked to take an item. */
  datatype SinkAnswer<E> = NotReady | Taken | Failed(error: E)

  datatype FuturePoll<E> = NotDone | Done(result: Result<(), E>)

  // ---------------------------------------------------------------- what was asked and answered

  /** The receiver answered, or the sink answered when it was offered `item`. */
  datatype Step<T, E> = Got(answer: Poll<T>) | Offered(item: T, reply: SinkAnswer<E>)

  type Log<T, E> = seq<Step<T, E>>

  predicate IsArrival<T, E>(step: Step<T, E>) {
    step.Got? && step.answer.Item?
  }

  predicate IsTake<T, E>(step: Step<T, E>) {
    step.Offered? && step.reply.Taken?
  }

  predicate IsFailure<T, E>(step: Step<T, E>) {
    step.Offered? && step.reply.Failed?
  }

  function ReceiverAnswers<T, E>(log: Log<T, E>): seq<Poll<T>> {
    if log == [] then [] else
    var last := log[|log| - 1];
    ReceiverAnswers(log[..|log| - 1]) + if last.Got? then [last.answer] else []
  }

  function SinkAnswers<T, E>(log: Log<T, E>): seq<SinkAnswer<E>> {
    if log == [] then [] else
    var last := log[|log| - 1];
    SinkAnswers(log[..|log| - 1]) + if last.Offered? then [last.reply] else []
  }

  function Received<T, E>(log: Log<T, E>): seq<T> {
    if log == [] then [] else
    var last := log[|log| - 1];
    Received(log[..|log| - 1]) + if IsArrival(last) then [last.answer.value] else []
  }

  function Sent<T, E>(log: Log<T, E>): seq<T> {
    if log == [] then [] else
    var last := log[|log| - 1];
    Sent(log[..|log| - 1]) + if IsTake(last) then [last.item] else []
  }

  /** The item that waits for the sink: the last one received, unless the sink took it or failed on it. */
  function Held<T, E>(log: Log<T, E>): Option<T> {
    if log == [] then None else
    match log[|log| - 1]
    case Got(Item(item)) => Some(item)
    case Got(_) => Held(log[..|log| - 1])
    case Offered(_, NotReady) => Held(log[..|log| - 1])
    case Offered(_, _) => None
  }

  /** How many answers the receiver and the sink have in all. */
  datatype Scripts = Scripts(receiver: nat, sink: nat)

  /** The receiver was asked last, or there is no point in asking it. */
  predicate JustAsked<T, E>(log: Log<T, E>, scripts: Scripts) {
    || (log != [] && log[|log| - 1].Got?)
    || Over(log)
    || |ReceiverAnswers(log)| == scripts.receiver
  }

  /** The item that arrived last was offered to the sink, if the sink still had an answer. */
  predicate UpToDate<T, E>(log: Log<T, E>, scripts: Scripts) {
    log != [] && IsArrival(log[|log| - 1]) ==> |SinkAnswers(log)| == scripts.sink
  }

  /** The receiver came to its end. */
  predicate Over<T, E>(log: Log<T, E>) {
    log != [] && ((log[|log| - 1].Got? && log[|log| - 1].answer.Ended?) || Over(log[..|log| - 1]))
  }

  predicate HasFailed<T, E>(log: Log<T, E>) {
    log != [] && IsFailure(log[|log| - 1])
  }

  /** What may happen next: the held item is offered after the receiver was asked for a newer one, and the receiver, as
      long as it is not over, is asked after the item that arrived was offered. A failure is final. */
  predicate MayFollow<T(==), E>(log: Log<T, E>, step: Step<T, E>, scripts: Scripts) {
    && (step.Offered? ==> Held(log) == Some(step.item) && JustAsked(log, scripts))
    && (step.Got? ==> !Over(log) && UpToDate(log, scripts))
    && !HasFailed(log)
  }

  predicate Orderly<T(==), E>(log: Log<T, E>, scripts: Scripts) {
    log != [] ==> Orderly(log[..|log| - 1], scripts) && MayFollow(log[..|log| - 1], log[|log| - 1], scripts)
  }

  /** A log with one more answer of the receiver. */
  lemma ExtendGot<T, E>(log: Log<T, E>, answer: Poll<T>, scripts: Scripts)
    requires Orderly(log, scripts) && MayFollow(log, Got(answer), scripts)
    ensures var log' := log + [Got(answer)];
            && ReceiverAnswers(log') == ReceiverAnswers(log) + [answer] && SinkAnswers(log') == SinkAnswers(log)
            && (Over(log') <==> answer.Ended?)
            && Held(log') == (if answer.Item? then Some(answer.value) else Held(log))
            && Orderly(log', scripts) && (!answer.Item? ==> UpToDate(log', scripts))
  {
    assert (log + [Got(answer)])[..|log|] == log;
    assert SinkAnswers(log) + [] == SinkAnswers(log);
  }

  /** A log with one more answer of the sink. */
  lemma ExtendOffered<T, E>(log: Log<T, E>, item: T, reply: SinkAnswer<E>, scripts: Scripts)
    requires Orderly(log, scripts) && MayFollow(log, Offered(item, reply), scripts)
    ensures var log' := log + [Offered(item, reply)];
            && ReceiverAnswers(log') == ReceiverAnswers(log) && SinkAnswers(log') == SinkAnswers(log) + [reply]
            && (Over(log') <==> Over(log))
            && Held(log') == (if reply.NotReady? then Held(log) else None)
            && Orderly(log', scripts) && UpToDate(log', scripts)
  {
    assert (log + [Offered(item, reply)])[..|log|] == log;
    assert ReceiverAnswers(log) + [] == ReceiverAnswers(log);
  }

  lemma Shift<A>(a: seq<A>, b: seq<A>)
    requires b != []
    ensures (a + [b[0]]) + b[1..] == a + b
  {
  }

  lemma {:induction false} AnswersGrow<T, E>(log: Log<T, E>, log': Log<T, E>)
    requires log <= log'
    ensures |ReceiverAnswers(log)| <= |ReceiverAnswers(log')| && |SinkAnswers(log)| <= |SinkAnswers(log')|
    ensures Over(log) ==> Over(log')
    decreases |log'|
  {
    if |log| == |log'| {
      assert log == log';
    } else {
      AnswersGrow(log, log'[..|log'| - 1]);
    }
  }

  // ---------------------------------------------------------------- the channel

  class OverwriteChannel<T(==), E(==)> {
    var optItem: Option<T>
    var receiving: bool
    var incoming: seq<Poll<T>>
    var sink: seq<SinkAnswer<E>>
    ghost const receiverScript: seq<Poll<T>>
    ghost const sinkScript: seq<SinkAnswer<E>>
    ghost var log: Log<T, E>

    ghost function Lengths(): Scripts {
      Scripts(|receiverScript|, |sinkScript|)
    }

    /** The log is orderly and tells the answers given so far, the held item and whether the receiver is over. */
    ghost predicate Valid()
      reads this
    {
      && ReceiverAnswers(log) + incoming == receiverScript && SinkAnswers(log) + sink == sinkScript
      && optItem == Held(log) && (receiving <==> !Over(log))
      && Orderly(log, Lengths())
    }

    /** What a poll finds: the last item was offered, and nothing failed. */
    ghost predicate Ready()
      reads this
    {
      Valid() && UpToDate(log, Lengths()) && !HasFailed(log)
    }

    constructor (incoming: seq<Poll<T>>, sink: seq<SinkAnswer<E>>)
      ensures Ready() && receiving && log == []
      ensures receiverScript == incoming && sinkScript == sink
    {
      receiverScript, sinkScript := incoming, sink;
      this.incoming, this.sink := incoming, sink;
      optItem, receiving := None, true;
      log := [];
    }

    /** The next answer of the receiver, noted in the log. */
    method PollReceiver() returns (answer: Poll<T>)
      requires Ready() && receiving
      modifies this`incoming, this`log
      ensures ReceiverAnswers(log) + incoming == receiverScript && SinkAnswers(log) == SinkAnswers(old(log))
      ensures Held(log) == (if answer.Item? then Some(answer.value) else optItem) && (Over(log) <==> answer.Ended?)
      ensures Orderly(log, Lengths()) && JustAsked(log, Lengths()) && !HasFailed(log) && old(log) <= log
      ensures |incoming| <= |old(incoming)| && (answer.Item? ==> |incoming| < |old(incoming)|)
      ensures !answer.Item? ==> UpToDate(log, Lengths())
      ensures answer.Pending? ==> Blocked(incoming, ReceiverAnswers(old(log)), ReceiverAnswers(log), Pending)
    {
      if incoming == [] {
        return Pending;
      }
      answer := incoming[0];
      ExtendGot(log, answer, Lengths());
      Shift(ReceiverAnswers(log), incoming);
      log := log + [Got(answer)];
      incoming := incoming[1..];
    }

    /** First half of a round: the receiver is asked, and a new item replaces the held one. */
    method Receive() returns (progress: bool)
      requires Ready()
      modifies this`optItem, this`receiving, this`incoming, this`log
      ensures Valid() && JustAsked(log, Lengths()) && !HasFailed(log)
      ensures old(log) <= log && SinkAnswers(log) == SinkAnswers(old(log))
      ensures progress ==> optItem.Some? && |incoming| < |old(incoming)|
      ensures !progress ==> UpToDate(log, Lengths()) && optItem == old(optItem) && |incoming| <= |old(incoming)|
      ensures !progress && receiving ==>
                Blocked(incoming, ReceiverAnswers(old(log)), ReceiverAnswers(log), Pending)
    {
      progress := false;
      if receiving {
        var answer := PollReceiver();
        match answer {
          case Item(item) =>
            optItem := Some(item);
            progress := true;
          case Ended =>
            receiving := false;
          case Pending =>
        }
      }
    }

    /** Second half of a round: the held item is offered to the sink. */
    method Send() returns (answer: SinkAnswer<E>)
      requires Valid() && optItem.Some? && JustAsked(log, Lengths()) && !HasFailed(log)
      modifies this`optItem, this`sink, this`log
      ensures Valid() && UpToDate(log, Lengths())
      ensures old(log) <= log && ReceiverAnswers(log) == ReceiverAnswers(old(log))
      ensures answer.NotReady? ==> Blocked(sink, SinkAnswers(old(log)), SinkAnswers(log), NotReady)
      ensures optItem == if answer.NotReady? then old(optItem) else None
      ensures if answer.Failed? then log != [] && log[|log| - 1] == Offered(old(optItem).value, answer)
              else !HasFailed(log)
    {
      answer := NotReady;
      if sink != [] {
        answer := sink[0];
        ExtendOffered(log, optItem.value, answer, Lengths());
        Shift(SinkAnswers(log), sink);
        log := log + [Offered(optItem.value, answer)];
        sink := sink[1..];
      }
      match answer {
        case Taken =>
          optItem := None;
        case NotReady =>
        case Failed(_) =>
          optItem := None;
      }
    }

    /** The future waits: everything it waits for was asked since `before`, as long as that had an answer, and had
        nothing to give. */
    ghost predicate Waiting(before: Log<T, E>)
      reads this
    {
      && (receiving || optItem.Some?)
      && (receiving ==> Blocked(incoming, ReceiverAnswers(before), ReceiverAnswers(log), Pending))
      && (optItem.Some? ==> Blocked(sink, SinkAnswers(before), SinkAnswers(log), NotReady))
    }

    /** One round, after which the poll is over or goes on with less to receive or to send. */
    method Round() returns (r: Option<FuturePoll<E>>)
      requires Ready()
      modifies this
      ensures Valid() && UpToDate(log, Lengths()) && old(log) <= log
      ensures r.None? ==>
                && !HasFailed(log) && |incoming| <= |old(incoming)|
                && (|incoming| == |old(incoming)| ==> old(optItem).Some? && optItem == None)
      ensures r.Some? ==> Finished(old(log), r.value)
    {
      var recvProgress := Receive();
      if optItem.Some? {
        var answer := Send();
        match answer {
          case Taken =>
            r := None;
          case NotReady =>
            r := if recvProgress then None else Some(NotDone);
          case Failed(error) =>
            r := Some(Done(Err(error)));
        }
      } else {
        r := Some(if receiving then NotDone else Done(Ok(())));
      }
    }

    /** What `r` says about the future: it waits, it sent what it received to the end, or the sink failed. */
    ghost predicate Finished(before: Log<T, E>, r: FuturePoll<E>)
      reads this
    {
      match r
      case NotDone => Waiting(before) && !HasFailed(log)
      case Done(Ok(_)) => !receiving && optItem == None && !HasFailed(log)
      case Done(Err(error)) => HasFailed(log) && log[|log| - 1].reply == Failed(error)
    }

    method Poll() returns (r: FuturePoll<E>)
      requires Ready()
      modifies this
      ensures Valid() && UpToDate(log, Lengths()) && old(log) <= log
      ensures Finished(old(log), r)
    {
      while true
        invariant Ready() && old(log) <= log
        decreases 2 * |incoming| + if optItem.Some? then 1 else 0
      {
        ghost var start := log;
        var over := Round();
        if over.Some? {
          AnswersGrow(old(log), start);
          return over.value;
        }
      }
    }

    /** A future that waits has used up an answer, or its receiver is over and the sink has no answer left. */
    lemma WaitingUsesAnswers(before: Log<T, E>)
      requires Valid() && Waiting(before) && before <= log && Ended in receiverScript
      ensures |before| < |log| || (!receiving && sink == [])
    {
      EndIsLast(log, Lengths());
      assert receiving ==> Ended in incoming;
      LogCounts(before);
      LogCounts(log);
      AnswersGrow(before, log);
    }
  }

  /** Nothing is left to ask, or the last answer since `before` was `no`. */
  predicate Blocked<A(==)>(left: seq<A>, before: seq<A>, answers: seq<A>, no: A) {
    left == [] || (|before| < |answers| && answers[|answers| - 1] == no)
  }

  // ---------------------------------------------------------------- what an orderly log tells

  /** The items among the answers of the receiver. */
  function Items<T>(answers: seq<Poll<T>>): seq<T> {
    if answers == [] then []
    else Items(answers[..|answers| - 1]) + if answers[|answers| - 1].Item? then [answers[|answers| - 1].value] else []
  }

  /** How many items the sink took. */
  function Takes<E>(answers: seq<SinkAnswer<E>>): nat {
    if answers == [] then 0
    else Takes(answers[..|answers| - 1]) + if answers[|answers| - 1].Taken? then 1 else 0
  }

  /** The answers of a receiver up to the one that says it is over. */
  function UntilEnd<T>(answers: seq<Poll<T>>): seq<Poll<T>> {
    if answers == [] then []
    else if answers[0].Ended? then [answers[0]]
    else [answers[0]] + UntilEnd(answers[1..])
  }

  /** The places, among the received items, of those that were sent. */
  function Picks<T, E>(log: Log<T, E>): seq<int> {
    if log == [] then [] else
    var before := log[..|log| - 1];
    Picks(before) + if IsTake(log[|log| - 1]) then [|Received(before)| - 1] else []
  }

  predicate PickAt<T(==)>(sent: seq<T>, received: seq<T>, picks: seq<int>, i: nat)
    requires i < |sent| == |picks|
  {
    && 0 <= picks[i] < |received| && sent[i] == received[picks[i]]
    && (i > 0 ==> picks[i - 1] < picks[i])
  }

  /** `sent` is the subsequence of `received` at the places `picks`. */
  ghost predicate Subsequence<T>(sent: seq<T>, received: seq<T>, picks: seq<int>) {
    |sent| == |picks| && forall i :: 0 <= i < |sent| ==> PickAt(sent, received, picks, i)
  }

  /** The newest item is held and was not sent, or was sent last. */
  predicate NewestWaits<T(==)>(held: Option<T>, received: seq<T>, picks: seq<int>) {
    var n := |received|;
    match held
    case Some(item) => n > 0 && item == received[n - 1] && (picks == [] || picks[|picks| - 1] < n - 1)
    case None => n == 0 || (picks != [] && picks[|picks| - 1] == n - 1)
  }

  ghost predicate Forwarded<T>(sent: seq<T>, received: seq<T>, picks: seq<int>, held: Option<T>, failed: bool) {
    Subsequence(sent, received, picks) && (!failed ==> NewestWaits(held, received, picks))
  }

  lemma ArrivalForwards<T>(sent: seq<T>, received: seq<T>, picks: seq<int>, held: Option<T>, item: T)
    requires Forwarded(sent, received, picks, held, false)
    ensures Forwarded(sent, received + [item], picks, Some(item), false)
  {
    forall i | 0 <= i < |sent| ensures PickAt(sent, received + [item], picks, i) {
      assert PickAt(sent, received, picks, i);
    }
    assert picks != [] ==> PickAt(sent, received, picks, |picks| - 1);
  }

  lemma TakeForwards<T>(sent: seq<T>, received: seq<T>, picks: seq<int>, item: T)
    requires Forwarded(sent, received, picks, Some(item), false)
    ensures Forwarded(sent + [item], received, picks + [|received| - 1], None, false)
  {
    var sent', picks' := sent + [item], picks + [|received| - 1];
    forall i | 0 <= i < |sent'| ensures PickAt(sent', received, picks', i) {
      if i < |sent| {
        assert PickAt(sent, received, picks, i);
      }
    }
  }

  /** The sink gets a subsequence of what is received, and what waits for it is always the newest item. */
  lemma {:induction false} NewestIsForwarded<T, E>(log: Log<T, E>, scripts: Scripts)
    requires Orderly(log, scripts)
    ensures Forwarded(Sent(log), Received(log), Picks(log), Held(log), HasFailed(log))
    decreases |log|
  {
    if log != [] {
      var before, last := log[..|log| - 1], log[|log| - 1];
      NewestIsForwarded(before, scripts);
      var sent, received, picks := Sent(before), Received(before), Picks(before);
      assert sent + [] == sent && received + [] == received && picks + [] == picks;
      if IsArrival(last) {
        ArrivalForwards(sent, received, picks, Held(before), last.answer.value);
      } else if IsTake(last) {
        TakeForwards(sent, received, picks, last.item);
      }
    }
  }

  /** The log counts every item and every take once. */
  lemma {:induction false} LogCounts<T, E>(log: Log<T, E>)
    ensures Received(log) == Items(ReceiverAnswers(log)) && |Sent(log)| == Takes(SinkAnswers(log))
    ensures |ReceiverAnswers(log)| + |SinkAnswers(log)| == |log|
    decreases |log|
  {
    if log != [] {
      var before, last := log[..|log| - 1], log[|log| - 1];
      LogCounts(before);
      assert last.Got? ==> SinkAnswers(log) == SinkAnswers(before);
      assert last.Offered? ==> ReceiverAnswers(log) == ReceiverAnswers(before);
      assert last.Got? ==> ReceiverAnswers(log)[..|ReceiverAnswers(before)|] == ReceiverAnswers(before);
      assert last.Offered? ==> SinkAnswers(log)[..|SinkAnswers(before)|] == SinkAnswers(before);
    }
  }

  /** The receiver is over exactly if its last answer said so, and it was not asked again. */
  ghost predicate EndsAt<T>(answers: seq<Poll<T>>, over: bool) {
    && (forall i :: 0 <= i < |answers| - 1 ==> !answers[i].Ended?)
    && (over <==> answers != [] && answers[|answers| - 1].Ended?)
  }

  lemma {:induction false} EndIsLast<T, E>(log: Log<T, E>, scripts: Scripts)
    requires Orderly(log, scripts)
    ensures EndsAt(ReceiverAnswers(log), Over(log))
    decreases |log|
  {
    if log != [] {
      EndIsLast(log[..|log| - 1], scripts);
    }
  }

  lemma {:induction false} AnswersUntilEnd<T>(answers: seq<Poll<T>>, rest: seq<Poll<T>>, over: bool)
    requires EndsAt(answers, over)
    ensures UntilEnd(answers + rest) == if over then answers else answers + UntilEnd(rest)
    decreases |answers|
  {
    if answers == [] {
      assert answers + rest == rest;
    } else {
      assert (answers + rest)[1..] == answers[1..] + rest && (answers + rest)[0] == answers[0];
      if |answers| == 1 && over {
        assert answers == [answers[0]];
      } else {
        assert answers == [answers[0]] + answers[1..];
        AnswersUntilEnd(answers[1..], rest, over);
        assert [answers[0]] + (answers[1..] + UntilEnd(rest)) == answers + UntilEnd(rest);
      }
    }
  }

  lemma {:induction false} ItemsConcat<T>(a: seq<Poll<T>>, b: seq<Poll<T>>)
    ensures Items(a + b) == Items(a) + Items(b)
    decreases |b|
  {
    if b == [] {
      assert a + b == a;
    } else {
      var n := |b| - 1;
      ItemsConcat(a, b[..n]);
      assert (a + b)[..|a| + n] == a + b[..n];
    }
  }

  lemma {:induction false} PicksBound<T>(sent: seq<T>, received: seq<T>, picks: seq<int>, i: nat)
    requires Subsequence(sent, received, picks) && i < |picks|
    ensures picks[i] >= i
  {
    assert PickAt(sent, received, picks, i);
    if i > 0 {
      PicksBound(sent, received, picks, i - 1);
    }
  }

  /** What was received is what the receiver had to give, up to its end once it is over. */
  lemma ReceivedInOrder<T, E>(log: Log<T, E>, left: seq<Poll<T>>, scripts: Scripts)
    requires Orderly(log, scripts)
    ensures var items := Items(UntilEnd(ReceiverAnswers(log) + left));
            Received(log) <= items && (Over(log) ==> Received(log) == items && Ended in ReceiverAnswers(log))
  {
    LogCounts(log);
    EndIsLast(log, scripts);
    AnswersUntilEnd(ReceiverAnswers(log), left, Over(log));
    ItemsConcat(ReceiverAnswers(log), UntilEnd(left));
  }

  /** While an item is held, the sink took fewer items than were received. */
  lemma HeldIsNotTaken<T, E>(log: Log<T, E>, scripts: Scripts)
    requires Orderly(log, scripts) && !HasFailed(log) && Held(log).Some?
    ensures Takes(SinkAnswers(log)) < |Received(log)|
  {
    LogCounts(log);
    NewestIsForwarded(log, scripts);
    if Picks(log) != [] {
      PicksBound(Sent(log), Received(log), Picks(log), |Picks(log)| - 1);
    }
  }

  // ---------------------------------------------------------------- whole runs

  /** Polls a new future until it is done, at most `polls` times. Each unfinished poll uses up an answer, so that a
      future whose receiver comes to its end is done in time or left holding an item the sink has no answer for. */
  method PollUntilDone<T(==), E(==)>(channel: OverwriteChannel<T, E>, polls: nat) returns (r: FuturePoll<E>)
    requires channel.Ready() && channel.receiving
    modifies channel
    ensures channel.Valid() && UpToDate(channel.log, channel.Lengths())
    ensures HasFailed(channel.log) <==> r.Done? && r.result.Err?
    ensures HasFailed(channel.log) ==> channel.log[|channel.log| - 1].reply == Failed(r.result.error)
    ensures r.Done? && r.result.Ok? ==> !channel.receiving && channel.optItem == None
    ensures r.NotDone? && Ended in channel.receiverScript && polls > |channel.receiverScript| + |channel.sinkScript| ==>
              !channel.receiving && channel.sink == [] && channel.optItem.Some?
  {
    r := NotDone;
    for i := 0 to polls
      invariant channel.Ready() && r.NotDone? && (channel.receiving || channel.optItem.Some?)
      invariant Ended in channel.receiverScript ==> |channel.log| >= i || (!channel.receiving && channel.sink == [])
    {
      ghost var before := channel.log;
      r := channel.Poll();
      if r.Done? {
        break;
      }
      AnswersGrow(before, channel.log);
      if Ended in channel.receiverScript {
        channel.WaitingUsesAnswers(before);
      }
    }
    LogCounts(channel.log);
  }

  /** A whole run. If it succeeds, it received every item the receiver had before its end, and sent the last of them. If
      the receiver comes to its end, enough polls finish the future unless the sink never takes the last item. */
  method Run<T(==), E(==)>(incoming: seq<Poll<T>>, sink: seq<SinkAnswer<E>>, polls: nat)
    returns (r: FuturePoll<E>, ghost log: Log<T, E>)
    ensures ReceiverAnswers(log) <= incoming && SinkAnswers(log) <= sink
    ensures Orderly(log, Scripts(|incoming|, |sink|)) && UpToDate(log, Scripts(|incoming|, |sink|))
    ensures Received(log) <= Items(UntilEnd(incoming))
    ensures Forwarded(Sent(log), Received(log), Picks(log), Held(log), HasFailed(log))
    ensures HasFailed(log) <==> r.Done? && r.result.Err?
    ensures r.Done? && r.result.Ok? ==>
              Ended in incoming && Received(log) == Items(UntilEnd(incoming)) && Held(log) == None
    ensures r.Done? && r.result.Err? ==> Failed(r.result.error) in sink
    ensures r.NotDone? && Ended in incoming && polls > |incoming| + |sink| ==>
              && Received(log) == Items(UntilEnd(incoming)) && SinkAnswers(log) == sink
              && Held(log).Some?
    ensures Ended in incoming && polls > |incoming| + |sink| && Takes(sink) >= |Items(UntilEnd(incoming))| ==> r.Done?
  {
    var channel := new OverwriteChannel(incoming, sink);
    r := PollUntilDone(channel, polls);
    log := channel.log;
    NewestIsForwarded(log, channel.Lengths());
    ReceivedInOrder(log, channel.incoming, channel.Lengths());
    if HasFailed(log) {
      assert log[|log| - 1].reply in SinkAnswers(log);
    } else if Held(log).Some? {
      HeldIsNotTaken(log, channel.Lengths());
    }
  }
}

/** The token channel as an object: mutations change it in place, and the two simulations work on a clone
    and report the mutations they applied (components/funder/src/token_channel.rs). Each method is proved
    against the functions of module TokenTransitions; hash maps and sets are visited in no particular order. */
module TokenChannel {
  import opened Wrappers
  import opened Integers
  import opened MutualCredit
  import opened TokenTransitions
  import TokenRun

  lemma MutateAllAppend(ch: Channel, ms: seq<TcMutation>, m: TcMutation)
    ensures MutateAll(ch, ms + [m])
         == match MutateAll(ch, ms) case None => None case Some(ch') => Mutated(ch', m)
  {
    assert (ms + [m])[..|ms|] == ms;
  }

  lemma {:induction false} MutateAllConcat(ch: Channel, a: seq<TcMutation>, b: seq<TcMutation>)
    requires MutateAll(ch, a).Some?
    ensures MutateAll(ch, a + b) == MutateAll(MutateAll(ch, a).value, b)
    decreases |b|
  {
    if b == [] {
      assert a + b == a;
    } else {
      var init, last := b[..|b| - 1], b[|b| - 1];
      MutateAllConcat(ch, a, init);
      MutateAllAppend(ch, a + init, last);
      assert a + b == a + init + [last];
    }
  }

  lemma CountTwice(bs: seq<CurrencyBalanceInfo>, i: nat, j: nat)
    requires i < j < |bs|
    ensures bs[i] == bs[j] ==> multiset(bs)[bs[i]] >= 2
  {
    assert bs == bs[..j] + bs[j..] && bs[..j][i] == bs[i] && bs[j..][0] == bs[j];
    assert bs[i] in bs[..j] && bs[j] in bs[j..];
  }

  predicate ByCurrency(bs: seq<CurrencyBalanceInfo>) {
    forall i, j :: 0 <= i < j < |bs| ==> bs[i].currency <= bs[j].currency
  }

  /** `b` placed behind every entry that does not come after it. */
  function Inserted(bs: seq<CurrencyBalanceInfo>, b: CurrencyBalanceInfo): (r: seq<CurrencyBalanceInfo>)
    ensures multiset(r) == multiset(bs) + multiset{b}
  {
    if bs == [] then [b]
    else if b.currency < bs[0].currency then [b] + bs
    else
      assert bs == [bs[0]] + bs[1..];
      [bs[0]] + Inserted(bs[1..], b)
  }

  lemma {:induction false} InsertedSorted(bs: seq<CurrencyBalanceInfo>, b: CurrencyBalanceInfo)
    requires ByCurrency(bs)
    ensures ByCurrency(Inserted(bs, b))
  {
    if bs != [] && bs[0].currency <= b.currency {
      InsertedSorted(bs[1..], b);
      var rest := Inserted(bs[1..], b);
      forall k | 0 <= k < |rest| ensures bs[0].currency <= rest[k].currency {
        assert rest[k] in multiset(rest);
        assert rest[k] in bs[1..] || rest[k] == b;
      }
    }
  }

  /** Sorting by currency. */
  method SortByCurrency(bs: seq<CurrencyBalanceInfo>) returns (r: seq<CurrencyBalanceInfo>)
    ensures ByCurrency(r) && multiset(r) == multiset(bs)
  {
    r := [];
    for i := 0 to |bs|
      invariant ByCurrency(r) && multiset(r) == multiset(bs[..i])
    {
      InsertedSorted(r, bs[i]);
      assert bs[..i + 1] == bs[..i] + [bs[i]];
      r := Inserted(r, bs[i]);
    }
    assert bs[..|bs|] == bs;
  }

  /** Listing the balances in whatever order the map yields them and sorting gives the canonical list. */
  method CollectBalances(credits: Credits) returns (bs: seq<CurrencyBalanceInfo>)
    ensures bs == Balances(credits)
  {
    var collected: seq<CurrencyBalanceInfo> := [];
    var left := credits.Keys;
    while left != {}
      invariant left <= credits.Keys
      invariant forall b :: multiset(collected)[b] ==
                  if b.currency in credits.Keys - left && b.balanceInfo == credits[b.currency].balance then 1 else 0
      decreases left
    {
      var c :| c in left;
      collected := collected + [CurrencyBalanceInfo(c, credits[c].balance)];
      left := left - {c};
    }
    bs := SortByCurrency(collected);
    forall b ensures b in bs <==> b.currency in credits && b.balanceInfo == credits[b.currency].balance {
      assert b in bs <==> multiset(bs)[b] > 0;
    }
    forall i, j | 0 <= i < j < |bs| ensures bs[i].currency < bs[j].currency {
      assert bs[i] in bs && bs[j] in bs;
      CountTwice(bs, i, j);
    }
    CanonicalUnique(bs, credits);
  }

  type Processed = Result<(MutualCredit, seq<IncomingMessage>), OperationError>

  function Prefixed(messages: seq<IncomingMessage>, r: Processed): Processed {
    if r.Err? then r else Ok((r.value.0, messages + r.value.1))
  }

  lemma PrefixedEmpty(r: Processed)
    ensures Prefixed([], r) == r
  {
    if r.Ok? {
      assert [] + r.value.1 == r.value.1;
    }
  }

  lemma PrefixedCons(messages: seq<IncomingMessage>, first: IncomingMessage, r: Processed)
    ensures r.Ok? ==> Prefixed(messages, Ok((r.value.0, [first] + r.value.1))) == Prefixed(messages + [first], r)
  {
    if r.Ok? {
      assert messages + ([first] + r.value.1) == (messages + [first]) + r.value.1;
    }
  }

  lemma PrefixedStep(messages: seq<IncomingMessage>, mc: MutualCredit, ops: seq<FriendTcOp>, remoteMaxDebt: U128)
    requires ops != []
    ensures var all := Prefixed(messages, ProcessAll(mc, ops, remoteMaxDebt));
            match ProcessOperation(mc, ops[0], remoteMaxDebt)
            case Err(error) => all == Err(error)
            case Ok(output) =>
              match McMutateAll(mc, output.mutations)
              case None => all == Err(Panics)
              case Some(mc') =>
                all == Prefixed(messages + [output.incomingMessage], ProcessAll(mc', ops[1..], remoteMaxDebt))
  {
    var first := ProcessOperation(mc, ops[0], remoteMaxDebt);
    if first.Ok? {
      var next := McMutateAll(mc, first.value.mutations);
      if next.Some? {
        PrefixedCons(messages, first.value.incomingMessage, ProcessAll(next.value, ops[1..], remoteMaxDebt));
      }
    }
  }

  /** Comparing the token with the information it has to agree with. */
  method CheckInfo(info: TokenInfo, credits: Credits, t: MoveToken) returns (r: Result<TokenInfo, ReceiveError>)
    requires ExpectedInfo(info, credits, t) != Err(ReceivePanics)
    ensures r == ExpectedInfo(info, credits, t)
  {
    var balances := CollectBalances(credits);
    if info.counters.moveTokenCounter == U128_MAX {
      return Err(MoveTokenCounterOverflow);
    }
    var own := TokenInfo(
      McInfo(info.mc.localPublicKey, info.mc.remotePublicKey, balances),
      CountersInfo(info.counters.inconsistencyCounter, info.counters.moveTokenCounter + 1));
    if t.body.infoHash != InfoHash(Flip(own)) {
      return Err(InvalidTokenInfo);
    }
    r := Ok(Flip(own));
  }

  /** The messages of a list of operations, and the mutations that apply it, computed on a copy. */
  method ProcessOperationsList(credit: MutualCredit, ops: seq<FriendTcOp>, remoteMaxDebt: U128)
    returns (r: Result<(seq<McMutation>, seq<IncomingMessage>), OperationError>)
    requires ProcessAll(credit, ops, remoteMaxDebt) != Err(Panics)
    ensures match ProcessAll(credit, ops, remoteMaxDebt)
            case Err(error) => r == Err(error)
            case Ok((mc, messages)) =>
              r.Ok? && r.value.1 == messages && McMutateAll(credit, r.value.0) == Some(mc)
    ensures r.Ok? ==>
              && |r.value.1| == |ops|
              && forall k :: 0 <= k < |ops| ==> TellsAt(credit, ops, remoteMaxDebt, r.value.1, k)
  {
    var mc, mutations, messages := credit, [], [];
    assert ops[0..] == ops;
    PrefixedEmpty(ProcessAll(credit, ops, remoteMaxDebt));
    for i := 0 to |ops|
      invariant McMutateAll(credit, mutations) == Some(mc) && |messages| == i
      invariant ProcessAll(credit, ops, remoteMaxDebt) == Prefixed(messages, ProcessAll(mc, ops[i..], remoteMaxDebt))
    {
      PrefixedStep(messages, mc, ops[i..], remoteMaxDebt);
      assert ops[i..][1..] == ops[i + 1..];
      var output := ProcessOperation(mc, ops[i], remoteMaxDebt);
      if output.Err? {
        return Err(output.error);
      }
      McMutateConcat(credit, mutations, output.value.mutations);
      mc := McMutateAll(mc, output.value.mutations).value;
      mutations := mutations + output.value.mutations;
      messages := messages + [output.value.incomingMessage];
    }
    assert messages + [] == messages;
    forall k | 0 <= k < |ops| ensures |messages| == |ops| && TellsAt(credit, ops, remoteMaxDebt, messages, k) {
      ListTells(credit, ops, remoteMaxDebt, k);
    }
    r := Ok((mutations, messages));
  }

  lemma {:induction false} McMutateConcat(mc: MutualCredit, a: seq<McMutation>, b: seq<McMutation>)
    requires McMutateAll(mc, a).Some?
    ensures McMutateAll(mc, a + b) == McMutateAll(McMutateAll(mc, a).value, b)
    decreases |a|
  {
    if a == [] {
      assert a + b == b;
    } else {
      assert (a + b)[1..] == a[1..] + b;
      McMutateConcat(McMutate(mc, a[0]).value, a[1..], b);
    }
  }

  datatype Sent = Sent(unsigned: UnsignedMoveToken, mutations: seq<TcMutation>, tokenInfo: TokenInfo)

  datatype Outcome =
    | WasDuplicate
    | Retransmit(moveToken: MoveToken)
    | WasReceived(mutations: seq<TcMutation>, currencies: seq<ReceivedCurrency>, localRelays: Option<seq<nat>>)

  class TokenChannel {
    var direction: Direction
    var mutualCredits: Credits
    var activeCurrencies: ActiveCurrencies

    function View(): Channel
      reads this
    {
      Channel(direction, mutualCredits, activeCurrencies)
    }

    constructor (ch: Channel)
      ensures View() == ch
    {
      direction, mutualCredits, activeCurrencies := ch.direction, ch.credits, ch.active;
    }

    method Mutate(m: TcMutation)
      requires Mutated(View(), m).Some?
      modifies this
      ensures Some(View()) == Mutated(old(View()), m)
    {
      match m {
        case McMutation(c, mutation) =>
          mutualCredits := mutualCredits[c := McMutate(mutualCredits[c], mutation).value];
        case SetLocalActiveCurrencies(cs) =>
          activeCurrencies := activeCurrencies.(local := SeqSet(cs));
        case SetRemoteActiveCurrencies(cs) =>
          activeCurrencies := activeCurrencies.(remote := SeqSet(cs));
        case AddMutualCredit(c) =>
          var localPk, remotePk := LocalKey(direction), RemoteKey(direction);
          mutualCredits := mutualCredits[c := NewMutualCredit(localPk, remotePk, c, 0)];
        case SetIncoming(t) =>
          direction := Incoming(t);
        case SetOutgoing(t, info) =>
          direction := Outgoing(t, info, LastIncoming(direction));
      }
    }

    /** Opens a credit for every currency that is active on both sides and has none. */
    method OpenCredits() returns (ms: seq<TcMutation>)
      requires AddNewCredits(View()).Some?
      modifies this
      ensures Some(View()) == AddNewCredits(old(View()))
      ensures MutateAll(old(View()), ms) == Some(View())
    {
      ghost var start := View();
      var left := activeCurrencies.CalcActive() - mutualCredits.Keys;
      ms := [];
      assert NewCredits(start).Keys == left;
      while left != {}
        invariant left <= NewCredits(start).Keys && (left != {} ==> Readable(start.direction))
        invariant View() == start.(credits := start.credits + (NewCredits(start) - left))
        invariant MutateAll(start, ms) == Some(View())
        decreases left
      {
        var c :| c in left;
        MutateAllAppend(start, ms, AddMutualCredit(c));
        assert (NewCredits(start) - left)[c := NewCredits(start)[c]] == NewCredits(start) - (left - {c});
        Mutate(AddMutualCredit(c));
        ms := ms + [AddMutualCredit(c)];
        left := left - {c};
      }
      assert NewCredits(start) - {} == NewCredits(start);
    }

    /** Takes over the local side's list of active currencies. */
    method DeclareLocal(opt: Option<seq<Currency>>) returns (r: Result<seq<TcMutation>, SendError>)
      requires ActivateLocal(View(), opt) != Err(SendPanics)
      modifies this
      ensures match ActivateLocal(old(View()), opt)
              case Err(error) => r == Err(error)
              case Ok(ch) => r.Ok? && View() == ch && MutateAll(old(View()), r.value) == Some(ch)
    {
      if opt.None? {
        return Ok([]);
      }
      if !KeepsCurrenciesInUse(mutualCredits, opt.value) {
        return Err(CanNotRemoveCurrencyInUse);
      }
      var m := SetLocalActiveCurrencies(opt.value);
      MutateAllAppend(View(), [], m);
      Mutate(m);
      var openings := OpenCredits();
      MutateAllConcat(old(View()), [] + [m], openings);
      r := Ok([] + [m] + openings);
    }

    /** Takes over the remote side's list of active currencies. */
    method DeclareRemote(opt: Option<seq<Currency>>) returns (r: Result<seq<TcMutation>, ReceiveError>)
      requires ActivateRemote(View(), opt) != Err(ReceivePanics)
      modifies this
      ensures match ActivateRemote(old(View()), opt)
              case Err(error) => r == Err(error)
              case Ok(ch) => r.Ok? && View() == ch && MutateAll(old(View()), r.value) == Some(ch)
    {
      if opt.None? {
        return Ok([]);
      }
      if !KeepsCurrenciesInUse(mutualCredits, opt.value) {
        return Err(ReceiveCanNotRemoveCurrencyInUse);
      }
      var m := SetRemoteActiveCurrencies(opt.value);
      MutateAllAppend(View(), [], m);
      Mutate(m);
      var openings := OpenCredits();
      MutateAllConcat(old(View()), [] + [m], openings);
      r := Ok([] + [m] + openings);
    }

    /** Applies the mutations of one credit. */
    method MutateCredit(c: Currency, ms: seq<McMutation>) returns (out: seq<TcMutation>)
      requires c in mutualCredits && McMutateAll(mutualCredits[c], ms).Some?
      modifies this
      ensures View() == old(View()).(credits := old(mutualCredits)[c := McMutateAll(old(mutualCredits[c]), ms).value])
      ensures MutateAll(old(View()), out) == Some(View())
    {
      ghost var start := View();
      ghost var end := McMutateAll(mutualCredits[c], ms);
      out := [];
      assert ms[0..] == ms;
      for i := 0 to |ms|
        invariant c in mutualCredits && McMutateAll(mutualCredits[c], ms[i..]) == end
        invariant View() == start.(credits := start.credits[c := mutualCredits[c]])
        invariant MutateAll(start, out) == Some(View())
      {
        assert ms[i..][1..] == ms[i + 1..];
        MutateAllAppend(start, out, McMutation(c, ms[i]));
        Mutate(McMutation(c, ms[i]));
        out := out + [McMutation(c, ms[i])];
      }
    }

    /** Queues a list of operations on one credit, each against the credit the previous ones left. */
    method QueueOperations(c: Currency, ops: seq<FriendTcOp>) returns (out: seq<TcMutation>)
      requires c in mutualCredits && QueueAll(mutualCredits[c], ops).Some?
      modifies this
      ensures View() == old(View()).(credits := old(mutualCredits)[c := QueueAll(old(mutualCredits[c]), ops).value])
      ensures MutateAll(old(View()), out) == Some(View())
    {
      ghost var start := View();
      ghost var end := QueueAll(mutualCredits[c], ops);
      out := [];
      assert ops[0..] == ops;
      for i := 0 to |ops|
        invariant c in mutualCredits && QueueAll(mutualCredits[c], ops[i..]) == end
        invariant View() == start.(credits := start.credits[c := mutualCredits[c]])
        invariant MutateAll(start, out) == Some(View())
      {
        assert ops[i..][1..] == ops[i + 1..];
        var mutations := QueueOperation(mutualCredits[c], ops[i]).value;
        var ms := MutateCredit(c, mutations);
        MutateAllConcat(start, out, ms);
        out := out + ms;
      }
    }

    method SendEach(cops: seq<CurrencyOperations>) returns (out: seq<TcMutation>)
      requires SendOperations(mutualCredits, cops).Some?
      modifies this
      ensures View() == old(View()).(credits := SendOperations(old(mutualCredits), cops).value)
      ensures MutateAll(old(View()), out) == Some(View())
    {
      ghost var start := View();
      ghost var end := SendOperations(mutualCredits, cops);
      out := [];
      assert cops[0..] == cops;
      for i := 0 to |cops|
        invariant SendOperations(mutualCredits, cops[i..]) == end
        invariant View() == start.(credits := mutualCredits)
        invariant MutateAll(start, out) == Some(View())
      {
        assert cops[i..][1..] == cops[i + 1..];
        var ms := QueueOperations(cops[i].currency, cops[i].operations);
        MutateAllConcat(start, out, ms);
        out := out + ms;
      }
    }

    /** The token the holder would send, and the mutations that bring the channel up to date with it. */
    method SimulateSend(o: Order) returns (r: Result<Sent, SendError>)
      requires direction.Incoming? && Send(View(), o) != Err(SendPanics)
      ensures match Send(View(), o)
              case Err(error) => r == Err(error)
              case Ok(output) =>
                && r.Ok? && r.value.unsigned == output.unsigned && r.value.tokenInfo == output.tokenInfo
                && MutateAll(View(), r.value.mutations) == Some(output.channel)
    {
      var clone := new TokenChannel(View());
      var activation := clone.DeclareLocal(o.activeCurrencies);
      if activation.Err? {
        return Err(activation.error);
      }
      var mutations := activation.value;
      var queued := clone.SendEach(o.operations);
      MutateAllConcat(View(), mutations, queued);
      mutations := mutations + queued;

      var balances := CollectBalances(clone.mutualCredits);
      var cur := direction.moveTokenIn.tokenInfo;
      var info := TokenInfo(
        McInfo(cur.mc.remotePublicKey, cur.mc.localPublicKey, balances),
        CountersInfo(cur.counters.inconsistencyCounter, WrappingSucc(cur.counters.moveTokenCounter)));
      var unsigned := UnsignedMoveToken(
        direction.moveTokenIn.newToken, o.operations, o.localRelays, o.activeCurrencies, InfoHash(info), o.randNonce);
      r := Ok(Sent(unsigned, mutations, info));
    }

    method ReceiveEach(cops: seq<CurrencyOperations>, maxDebts: MaxDebts)
      returns (r: Result<(seq<TcMutation>, seq<ReceivedCurrency>), ReceiveError>)
      requires ReceiveOperations(mutualCredits, cops, maxDebts) != Err(InvalidTransaction(Panics))
      modifies this
      ensures match ReceiveOperations(old(mutualCredits), cops, maxDebts)
              case Err(error) => r == Err(error)
              case Ok((credits, currencies)) =>
                && r.Ok? && r.value.1 == currencies && View() == old(View()).(credits := credits)
                && MutateAll(old(View()), r.value.0) == Some(View())
    {
      ghost var start := View();
      ghost var end := ReceiveOperations(mutualCredits, cops, maxDebts);
      var out: seq<TcMutation>, currencies := [], [];
      assert cops[0..] == cops;
      ListedEmpty(end);
      for i := 0 to |cops|
        invariant end == Listed(currencies, ReceiveOperations(mutualCredits, cops[i..], maxDebts))
        invariant View() == start.(credits := mutualCredits)
        invariant MutateAll(start, out) == Some(View())
      {
        var c := cops[i].currency;
        ListedStep(currencies, mutualCredits, cops[i..], maxDebts);
        assert cops[i..][1..] == cops[i + 1..];
        if c !in mutualCredits {
          return Err(InvalidCurrency);
        }
        var processed := ProcessOperationsList(mutualCredits[c], cops[i].operations, MaxDebt(maxDebts, c));
        if processed.Err? {
          return Err(InvalidTransaction(processed.error));
        }
        var ms := MutateCredit(c, processed.value.0);
        MutateAllConcat(start, out, ms);
        out := out + ms;
        currencies := currencies + [ReceivedCurrency(c, processed.value.1)];
      }
      r := Ok((out, currencies));
    }

    /** What the waiting side makes of the token that follows its own. */
    method SimulateMatch(t: MoveToken, maxDebts: MaxDebts) returns (r: Result<Outcome, ReceiveError>)
      requires TokenRun.Good(View())
      ensures Simulates(r, View(), ReceiveMatch(View(), t, maxDebts))
    {
      TokenRun.ReceiveNeverPanics(View(), t, maxDebts);
      r := CheckMatch(t, maxDebts);
    }

    /** Takes over the currencies and operations of a token. */
    method Absorb(t: MoveToken, maxDebts: MaxDebts)
      returns (r: Result<(seq<TcMutation>, seq<ReceivedCurrency>), ReceiveError>)
      requires Absorbed(View(), t, maxDebts) != Err(ReceivePanics)
      requires Absorbed(View(), t, maxDebts) != Err(InvalidTransaction(Panics))
      modifies this
      ensures match Absorbed(old(View()), t, maxDebts)
              case Err(error) => r == Err(error)
              case Ok((ch, currencies)) =>
                && r.Ok? && r.value.1 == currencies && View() == ch
                && MutateAll(old(View()), r.value.0) == Some(View())
    {
      ghost var start := View();
      var activation := DeclareRemote(t.body.activeCurrencies);
      if activation.Err? {
        return Err(activation.error);
      }
      var processed := ReceiveEach(t.body.operations, maxDebts);
      if processed.Err? {
        return Err(processed.error);
      }
      MutateAllConcat(start, activation.value, processed.value.0);
      r := Ok((activation.value + processed.value.0, processed.value.1));
    }

    /** The steps of `SimulateMatch`, none of which panics by itself. */
    method CheckMatch(t: MoveToken, maxDebts: MaxDebts) returns (r: Result<Outcome, ReceiveError>)
      requires direction.Outgoing? && !PanicsOnReceive(ReceiveMatch(View(), t, maxDebts))
      ensures Simulates(r, View(), ReceiveMatch(View(), t, maxDebts))
    {
      if !VerifyMoveToken(t, direction.tokenInfo.mc.remotePublicKey) {
        return Err(InvalidSignature);
      }
      var clone := new TokenChannel(View());
      var absorbed := clone.Absorb(t, maxDebts);
      if absorbed.Err? {
        return Err(absorbed.error);
      }
      var expected := CheckInfo(direction.tokenInfo, clone.mutualCredits, t);
      if expected.Err? {
        return Err(expected.error);
      }
      var last := SetIncoming(CreateHashed(t, expected.value));
      MutateAllAppend(View(), absorbed.value.0, last);
      r := Ok(WasReceived(absorbed.value.0 + [last], absorbed.value.1, t.body.localRelays));
    }

    method SimulateReceive(t: MoveToken, maxDebts: MaxDebts) returns (r: Result<Outcome, ReceiveError>)
      requires direction.Outgoing? && t.body.oldToken == direction.moveTokenOut.newToken ==> TokenRun.Good(View())
      ensures Simulates(r, View(), Receive(View(), t, maxDebts))
      // The holder knows the token it holds; the waiting side what follows its own token or precedes it.
      ensures direction.Incoming? ==>
                r == if IsHeld(t, direction.moveTokenIn) then Ok(WasDuplicate) else Err(ChainInconsistency)
      ensures direction.Outgoing? ==>
                var follows := t.body.oldToken == direction.moveTokenOut.newToken;
                var precedes := t.newToken == direction.moveTokenOut.body.oldToken;
                && (r == Err(ChainInconsistency) <==> !follows && !precedes)
                && (r == Ok(Retransmit(direction.moveTokenOut)) <==> !follows && precedes)
                && (r.Ok? && r.value.WasReceived? ==>
                      follows && VerifyMoveToken(t, RemoteKey(direction)) && r.value.localRelays == t.body.localRelays)
    {
      if direction.Outgoing? {
        WaiterAnswers(View(), t, maxDebts);
      }
      match direction {
        case Incoming(tokenIn) =>
          if tokenIn == CreateHashed(t, tokenIn.tokenInfo) {
            r := Ok(WasDuplicate);
          } else {
            r := Err(ChainInconsistency);
          }
        case Outgoing(out, _, _) =>
          if t.body.oldToken == out.newToken {
            r := SimulateMatch(t, maxDebts);
          } else if out.body.oldToken == t.newToken {
            r := Ok(Retransmit(out));
          } else {
            r := Err(ChainInconsistency);
          }
      }
    }
  }

  /** The simulation reports what `target` says; its mutations, replayed, lead to the channel of `target`. */
  predicate Simulates(r: Result<Outcome, ReceiveError>, ch: Channel, target: Result<ReceiveOutput, ReceiveError>) {
    match target
    case Err(error) => r == Err(error)
    case Ok(Duplicate) => r == Ok(WasDuplicate)
    case Ok(RetransmitOutgoing(t)) => r == Ok(Retransmit(t))
    case Ok(Received(channel, currencies, localRelays)) =>
      && r.Ok? && r.value.WasReceived? && r.value.currencies == currencies && r.value.localRelays == localRelays
      && MutateAll(ch, r.value.mutations) == Some(channel)
  }

  /** The channel after the currencies and operations of a token. */
  function Absorbed(ch: Channel, t: MoveToken, maxDebts: MaxDebts)
    : Result<(Channel, seq<ReceivedCurrency>), ReceiveError>
  {
    match ActivateRemote(ch, t.body.activeCurrencies)
    case Err(error) => Err(error)
    case Ok(ch1) =>
      match ReceiveOperations(ch1.credits, t.body.operations, maxDebts)
      case Err(error) => Err(error)
      case Ok((credits, currencies)) => Ok((ch1.(credits := credits), currencies))
  }

  type ReceivedAll = Result<(Credits, seq<ReceivedCurrency>), ReceiveError>

  function Listed(currencies: seq<ReceivedCurrency>, r: ReceivedAll): ReceivedAll {
    if r.Err? then r else Ok((r.value.0, currencies + r.value.1))
  }

  lemma ListedEmpty(r: ReceivedAll)
    ensures Listed([], r) == r
  {
    if r.Ok? {
      assert [] + r.value.1 == r.value.1;
    }
  }

  lemma ListedStep(currencies: seq<ReceivedCurrency>, credits: Credits, cops: seq<CurrencyOperations>,
                   maxDebts: MaxDebts)
    requires cops != []
    ensures var c := cops[0].currency;
            var all := Listed(currencies, ReceiveOperations(credits, cops, maxDebts));
            if c !in credits then all == Err(InvalidCurrency) else
            match ProcessAll(credits[c], cops[0].operations, MaxDebt(maxDebts, c))
            case Err(error) => all == Err(InvalidTransaction(error))
            case Ok((mc, messages)) =>
              all == Listed(currencies + [ReceivedCurrency(c, messages)],
                            ReceiveOperations(credits[c := mc], cops[1..], maxDebts))
  {
    var r := ReceiveOperations(credits, cops, maxDebts);
    if r.Ok? {
      assert currencies + r.value.1 == currencies + [r.value.1[0]] + r.value.1[1..];
    }
  }
}

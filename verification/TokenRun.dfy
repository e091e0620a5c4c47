/** Two friends exchanging the token over channels that keep order but may lose messages.

    A side that is waiting may send its token again at any time, and every side may be shown any
    message still in flight, so old tokens keep arriving. */
module TokenRun {
  import opened Wrappers
  import opened Integers
  import opened MutualCredit
  import opened TokenTransitions

  // ---------------------------------------------------------------- mirrored channels

  ghost predicate AllSound(credits: Credits) {
    forall c <- credits :: Sound(credits[c])
  }

  predicate Named(credits: Credits, localPk: PublicKey, remotePk: PublicKey) {
    forall c <- credits ::
      && credits[c].localPublicKey == localPk && credits[c].remotePublicKey == remotePk && credits[c].currency == c
  }

  /** How deep the chain of tokens behind `t` is. */
  function Depth(t: Token): nat {
    match t
    case FromPublicKey(_) => 0
    case Signed(_, body) => 1 + Depth(body.oldToken)
  }

  /** A waiting side whose account of the channel is in order. */
  ghost predicate Good(ch: Channel) {
    && ch.direction.Outgoing?
    && var info := ch.direction.tokenInfo;
       && info.mc.balances == Balances(ch.credits)
       && AllSound(ch.credits)
       && Named(ch.credits, info.mc.localPublicKey, info.mc.remotePublicKey)
       && ch.credits.Keys == ch.active.CalcActive()
  }

  /** The side that holds the token while `ch` waits. */
  ghost function Holder(ch: Channel): Channel
    requires Good(ch)
  {
    Channel(Incoming(CreateHashed(ch.direction.moveTokenOut, ch.direction.tokenInfo)),
            MirrorAll(ch.credits), ch.active.Swap())
  }

  /** The holder `h` after it sent `o`, replayed the mutations and signed the token. */
  ghost function SentFrom(h: Channel, o: Order): Channel
    requires h.direction.Incoming? && Send(h, o).Ok?
  {
    var out := Send(h, o).value;
    Channel(Outgoing(SignMoveToken(LocalKey(h.direction), out.unsigned), out.tokenInfo, Some(h.direction.moveTokenIn)),
            out.channel.credits, out.channel.active)
  }

  /** Recording the signed token completes the sending: the mutation that turns the channel around leads there. */
  lemma SetOutgoingSends(h: Channel, o: Order)
    requires h.direction.Incoming? && Send(h, o).Ok?
    ensures var out := Send(h, o).value;
            Mutated(out.channel, SetOutgoing(SignMoveToken(LocalKey(h.direction), out.unsigned), out.tokenInfo))
            == Some(SentFrom(h, o))
  {
  }

  function OrderOf(t: MoveToken): Order {
    Order(t.body.operations, t.body.localRelays, t.body.activeCurrencies, t.body.randNonce)
  }

  /** Every request in the token passes the receiver's arithmetic; seen from the sender. */
  predicate AllFit(credits: Credits, cops: seq<CurrencyOperations>, maxDebts: MaxDebts)
    decreases |cops|
  {
    cops != [] && cops[0].currency in credits ==>
      var c := cops[0].currency;
      && FitsAll(credits[c], cops[0].operations, MaxDebt(maxDebts, c))
      && (QueueAll(credits[c], cops[0].operations).Some? ==>
            AllFit(credits[c := QueueAll(credits[c], cops[0].operations).value], cops[1..], maxDebts))
  }

  lemma MirrorAllInvolution(credits: Credits)
    requires AllSound(credits)
    ensures Mirrorable(credits) && AllSound(MirrorAll(credits)) && MirrorAll(MirrorAll(credits)) == credits
  {
    forall c <- credits
      ensures Mirrorable(credits) && Sound(Mirror(credits[c])) && Mirror(Mirror(credits[c])) == credits[c]
    {
      MirrorInvolution(credits[c]);
    }
  }

  lemma MirrorAllUpdate(credits: Credits, c: Currency, mc: MutualCredit)
    requires AllSound(credits) && Sound(mc)
    ensures AllSound(credits[c := mc])
    ensures MirrorAll(credits[c := mc]) == MirrorAll(credits)[c := Mirror(mc)]
  {
  }

  /** Processing the operations on one side mirrors queueing them on the other. */
  lemma {:induction false} OperationsMirror(credits: Credits, cops: seq<CurrencyOperations>, maxDebts: MaxDebts)
    requires AllSound(credits)
    ensures var r := ReceiveOperations(MirrorAll(credits), cops, maxDebts);
            && (r.Ok? <==> SendOperations(credits, cops).Some? && AllFit(credits, cops, maxDebts))
            && r != Err(InvalidTransaction(Panics)) && r != Err(ReceivePanics)
            && (r.Err? && SendOperations(credits, cops).Some? ==> r.error == InvalidTransaction(CreditsCalcOverflow))
            && (r.Ok? ==>
                  && AllSound(SendOperations(credits, cops).value)
                  && r.value.0 == MirrorAll(SendOperations(credits, cops).value))
    decreases |cops|
  {
    if cops != [] && cops[0].currency in credits {
      var c, ops := cops[0].currency, cops[0].operations;
      ProcessAllMirrorsQueueAll(credits[c], ops, MaxDebt(maxDebts, c));
      if QueueAll(credits[c], ops).Some? && FitsAll(credits[c], ops, MaxDebt(maxDebts, c)) {
        var mc := QueueAll(credits[c], ops).value;
        MirrorAllUpdate(credits, c, mc);
        OperationsMirror(credits[c := mc], cops[1..], maxDebts);
      }
    }
  }

  lemma {:induction false} SendOperationsKeeps(credits: Credits, cops: seq<CurrencyOperations>,
                                               localPk: PublicKey, remotePk: PublicKey)
    requires Named(credits, localPk, remotePk) && SendOperations(credits, cops).Some?
    ensures SendOperations(credits, cops).value.Keys == credits.Keys
    ensures Named(SendOperations(credits, cops).value, localPk, remotePk)
    decreases |cops|
  {
    if cops != [] {
      var c := cops[0].currency;
      QueueAllKeepsIdents(credits[c], cops[0].operations);
      var mc := QueueAll(credits[c], cops[0].operations).value;
      assert credits[c := mc].Keys == credits.Keys;
      SendOperationsKeeps(credits[c := mc], cops[1..], localPk, remotePk);
    }
  }

  lemma NewCreditSound(localPk: PublicKey, remotePk: PublicKey, c: Currency, balance: I128)
    requires balance > I128_MIN
    ensures Sound(NewMutualCredit(localPk, remotePk, c, balance))
    ensures Mirror(NewMutualCredit(localPk, remotePk, c, balance)) == NewMutualCredit(remotePk, localPk, c, -balance)
  {
  }

  lemma HolderReadable(ch: Channel)
    requires Good(ch)
    ensures Mirrorable(ch.credits) && Readable(Holder(ch).direction)
  {
    MirrorAllInvolution(ch.credits);
    FlippableBalances(ch.credits);
  }

  /** Both sides add mirrored credits for the currencies that became active. */
  lemma NewCreditsMirror(ch: Channel, h: Channel)
    requires AllSound(ch.credits) && h.credits == MirrorAll(ch.credits) && h.active == ch.active.Swap()
    requires LocalKey(h.direction) == RemoteKey(ch.direction) && RemoteKey(h.direction) == LocalKey(ch.direction)
    ensures AllSound(ch.credits + NewCredits(ch))
    ensures h.credits + NewCredits(h) == MirrorAll(ch.credits + NewCredits(ch))
  {
    forall c <- NewCredits(ch) ensures Sound(NewCredits(ch)[c]) {
      NewCreditSound(LocalKey(ch.direction), RemoteKey(ch.direction), c, 0);
    }
    assert h.credits.Keys == ch.credits.Keys;
    assert NewCredits(h).Keys == NewCredits(ch).Keys;
    assert MirrorAll(NewCredits(ch)) == NewCredits(h);
  }

  /** Activating currencies refuses the same lists on both sides, never panics, and adds mirrored credits. */
  lemma ActivationMirrors(ch: Channel, opt: Option<seq<Currency>>)
    requires Good(ch)
    ensures var r, h := ActivateRemote(ch, opt), ActivateLocal(Holder(ch), opt);
            && (r.Ok? <==> h.Ok?)
            && (h.Ok? <==> (opt.Some? ==> KeepsCurrenciesInUse(ch.credits, opt.value)))
            && (h.Err? ==> h.error == CanNotRemoveCurrencyInUse)
            && (r.Ok? ==>
                  && AllSound(r.value.credits) && h.value.credits == MirrorAll(r.value.credits)
                  && h.value.active == r.value.active.Swap() && h.value.direction == Holder(ch).direction
                  && r.value.credits.Keys == r.value.active.CalcActive())
  {
    HolderReadable(ch);
    assert Holder(ch).credits.Keys == ch.credits.Keys;
    if opt.Some? && KeepsCurrenciesInUse(ch.credits, opt.value) {
      var ch1 := ch.(active := ch.active.(remote := SeqSet(opt.value)));
      NewCreditsMirror(ch1, Holder(ch).(active := ch1.active.Swap()));
      assert (ch1.credits + NewCredits(ch1)).Keys == ch1.active.CalcActive();
    }
  }

  lemma ActivationNames(ch: Channel, opt: Option<seq<Currency>>)
    requires Good(ch) && ActivateLocal(Holder(ch), opt).Ok?
    ensures Named(ActivateLocal(Holder(ch), opt).value.credits, ch.direction.tokenInfo.mc.remotePublicKey,
                  ch.direction.tokenInfo.mc.localPublicKey)
  {
    HolderReadable(ch);
  }

  /** The operations that the sender may still have to see refused. */
  ghost predicate OrderFits(h: Channel, o: Order, maxDebts: MaxDebts)
    requires h.direction.Incoming?
  {
    var active := ActivateLocal(h, o.activeCurrencies);
    active.Ok? ==> AllFit(active.value.credits, o.operations, maxDebts)
  }

  /** What the operations of `o` do to two sides with mirrored credits. */
  lemma OrderMirrors(h: Credits, y: Credits, o: Order, maxDebts: MaxDebts, localPk: PublicKey, remotePk: PublicKey)
    requires AllSound(y) && h == MirrorAll(y) && SendOperations(h, o.operations).Some? && Named(h, localPk, remotePk)
    ensures var out := SendOperations(h, o.operations).value;
            var r := ReceiveOperations(y, o.operations, maxDebts);
            && out.Keys == h.Keys && Named(out, localPk, remotePk)
            && (r.Ok? <==> AllFit(h, o.operations, maxDebts))
            && (r.Err? ==> r.error == InvalidTransaction(CreditsCalcOverflow))
            && (r.Ok? ==> AllSound(out) && r.value.0 == MirrorAll(out))
  {
    MirrorAllInvolution(y);
    OperationsMirror(h, o.operations, maxDebts);
    SendOperationsKeeps(h, o.operations, localPk, remotePk);
  }

  /** The two sides once the currencies of `o` are active. */
  lemma ActivatedMirror(ch: Channel, o: Order)
    requires Good(ch) && Send(Holder(ch), o).Ok?
    ensures var h, y := ActivateLocal(Holder(ch), o.activeCurrencies), ActivateRemote(ch, o.activeCurrencies);
            && h.Ok? && y.Ok? && AllSound(y.value.credits) && h.value.credits == MirrorAll(y.value.credits)
            && y.value.active == h.value.active.Swap() && h.value.credits.Keys == h.value.active.CalcActive()
            && Named(h.value.credits, RemoteKey(ch.direction), LocalKey(ch.direction))
  {
    ActivationMirrors(ch, o.activeCurrencies);
    ActivationNames(ch, o.activeCurrencies);
    var h, y := ActivateLocal(Holder(ch), o.activeCurrencies).value, ActivateRemote(ch, o.activeCurrencies).value;
    assert h.credits.Keys == y.credits.Keys;
  }

  /** The credits on both sides after `o` was sent by the holder and processed by the waiting side. */
  lemma CreditsMirror(ch: Channel, o: Order, maxDebts: MaxDebts)
    requires Good(ch) && Send(Holder(ch), o).Ok?
    ensures var out := Send(Holder(ch), o).value.channel;
            var y := ActivateRemote(ch, o.activeCurrencies);
            && y.Ok? && y.value.active == out.active.Swap()
            && out.credits.Keys == out.active.CalcActive()
            && Named(out.credits, RemoteKey(ch.direction), LocalKey(ch.direction))
            && var r := ReceiveOperations(y.value.credits, o.operations, maxDebts);
               && (r.Ok? <==> OrderFits(Holder(ch), o, maxDebts))
               && (r.Err? ==> r.error == InvalidTransaction(CreditsCalcOverflow))
               && (r.Ok? ==> AllSound(out.credits) && r.value.0 == MirrorAll(out.credits))
  {
    ActivatedMirror(ch, o);
    var h, y := ActivateLocal(Holder(ch), o.activeCurrencies).value, ActivateRemote(ch, o.activeCurrencies).value;
    OrderMirrors(h.credits, y.credits, o, maxDebts, RemoteKey(ch.direction), LocalKey(ch.direction));
  }

  /** Two mirrored sides state the same token information, each from its own point of view. */
  lemma InfoMirrors(credits: Credits, localPk: PublicKey, remotePk: PublicKey, counters: CountersInfo)
    requires AllSound(credits)
    ensures Mirrorable(credits)
    ensures var own := TokenInfo(McInfo(localPk, remotePk, Balances(MirrorAll(credits))), counters);
            Flippable(own) && Flip(own) == TokenInfo(McInfo(remotePk, localPk, Balances(credits)), counters)
  {
    MirrorAllInvolution(credits);
    BalancesMirror(MirrorAll(credits));
  }

  /** Sound credits take or refuse any operations whatsoever without a panic, and stay readable for both sides. */
  lemma OperationsNeverPanic(credits: Credits, cops: seq<CurrencyOperations>, maxDebts: MaxDebts)
    requires AllSound(credits)
    ensures var r := ReceiveOperations(credits, cops, maxDebts);
            && r != Err(InvalidTransaction(Panics)) && r != Err(ReceivePanics)
            && (r.Ok? ==> Mirrorable(r.value.0))
  {
    MirrorAllInvolution(credits);
    OperationsMirror(MirrorAll(credits), cops, maxDebts);
    var sent := SendOperations(MirrorAll(credits), cops);
    if ReceiveOperations(credits, cops, maxDebts).Ok? {
      MirrorAllInvolution(sent.value);
    }
  }

  lemma ActivationSound(ch: Channel, opt: Option<seq<Currency>>)
    requires Good(ch)
    ensures match ActivateRemote(ch, opt)
            case Ok(y) => AllSound(y.credits)
            case Err(error) => error == ReceiveCanNotRemoveCurrencyInUse
  {
    ActivationMirrors(ch, opt);
  }

  lemma ActivatedNeverPanics(ch: Channel, y: Channel, t: MoveToken, maxDebts: MaxDebts)
    requires ch.direction.Outgoing? && ActivateRemote(ch, t.body.activeCurrencies) == Ok(y) && AllSound(y.credits)
    ensures !PanicsOnReceive(ReceiveMatch(ch, t, maxDebts))
  {
    OperationsNeverPanic(y.credits, t.body.operations, maxDebts);
    var r := ReceiveOperations(y.credits, t.body.operations, maxDebts);
    if r.Ok? {
      FlippableBalances(r.value.0);
    }
  }

  /** A waiting side in good order takes or refuses any token whatsoever, of whatever origin, without a panic. */
  lemma ReceiveNeverPanics(ch: Channel, t: MoveToken, maxDebts: MaxDebts)
    requires Good(ch)
    ensures !PanicsOnReceive(ReceiveMatch(ch, t, maxDebts))
  {
    ActivationSound(ch, t.body.activeCurrencies);
    var active := ActivateRemote(ch, t.body.activeCurrencies);
    if active.Ok? {
      ActivatedNeverPanics(ch, active.value, t, maxDebts);
    }
  }

  ghost predicate Receivable(ch: Channel, o: Order, maxDebts: MaxDebts)
    requires Good(ch)
  {
    OrderFits(Holder(ch), o, maxDebts) && ch.direction.tokenInfo.counters.moveTokenCounter < U128_MAX
  }

  /** The heart of the channel: what the holder sends, the waiting side receives; the sender then waits in
      good order and the receiver is the holder that mirrors it. */
  lemma ReceiveMirrorsSend(ch: Channel, o: Order, maxDebts: MaxDebts)
    requires Good(ch) && Send(Holder(ch), o).Ok? && Receivable(ch, o, maxDebts)
    ensures var x := SentFrom(Holder(ch), o);
            var r := ReceiveMatch(ch, x.direction.moveTokenOut, maxDebts);
            r.Ok? && r.value.Received? && Good(x) && r.value.channel == Holder(x)
  {
    var out := Send(Holder(ch), o).value;
    CreditsMirror(ch, o, maxDebts);
    InfoMirrors(out.channel.credits, LocalKey(ch.direction), RemoteKey(ch.direction), out.tokenInfo.counters);
  }

  /** Otherwise it is refused: for a request that does not fit, or for a counter at its maximum. */
  lemma ReceiveRefuses(ch: Channel, o: Order, maxDebts: MaxDebts)
    requires Good(ch) && Send(Holder(ch), o).Ok? && !Receivable(ch, o, maxDebts)
    ensures ReceiveMatch(ch, SentFrom(Holder(ch), o).direction.moveTokenOut, maxDebts)
         == Err(if OrderFits(Holder(ch), o, maxDebts) then MoveTokenCounterOverflow
                else InvalidTransaction(CreditsCalcOverflow))
  {
    CreditsMirror(ch, o, maxDebts);
  }

  /** The credits an accepted token leads to are those its order leads the holder to. */
  lemma AcceptedOrder(ch: Channel, o: Order, maxDebts: MaxDebts)
    requires Good(ch) && ActivateRemote(ch, o.activeCurrencies).Ok?
    requires ReceiveOperations(ActivateRemote(ch, o.activeCurrencies).value.credits, o.operations, maxDebts).Ok?
    ensures Send(Holder(ch), o).Ok? && OrderFits(Holder(ch), o, maxDebts)
  {
    ActivationMirrors(ch, o.activeCurrencies);
    var y := ActivateRemote(ch, o.activeCurrencies).value;
    MirrorAllInvolution(y.credits);
    OperationsMirror(MirrorAll(y.credits), o.operations, maxDebts);
  }

  /** A token that was taken up is the one the honest holder sends for its order. */
  lemma AcceptedIsHonest(ch: Channel, t: MoveToken, maxDebts: MaxDebts)
    requires Good(ch) && t.body.oldToken == ch.direction.moveTokenOut.newToken && ReceiveMatch(ch, t, maxDebts).Ok?
    ensures Send(Holder(ch), OrderOf(t)).Ok? && Receivable(ch, OrderOf(t), maxDebts)
    ensures t == SentFrom(Holder(ch), OrderOf(t)).direction.moveTokenOut
  {
    var o := OrderOf(t);
    AcceptedOrder(ch, o, maxDebts);
    CreditsMirror(ch, o, maxDebts);
    var out := Send(Holder(ch), o).value;
    InfoMirrors(out.channel.credits, LocalKey(ch.direction), RemoteKey(ch.direction), out.tokenInfo.counters);
    assert t.body == out.unsigned;
  }

  /** A waiting side in good order takes up exactly the tokens that the honest holder could have sent it: whatever else
      it is shown, from wherever, it does not take up. */
  lemma ReceivedIffHonest(ch: Channel, t: MoveToken, maxDebts: MaxDebts)
    requires Good(ch)
    ensures var o := OrderOf(t);
            var r := Receive(ch, t, maxDebts);
            r.Ok? && r.value.Received?
            <==> && Send(Holder(ch), o).Ok? && Receivable(ch, o, maxDebts)
                 && t == SentFrom(Holder(ch), o).direction.moveTokenOut
  {
    var o := OrderOf(t);
    var r := Receive(ch, t, maxDebts);
    if r.Ok? && r.value.Received? {
      AcceptedIsHonest(ch, t, maxDebts);
    } else if Send(Holder(ch), o).Ok? && Receivable(ch, o, maxDebts) {
      ReceiveMirrorsSend(ch, o, maxDebts);
    }
  }

  // ---------------------------------------------------------------- runs

  /** Both sides, and the tokens in flight to each. */
  datatype Pair = Pair(x: Channel, y: Channel, toX: seq<MoveToken>, toY: seq<MoveToken>)

  datatype Side = X | Y

  function Swap(p: Pair): Pair {
    Pair(p.y, p.x, p.toY, p.toX)
  }

  datatype Action =
    | SendToken(order: Order)
    | Resend
    | Deliver(maxDebts: MaxDebts)
    | Lose(index: nat)

  ghost predicate Enabled(p: Pair, action: Action) {
    match action
    case SendToken(o) => p.x.direction.Incoming? && Send(p.x, o).Ok?
    case Resend => p.x.direction.Outgoing?
    case Deliver(_) => p.toX != []
    case Lose(index) => index < |p.toX|
  }

  /** An action of X, or the loss of a message to X. A refused token leaves everything as it is. */
  ghost function StepX(p: Pair, action: Action): Result<Pair, ReceiveError>
    requires Enabled(p, action)
  {
    match action
    case SendToken(o) =>
      var x := SentFrom(p.x, o);
      Ok(p.(x := x, toY := p.toY + [x.direction.moveTokenOut]))
    case Resend => Ok(p.(toY := p.toY + [p.x.direction.moveTokenOut]))
    case Lose(index) => Ok(p.(toX := p.toX[..index] + p.toX[index + 1..]))
    case Deliver(maxDebts) =>
      var p' := p.(toX := p.toX[1..]);
      match Receive(p.x, p.toX[0], maxDebts)
      case Err(error) => Err(error)
      case Ok(Duplicate) => Ok(p')
      case Ok(RetransmitOutgoing(t)) => Ok(p'.(toY := p.toY + [t]))
      case Ok(Received(channel, _, _)) => Ok(p'.(x := channel))
  }

  datatype Label = Label(side: Side, action: Action)

  ghost predicate Allowed(p: Pair, l: Label) {
    Enabled(if l.side.X? then p else Swap(p), l.action)
  }

  ghost function Step(p: Pair, l: Label): Result<Pair, ReceiveError>
    requires Allowed(p, l)
  {
    if l.side.X? then StepX(p, l.action)
    else match StepX(Swap(p), l.action)
      case Err(error) => Err(error)
      case Ok(p') => Ok(Swap(p'))
  }

  ghost predicate StepsTo(p: Pair, l: Label, p': Pair) {
    Allowed(p, l) && Step(p, l) == Ok(p')
  }

  /** A pair that agreed to start over: `reset` was signed by the local side, with distinct currencies and
      balances that both sides can hold. */
  predicate ResetPair(p: Pair, reset: MoveToken, info: TokenInfo, last: Option<MoveTokenHashed>) {
    && VerifyMoveToken(reset, info.mc.localPublicKey)
    && ResetTerms(info)
    && p == Pair(NewFromLocalReset(reset, info, last), NewFromRemoteReset(reset, info), [], [])
  }

  predicate NewPair(p: Pair, low: PublicKey, high: PublicKey) {
    low < high && p == Pair(NewChannel(low, high), NewChannel(high, low), [], [])
  }

  ghost predicate Init(p: Pair) {
    || (exists low, high :: NewPair(p, low, high))
    || (exists reset, info, last :: ResetPair(p, reset, info, last))
  }

  ghost predicate IsRun(run: seq<Pair>, labels: seq<Label>) {
    && |run| == |labels| + 1
    && (Init(run[0]) || Init(Swap(run[0])))
    && forall i :: 0 <= i < |labels| ==> StepsTo(run[i], labels[i], run[i + 1])
  }

  // ---------------------------------------------------------------- the invariant

  /** `m` is the token that `t` follows. */
  predicate Precedes(m: MoveToken, t: MoveToken) {
    m.newToken == t.body.oldToken && Depth(m.body.oldToken) <= Depth(m.newToken) < Depth(t.newToken)
  }

  predicate Each(q: seq<MoveToken>, t: MoveToken) {
    forall m <- q :: m == t
  }

  predicate EachPrecedes(q: seq<MoveToken>, t: MoveToken) {
    forall m <- q :: Precedes(m, t)
  }

  /** First copies of the token before `u`, then copies of `t`. */
  predicate OldThenNew(q: seq<MoveToken>, u: MoveToken, t: MoveToken) {
    && (forall i :: 0 <= i < |q| ==> q[i] == t || Precedes(q[i], u))
    && (forall i, j :: 0 <= i < j < |q| && q[i] == t ==> q[j] == t)
  }

  /** Y holds the token X sent. */
  ghost predicate Held(p: Pair) {
    && Good(p.x) && p.y == Holder(p.x)
    && var t := p.x.direction.moveTokenOut;
       && Depth(t.body.oldToken) <= Depth(t.newToken)
       && Each(p.toY, t) && EachPrecedes(p.toX, t)
  }

  /** The token X sent is under way to Y. */
  ghost predicate UnderWay(p: Pair) {
    && Good(p.y) && p.x.direction.Outgoing?
    && var t, u := p.x.direction.moveTokenOut, p.y.direction.moveTokenOut;
       && Send(Holder(p.y), OrderOf(t)).Ok?
       && p.x == SentFrom(Holder(p.y), OrderOf(t))
       && Depth(u.body.oldToken) <= Depth(u.newToken)
       && OldThenNew(p.toY, u, t) && Each(p.toX, u)
  }

  /** X sent the last token. */
  ghost predicate InvX(p: Pair) {
    Held(p) || UnderWay(p)
  }

  ghost predicate Inv(p: Pair) {
    InvX(p) || InvX(Swap(p))
  }

  // ---------------------------------------------------------------- the beginning

  lemma NewPairHeld(p: Pair, low: PublicKey, high: PublicKey)
    requires NewPair(p, low, high)
    ensures Held(p)
  {
    assert p.x.credits == map[] && Balances(p.x.credits) == [];
    assert MirrorAll(p.x.credits) == map[];
    assert p.y == Holder(p.x);
  }

  predicate Sorted(bs: seq<CurrencyBalanceInfo>) {
    forall i, j :: 0 <= i < j < |bs| ==> bs[i].currency < bs[j].currency
  }

  lemma {:induction false} CreditsFromEntry(localPk: PublicKey, remotePk: PublicKey, bs: seq<CurrencyBalanceInfo>,
                                            k: nat)
    requires Sorted(bs) && k < |bs|
    ensures var credits := CreditsFrom(localPk, remotePk, bs);
            && bs[k].currency in credits
            && credits[bs[k].currency] == NewMutualCredit(localPk, remotePk, bs[k].currency, bs[k].balanceInfo.balance)
    decreases |bs|
  {
    if k < |bs| - 1 {
      CreditsFromEntry(localPk, remotePk, bs[..|bs| - 1], k);
    }
  }

  lemma {:induction false} CreditsFromOnly(localPk: PublicKey, remotePk: PublicKey, bs: seq<CurrencyBalanceInfo>,
                                           c: Currency)
    returns (k: nat)
    requires c in CreditsFrom(localPk, remotePk, bs)
    ensures k < |bs| && bs[k].currency == c
    decreases |bs|
  {
    if c == bs[|bs| - 1].currency {
      k := |bs| - 1;
    } else {
      k := CreditsFromOnly(localPk, remotePk, bs[..|bs| - 1], c);
    }
  }

  lemma {:induction false} FlipAt(bs: seq<CurrencyBalanceInfo>)
    requires forall b <- bs :: b.balanceInfo.balance > I128_MIN
    ensures |FlipBalances(bs)| == |bs|
    ensures forall i :: 0 <= i < |bs| ==>
              FlipBalances(bs)[i] == CurrencyBalanceInfo(bs[i].currency, FlipBalance(bs[i].balanceInfo))
  {
    if bs != [] {
      FlipAt(bs[1..]);
    }
  }

  lemma ResetCredits(localPk: PublicKey, remotePk: PublicKey, bs: seq<CurrencyBalanceInfo>)
    requires Sorted(bs)
    requires forall b <- bs ::
               b.balanceInfo == McBalance(b.balanceInfo.balance, 0, 0) && b.balanceInfo.balance > I128_MIN
    ensures var credits := CreditsFrom(localPk, remotePk, bs);
            AllSound(credits) && Named(credits, localPk, remotePk) && bs == Balances(credits)
  {
    var credits := CreditsFrom(localPk, remotePk, bs);
    forall c <- credits
      ensures Sound(credits[c]) && credits[c].currency == c
      ensures credits[c].localPublicKey == localPk && credits[c].remotePublicKey == remotePk
      ensures CurrencyBalanceInfo(c, credits[c].balance) in bs
    {
      var k := CreditsFromOnly(localPk, remotePk, bs, c);
      CreditsFromEntry(localPk, remotePk, bs, k);
      NewCreditSound(localPk, remotePk, c, bs[k].balanceInfo.balance);
    }
    forall b <- bs ensures b.currency in credits && b.balanceInfo == credits[b.currency].balance {
      var k :| 0 <= k < |bs| && bs[k] == b;
      CreditsFromEntry(localPk, remotePk, bs, k);
    }
    CanonicalUnique(bs, credits);
  }

  lemma ResetMirror(localPk: PublicKey, remotePk: PublicKey, bs: seq<CurrencyBalanceInfo>)
    requires Sorted(bs) && forall b <- bs :: b.balanceInfo.balance > I128_MIN
    requires AllSound(CreditsFrom(localPk, remotePk, bs))
    ensures MirrorAll(CreditsFrom(localPk, remotePk, bs)) == CreditsFrom(remotePk, localPk, FlipBalances(bs))
  {
    var near, far := CreditsFrom(localPk, remotePk, bs), CreditsFrom(remotePk, localPk, FlipBalances(bs));
    FlipAt(bs);
    forall c <- near ensures c in far && far[c] == Mirror(near[c]) {
      var k := CreditsFromOnly(localPk, remotePk, bs, c);
      CreditsFromEntry(localPk, remotePk, bs, k);
      CreditsFromEntry(remotePk, localPk, FlipBalances(bs), k);
    }
    forall c <- far ensures c in near {
      var k := CreditsFromOnly(remotePk, localPk, FlipBalances(bs), c);
      CreditsFromEntry(localPk, remotePk, bs, k);
    }
    assert MirrorAll(near).Keys == far.Keys;
  }

  /** What both sides may agree to start over with. */
  predicate ResetTerms(info: TokenInfo) {
    && Sorted(info.mc.balances) && Flippable(info)
    && forall b <- info.mc.balances :: b.balanceInfo == McBalance(b.balanceInfo.balance, 0, 0)
  }

  /** The two reset constructors build a waiting side and the holder that mirrors it. */
  lemma ResetsMirror(t: MoveToken, info: TokenInfo, last: Option<MoveTokenHashed>)
    requires ResetTerms(info)
    ensures Good(NewFromLocalReset(t, info, last))
    ensures NewFromRemoteReset(t, info) == Holder(NewFromLocalReset(t, info, last))
  {
    ResetCredits(info.mc.localPublicKey, info.mc.remotePublicKey, info.mc.balances);
    ResetMirror(info.mc.localPublicKey, info.mc.remotePublicKey, info.mc.balances);
    var x := NewFromLocalReset(t, info, last);
    assert x.credits.Keys == x.active.CalcActive();
    assert MirrorAll(x.credits).Keys == x.credits.Keys;
  }

  lemma ResetPairHeld(p: Pair, reset: MoveToken, info: TokenInfo, last: Option<MoveTokenHashed>)
    requires ResetPair(p, reset, info, last)
    ensures Held(p)
  {
    ResetsMirror(reset, info, last);
  }

  // ---------------------------------------------------------------- every step keeps the invariant

  /** A token that precedes the one we sent makes us send ours again. */
  lemma OldTokenRetransmits(ch: Channel, m: MoveToken, maxDebts: MaxDebts)
    requires ch.direction.Outgoing? && Precedes(m, ch.direction.moveTokenOut)
    ensures Receive(ch, m, maxDebts) == Ok(RetransmitOutgoing(ch.direction.moveTokenOut))
  {
  }

  lemma SentFollows(ch: Channel, o: Order)
    requires Good(ch) && Send(Holder(ch), o).Ok?
    requires Depth(ch.direction.moveTokenOut.body.oldToken) <= Depth(ch.direction.moveTokenOut.newToken)
    ensures var x := SentFrom(Holder(ch), o);
            && Precedes(ch.direction.moveTokenOut, x.direction.moveTokenOut)
            && OrderOf(x.direction.moveTokenOut) == o
            && x.direction.moveTokenOut.body.oldToken == ch.direction.moveTokenOut.newToken
  {
  }

  lemma DropKeeps(q: seq<MoveToken>, k: nat, u: MoveToken, t: MoveToken)
    requires k < |q|
    ensures Each(q, t) ==> Each(q[..k] + q[k + 1..], t)
    ensures EachPrecedes(q, t) ==> EachPrecedes(q[..k] + q[k + 1..], t)
    ensures OldThenNew(q, u, t) ==> OldThenNew(q[..k] + q[k + 1..], u, t)
  {
    var q' := q[..k] + q[k + 1..];
    assert forall i :: 0 <= i < |q'| ==> q'[i] == q[if i < k then i else i + 1];
    assert forall m <- q' :: m in q;
  }

  lemma TailKeeps(q: seq<MoveToken>, u: MoveToken, t: MoveToken)
    requires q != []
    ensures Each(q, t) ==> Each(q[1..], t)
    ensures EachPrecedes(q, t) ==> EachPrecedes(q[1..], t)
    ensures OldThenNew(q, u, t) ==> OldThenNew(q[1..], u, t)
    ensures OldThenNew(q, u, t) && q[0] == t ==> Each(q[1..], t)
  {
    DropKeeps(q, 0, u, t);
    assert q[..0] + q[1..] == q[1..];
  }

  /** The side that sent the last token only ever sends it again. */
  lemma LeaderKeepsInv(p: Pair, action: Action)
    requires InvX(p) && Enabled(p, action)
    ensures StepX(p, action).Ok? && InvX(StepX(p, action).value)
  {
    LeaderWaits(p);
    match action {
      case Resend => LeaderResends(p);
      case Lose(index) => LeaderLoses(p, index);
      case Deliver(maxDebts) =>
        LeaderSeesOld(p, maxDebts);
        LeaderResends(p.(toX := p.toX[1..]));
    }
  }

  lemma LeaderWaits(p: Pair)
    requires InvX(p)
    ensures p.x.direction.Outgoing?
  {
  }

  lemma LeaderResends(p: Pair)
    requires InvX(p)
    ensures InvX(p.(toY := p.toY + [p.x.direction.moveTokenOut]))
  {
  }

  lemma LeaderLoses(p: Pair, index: nat)
    requires InvX(p) && index < |p.toX|
    ensures InvX(p.(toX := p.toX[..index] + p.toX[index + 1..]))
  {
    if Held(p) {
      DropKeeps(p.toX, index, p.x.direction.moveTokenOut, p.x.direction.moveTokenOut);
    } else {
      DropKeeps(p.toX, index, p.y.direction.moveTokenOut, p.y.direction.moveTokenOut);
    }
  }

  lemma LeaderSeesOld(p: Pair, maxDebts: MaxDebts)
    requires InvX(p) && p.toX != []
    ensures Receive(p.x, p.toX[0], maxDebts) == Ok(RetransmitOutgoing(p.x.direction.moveTokenOut))
    ensures InvX(p.(toX := p.toX[1..]))
  {
    assert p.toX[0] in p.toX;
    if Held(p) {
      TailKeeps(p.toX, p.x.direction.moveTokenOut, p.x.direction.moveTokenOut);
    } else {
      TailKeeps(p.toX, p.y.direction.moveTokenOut, p.y.direction.moveTokenOut);
      SentFollows(p.y, OrderOf(p.x.direction.moveTokenOut));
    }
    OldTokenRetransmits(p.x, p.toX[0], maxDebts);
  }

  /** A new token behind copies of older ones. */
  lemma NewTokenLast(q: seq<MoveToken>, u: MoveToken, t: MoveToken)
    requires EachPrecedes(q, u) && Precedes(u, t)
    ensures OldThenNew(q + [t], u, t)
  {
    forall i | 0 <= i < |q| ensures Precedes(q[i], u) && q[i] != t {
      assert q[i] in q && Depth(q[i].newToken) < Depth(u.newToken) < Depth(t.newToken);
    }
  }

  /** The holder takes the next turn. */
  lemma HolderSends(p: Pair, o: Order)
    requires Held(Swap(p)) && Enabled(p, SendToken(o))
    ensures UnderWay(StepX(p, SendToken(o)).value)
  {
    SentFollows(p.y, o);
    NewTokenLast(p.toY, p.y.direction.moveTokenOut, SentFrom(p.x, o).direction.moveTokenOut);
  }

  /** To the holder every message is a copy of the token it holds. */
  lemma HolderSeesDuplicates(p: Pair, maxDebts: MaxDebts)
    requires Held(Swap(p)) && p.toX != []
    ensures Receive(p.x, p.toX[0], maxDebts) == Ok(Duplicate)
  {
    assert p.toX[0] in p.toX;
  }

  /** What the waiting side makes of the message at the head of its channel. */
  lemma WaiterReceives(p: Pair, maxDebts: MaxDebts)
    requires UnderWay(Swap(p)) && p.toX != []
    ensures var t := p.y.direction.moveTokenOut;
            var r := Receive(p.x, p.toX[0], maxDebts);
            if p.toX[0] != t then r == Ok(RetransmitOutgoing(p.x.direction.moveTokenOut))
            else if Receivable(p.x, OrderOf(t), maxDebts) then
              r.Ok? && r.value.Received? && Good(p.y) && r.value.channel == Holder(p.y)
            else
              r == Err(if OrderFits(Holder(p.x), OrderOf(t), maxDebts) then MoveTokenCounterOverflow
                       else InvalidTransaction(CreditsCalcOverflow))
  {
    var t := p.y.direction.moveTokenOut;
    SentFollows(p.x, OrderOf(t));
    if p.toX[0] != t {
      OldTokenRetransmits(p.x, p.toX[0], maxDebts);
    } else if Receivable(p.x, OrderOf(t), maxDebts) {
      ReceiveMirrorsSend(p.x, OrderOf(t), maxDebts);
    } else {
      ReceiveRefuses(p.x, OrderOf(t), maxDebts);
    }
  }

  lemma WaiterKeepsInv(p: Pair, maxDebts: MaxDebts)
    requires UnderWay(Swap(p)) && p.toX != []
    requires StepX(p, Deliver(maxDebts)).Ok?
    ensures InvX(Swap(StepX(p, Deliver(maxDebts)).value))
  {
    WaiterReceives(p, maxDebts);
    var t := p.y.direction.moveTokenOut;
    SentFollows(p.x, OrderOf(t));
    TailKeeps(p.toX, p.x.direction.moveTokenOut, t);
  }

  lemma FollowerLoses(p: Pair, index: nat)
    requires InvX(Swap(p)) && index < |p.toX|
    ensures InvX(Swap(p.(toX := p.toX[..index] + p.toX[index + 1..])))
  {
    var t := p.y.direction.moveTokenOut;
    DropKeeps(p.toX, index, if p.x.direction.Outgoing? then p.x.direction.moveTokenOut else t, t);
  }

  lemma HolderKeepsInv(p: Pair)
    requires Held(Swap(p)) && p.toX != []
    ensures Held(Swap(p.(toX := p.toX[1..])))
  {
    TailKeeps(p.toX, p.y.direction.moveTokenOut, p.y.direction.moveTokenOut);
  }

  lemma FollowerKeepsInv(p: Pair, action: Action)
    requires InvX(Swap(p)) && Enabled(p, action) && StepX(p, action).Ok?
    ensures Inv(StepX(p, action).value)
  {
    match action {
      case SendToken(o) => HolderSends(p, o);
      case Resend => assert UnderWay(Swap(StepX(p, action).value));
      case Lose(index) => FollowerLoses(p, index);
      case Deliver(maxDebts) =>
        if Held(Swap(p)) {
          HolderSeesDuplicates(p, maxDebts);
          HolderKeepsInv(p);
        } else {
          WaiterKeepsInv(p, maxDebts);
        }
    }
  }

  lemma SwapTwice(p: Pair)
    ensures Swap(Swap(p)) == p && (Inv(Swap(p)) <==> Inv(p))
  {
  }

  lemma StepKeepsInv(p: Pair, l: Label)
    requires Inv(p) && Allowed(p, l) && Step(p, l).Ok?
    ensures Inv(Step(p, l).value)
  {
    SwapTwice(p);
    var q := if l.side.X? then p else Swap(p);
    if InvX(q) {
      LeaderKeepsInv(q, l.action);
    } else {
      FollowerKeepsInv(q, l.action);
    }
    SwapTwice(StepX(q, l.action).value);
  }

  lemma InitHolds(p: Pair)
    requires Init(p)
    ensures Inv(p)
  {
    if low, high :| NewPair(p, low, high) {
      NewPairHeld(p, low, high);
    } else {
      var reset, info, last :| ResetPair(p, reset, info, last);
      ResetPairHeld(p, reset, info, last);
    }
  }

  lemma {:induction false} RunKeepsInv(run: seq<Pair>, labels: seq<Label>)
    requires IsRun(run, labels)
    ensures Inv(run[|labels|])
    decreases |labels|
  {
    var n := |labels|;
    if n == 0 {
      SwapTwice(run[0]);
      InitHolds(if Init(run[0]) then run[0] else Swap(run[0]));
    } else {
      assert run[..n][0] == run[0];
      RunKeepsInv(run[..n], labels[..n - 1]);
      assert StepsTo(run[n - 1], labels[n - 1], run[n]);
      StepKeepsInv(run[n - 1], labels[n - 1]);
    }
  }

  // ---------------------------------------------------------------- the theorems

  /** The pair as `side` sees it. */
  function SeenFrom(p: Pair, side: Side): Pair {
    if side.X? then p else Swap(p)
  }

  /** The token at the head of the channel to X follows the one X sent, but X cannot take it. */
  ghost predicate Refused(p: Pair, maxDebts: MaxDebts)
    requires p.toX != []
  {
    && Good(p.x) && p.y.direction.Outgoing?
    && p.toX[0] == p.y.direction.moveTokenOut
    && p.toX[0].body.oldToken == p.x.direction.moveTokenOut.newToken
    && !Receivable(p.x, OrderOf(p.toX[0]), maxDebts)
  }

  /** Every message still in flight is understood: it is a duplicate, a reminder to send our token again,
      or the next token. The one exception is a next token with a request that does not fit the
      receiver's arithmetic, or after 2^128 - 1 tokens. */
  lemma EveryDeliveryIsUnderstood(run: seq<Pair>, labels: seq<Label>, side: Side, maxDebts: MaxDebts)
    requires IsRun(run, labels) && SeenFrom(run[|labels|], side).toX != []
    ensures var p := SeenFrom(run[|labels|], side);
            var r := Receive(p.x, p.toX[0], maxDebts);
            && (r.Err? <==> Refused(p, maxDebts))
            && (r.Err? ==> r.error in {InvalidTransaction(CreditsCalcOverflow), MoveTokenCounterOverflow})
            && (r.Ok? && r.value.Received? ==> Good(p.y) && r.value.channel == Holder(p.y))
            && (r.Ok? && r.value.RetransmitOutgoing? ==> r.value.moveToken == p.x.direction.moveTokenOut)
  {
    RunKeepsInv(run, labels);
    SwapTwice(run[|labels|]);
    HeadIsUnderstood(SeenFrom(run[|labels|], side), maxDebts);
  }

  lemma HeadIsUnderstood(p: Pair, maxDebts: MaxDebts)
    requires Inv(p) && p.toX != []
    ensures var r := Receive(p.x, p.toX[0], maxDebts);
            && (r.Err? <==> Refused(p, maxDebts))
            && (r.Err? ==> r.error in {InvalidTransaction(CreditsCalcOverflow), MoveTokenCounterOverflow})
            && (r.Ok? && r.value.Received? ==> Good(p.y) && r.value.channel == Holder(p.y))
            && (r.Ok? && r.value.RetransmitOutgoing? ==> r.value.moveToken == p.x.direction.moveTokenOut)
  {
    if Held(Swap(p)) {
      HolderSeesDuplicates(p, maxDebts);
    } else if UnderWay(Swap(p)) {
      WaiterReceives(p, maxDebts);
      SentFollows(p.x, OrderOf(p.y.direction.moveTokenOut));
    } else {
      assert p.toX[0] in p.toX;
      if UnderWay(p) {
        SentFollows(p.y, OrderOf(p.x.direction.moveTokenOut));
      }
      OldTokenRetransmits(p.x, p.toX[0], maxDebts);
    }
  }

  /** In every run a token that follows ours finds us in good order, so that receiving it does not panic. */
  lemma MatchingTokenFindsGood(run: seq<Pair>, labels: seq<Label>, side: Side)
    requires IsRun(run, labels) && SeenFrom(run[|labels|], side).toX != []
    ensures var p := SeenFrom(run[|labels|], side);
            p.x.direction.Outgoing? && p.toX[0].body.oldToken == p.x.direction.moveTokenOut.newToken ==> Good(p.x)
  {
    RunKeepsInv(run, labels);
    SwapTwice(run[|labels|]);
    var p := SeenFrom(run[|labels|], side);
    assert p.toX[0] in p.toX;
    if UnderWay(p) {
      SentFollows(p.y, OrderOf(p.x.direction.moveTokenOut));
      OldTokenRetransmits(p.x, p.toX[0], map[]);
    }
  }

  /** The token is held by at most one side. When one side holds it, the other waits, agrees on it, and the
      two keep mirrored accounts of every currency. */
  lemma HolderMirrorsWaiter(run: seq<Pair>, labels: seq<Label>, side: Side)
    requires IsRun(run, labels) && SeenFrom(run[|labels|], side).x.direction.Incoming?
    ensures var p := SeenFrom(run[|labels|], side);
            && p.y.direction.Outgoing?
            && p.x.direction.moveTokenIn == CreateHashed(p.y.direction.moveTokenOut, p.y.direction.tokenInfo)
            && p.x.active == p.y.active.Swap()
            && p.x.credits.Keys == p.y.credits.Keys
            && forall c <- p.x.credits ::
                 var here, there := p.x.credits[c], p.y.credits[c];
                 && here.balance.balance + there.balance.balance == 0
                 && here.balance.localPendingDebt == there.balance.remotePendingDebt == TotalFrozen(here.local)
                 && here.balance.remotePendingDebt == there.balance.localPendingDebt == TotalFrozen(here.remote)
                 && here.local == there.remote && here.remote == there.local
  {
    RunKeepsInv(run, labels);
    SwapTwice(run[|labels|]);
    var p := SeenFrom(run[|labels|], side);
    assert Held(Swap(p));
    forall c <- p.x.credits ensures Sound(p.y.credits[c]) && p.x.credits[c] == Mirror(p.y.credits[c]) {
    }
  }

  /** A currency is in use exactly when both sides declared it active. */
  lemma CurrenciesInUse(run: seq<Pair>, labels: seq<Label>, side: Side)
    requires IsRun(run, labels)
    ensures var x := SeenFrom(run[|labels|], side).x;
            x.credits.Keys == x.active.CalcActive()
  {
    RunKeepsInv(run, labels);
    SwapTwice(run[|labels|]);
    var p := SeenFrom(run[|labels|], side);
    if Held(Swap(p)) {
      assert p.x.credits.Keys == p.y.credits.Keys;
    } else if UnderWay(p) {
      CreditsMirror(p.y, OrderOf(p.x.direction.moveTokenOut), map[]);
    }
  }

  /** The holder's attempt to send fails only by its own fault: it drops a currency in use, names a
      currency that is not in use, or queues an operation its own side refuses. */
  lemma SendFailsOnlyByFault(run: seq<Pair>, labels: seq<Label>, side: Side, o: Order)
    requires IsRun(run, labels) && SeenFrom(run[|labels|], side).x.direction.Incoming?
    ensures var h := SeenFrom(run[|labels|], side).x;
            var active := ActivateLocal(h, o.activeCurrencies);
            && (active.Ok? <==>
                  (o.activeCurrencies.Some? ==> KeepsCurrenciesInUse(h.credits, o.activeCurrencies.value)))
            && (active.Err? ==> Send(h, o) == Err(CanNotRemoveCurrencyInUse))
            && (Send(h, o).Ok? <==> active.Ok? && SendOperations(active.value.credits, o.operations).Some?)
  {
    RunKeepsInv(run, labels);
    SwapTwice(run[|labels|]);
    var p := SeenFrom(run[|labels|], side);
    assert Held(Swap(p));
    ActivationMirrors(p.y, o.activeCurrencies);
    assert p.x.credits.Keys == p.y.credits.Keys;
  }

  /** When both sides wait, exactly one token follows the other; delivered to the side it is meant for it
      passes the token on, whatever was lost before, and the other one is only a reminder. */
  lemma WaitingSidesRecover(run: seq<Pair>, labels: seq<Label>, maxDebts: MaxDebts)
    requires IsRun(run, labels)
    requires run[|labels|].x.direction.Outgoing? && run[|labels|].y.direction.Outgoing?
    ensures exists side :: Recovers(SeenFrom(run[|labels|], side), maxDebts)
  {
    RunKeepsInv(run, labels);
    var p := run[|labels|];
    SwapTwice(p);
    var side := if UnderWay(p) then X else Y;
    var q := SeenFrom(p, side);
    assert UnderWay(q);
    var t := q.x.direction.moveTokenOut;
    SentFollows(q.y, OrderOf(t));
    OldTokenRetransmits(q.x, q.y.direction.moveTokenOut, maxDebts);
    WaiterReceives(Swap(q.(toX := [], toY := [t])), maxDebts);
    assert Recovers(q, maxDebts);
  }

  /** X is ahead: its token is the one that Y takes. */
  ghost predicate Recovers(p: Pair, maxDebts: MaxDebts) {
    && Good(p.y) && p.x.direction.Outgoing?
    && var t := p.x.direction.moveTokenOut;
       && Receive(p.x, p.y.direction.moveTokenOut, maxDebts) == Ok(RetransmitOutgoing(t))
       && (Receivable(p.y, OrderOf(t), maxDebts) ==>
             var r := Receive(p.y, t, maxDebts);
             r.Ok? && r.value.Received? && Good(p.x) && r.value.channel == Holder(p.x))
  }

  // ---------------------------------------------------------------- getting through

  /** A way to go on: `more` starts where a run ended, and `labels` lead through it. */
  ghost predicate GoesOn(more: seq<Pair>, labels: seq<Label>) {
    && |more| == |labels| + 1
    && forall i :: 0 <= i < |labels| ==> StepsTo(more[i], labels[i], more[i + 1])
  }

  /** Y takes an old token from its channel and goes on waiting. */
  lemma OldTokenIsPassedOver(p: Pair, maxDebts: MaxDebts) returns (q: Pair)
    requires UnderWay(p) && p.toY != [] && p.toY[0] != p.x.direction.moveTokenOut
    ensures StepsTo(p, Label(Y, Deliver(maxDebts)), q)
    ensures UnderWay(q) && q.x == p.x && q.y == p.y && q.toY == p.toY[1..]
  {
    SwapTwice(p);
    WaiterReceives(Swap(p), maxDebts);
    WaiterKeepsInv(Swap(p), maxDebts);
    q := Swap(StepX(Swap(p), Deliver(maxDebts)).value);
  }

  /** Y takes the next token and holds it. */
  lemma NextTokenIsTaken(p: Pair, maxDebts: MaxDebts) returns (q: Pair)
    requires UnderWay(p) && p.toY != [] && p.toY[0] == p.x.direction.moveTokenOut
    requires Receivable(p.y, OrderOf(p.x.direction.moveTokenOut), maxDebts)
    ensures StepsTo(p, Label(Y, Deliver(maxDebts)), q)
    ensures Good(p.x) && q.x == p.x && q.y == Holder(p.x)
  {
    SwapTwice(p);
    WaiterReceives(Swap(p), maxDebts);
    q := Swap(StepX(Swap(p), Deliver(maxDebts)).value);
  }

  /** Delivering what is in the channel to Y passes the token on, if it is in the channel. */
  lemma {:induction false} DeliveriesPassToken(p: Pair, maxDebts: MaxDebts)
    returns (more: seq<Pair>, labels: seq<Label>)
    requires UnderWay(p) && p.x.direction.moveTokenOut in p.toY
    requires Receivable(p.y, OrderOf(p.x.direction.moveTokenOut), maxDebts)
    ensures GoesOn(more, labels) && more[0] == p
    ensures Good(p.x) && more[|labels|].x == p.x && more[|labels|].y == Holder(p.x)
    decreases |p.toY|
  {
    var first := Label(Y, Deliver(maxDebts));
    if p.toY[0] == p.x.direction.moveTokenOut {
      var q := NextTokenIsTaken(p, maxDebts);
      more, labels := [p, q], [first];
    } else {
      var q := OldTokenIsPassedOver(p, maxDebts);
      var rest, steps := DeliveriesPassToken(q, maxDebts);
      more, labels := Before(p, first, rest, steps);
    }
  }

  lemma Before(p: Pair, l: Label, rest: seq<Pair>, steps: seq<Label>) returns (more: seq<Pair>, labels: seq<Label>)
    requires GoesOn(rest, steps) && StepsTo(p, l, rest[0])
    ensures more == [p] + rest && labels == [l] + steps && GoesOn(more, labels)
  {
    more, labels := [p] + rest, [l] + steps;
    forall i | 0 <= i < |labels| ensures StepsTo(more[i], labels[i], more[i + 1]) {
      assert i > 0 ==> StepsTo(rest[i - 1], steps[i - 1], rest[i]);
    }
  }

  /** The side that is ahead sends its token once more. */
  lemma LeaderReminds(p: Pair) returns (q: Pair)
    requires UnderWay(p)
    ensures StepsTo(p, Label(X, Resend), q)
    ensures UnderWay(q) && q.x == p.x && q.y == p.y && p.x.direction.moveTokenOut in q.toY
  {
    q := StepX(p, Resend).value;
    LeaderResends(p);
    assert q.toY[|p.toY|] == p.x.direction.moveTokenOut;
  }

  /** The side that is behind sends its token once more, and is answered with the one it misses. */
  lemma FollowerReminds(p: Pair, maxDebts: MaxDebts) returns (q: Pair, r: Pair)
    requires UnderWay(p)
    ensures StepsTo(p, Label(Y, Resend), q) && StepsTo(q, Label(X, Deliver(maxDebts)), r)
    ensures UnderWay(r) && r.x == p.x && r.y == p.y && p.x.direction.moveTokenOut in r.toY
  {
    SwapTwice(p);
    var u := p.y.direction.moveTokenOut;
    q := p.(toX := p.toX + [u]);
    assert StepsTo(p, Label(Y, Resend), q) && UnderWay(q);
    LeaderSeesOld(q, maxDebts);
    LeaderResends(q.(toX := q.toX[1..]));
    r := StepX(q, Deliver(maxDebts)).value;
    assert r.toY[|p.toY|] == p.x.direction.moveTokenOut;
  }

  /** From a state in which X is ahead, a reminder by either side gets the token through. */
  lemma ReminderPassesToken(p: Pair, resender: Side, maxDebts: MaxDebts)
    returns (more: seq<Pair>, labels: seq<Label>)
    requires UnderWay(p) && Receivable(p.y, OrderOf(p.x.direction.moveTokenOut), maxDebts)
    ensures GoesOn(more, labels) && more[0] == p && labels != [] && labels[0] == Label(resender, Resend)
    ensures Good(p.x) && more[|labels|].x == p.x && more[|labels|].y == Holder(p.x)
  {
    if resender.X? {
      var q := LeaderReminds(p);
      var rest, steps := DeliveriesPassToken(q, maxDebts);
      more, labels := Before(p, Label(X, Resend), rest, steps);
    } else {
      var q, r := FollowerReminds(p, maxDebts);
      var rest, steps := DeliveriesPassToken(r, maxDebts);
      rest, steps := Before(q, Label(X, Deliver(maxDebts)), rest, steps);
      more, labels := Before(p, Label(Y, Resend), rest, steps);
    }
  }

  function Other(side: Side): Side {
    if side.X? then Y else X
  }

  lemma SwappedStep(p: Pair, l: Label, q: Pair)
    requires StepsTo(p, l, q)
    ensures StepsTo(Swap(p), Label(Other(l.side), l.action), Swap(q))
  {
    SwapTwice(p);
    SwapTwice(q);
  }

  lemma Swapped(more: seq<Pair>, labels: seq<Label>) returns (more': seq<Pair>, labels': seq<Label>)
    requires GoesOn(more, labels)
    ensures GoesOn(more', labels') && |labels'| == |labels|
    ensures forall i :: 0 <= i < |more| ==> more'[i] == Swap(more[i])
    ensures forall i :: 0 <= i < |labels| ==> labels'[i] == Label(Other(labels[i].side), labels[i].action)
  {
    more' := seq(|more|, i requires 0 <= i < |more| => Swap(more[i]));
    labels' := seq(|labels|, i requires 0 <= i < |labels| => Label(Other(labels[i].side), labels[i].action));
    forall i | 0 <= i < |labels| ensures StepsTo(more'[i], labels'[i], more'[i + 1]) {
      SwappedStep(more[i], labels[i], more[i + 1]);
    }
  }

  /** When both sides wait, whatever was lost, a reminder by either of them and the deliveries it brings about end with
      one side holding the token and mirroring the other, unless the token under way is one to refuse. */
  lemma TokenGetsThrough(run: seq<Pair>, labels: seq<Label>, resender: Side, maxDebts: MaxDebts)
    returns (more: seq<Pair>, steps: seq<Label>, ahead: Side)
    requires IsRun(run, labels)
    requires run[|labels|].x.direction.Outgoing? && run[|labels|].y.direction.Outgoing?
    ensures UnderWay(SeenFrom(run[|labels|], ahead))
    ensures var p := SeenFrom(run[|labels|], ahead);
            Receivable(p.y, OrderOf(p.x.direction.moveTokenOut), maxDebts) ==>
              && GoesOn(more, steps) && more[0] == run[|labels|]
              && steps != [] && steps[0] == Label(resender, Resend)
              && var q := SeenFrom(more[|steps|], ahead);
                 Good(q.x) && q.x == p.x && q.y == Holder(q.x)
  {
    RunKeepsInv(run, labels);
    SwapTwice(run[|labels|]);
    ahead := if UnderWay(run[|labels|]) then X else Y;
    more, steps := [], [];
    var p := SeenFrom(run[|labels|], ahead);
    if Receivable(p.y, OrderOf(p.x.direction.moveTokenOut), maxDebts) {
      if ahead.X? {
        more, steps := ReminderPassesToken(p, resender, maxDebts);
      } else {
        more, steps := ReminderPassesToken(p, Other(resender), maxDebts);
        SwapTwice(more[|steps|]);
        more, steps := Swapped(more, steps);
      }
    }
  }
}

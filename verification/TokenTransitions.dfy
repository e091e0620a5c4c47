/** The token channel between two friends
    (components/funder/src/token_channel.rs, components/funder/src/types.rs).

    Hashes are injective and signatures unforgeable, so both are constructors: a token contains the
    token it follows. `None` and `Panics` stand for the places where the code panics. Local relays are
    opaque numbers. */
module TokenTransitions {
  import opened Wrappers
  import opened Integers
  import opened MutualCredit

  // ---------------------------------------------------------------- messages

  datatype CurrencyBalanceInfo = CurrencyBalanceInfo(currency: Currency, balanceInfo: McBalance)

  datatype McInfo = McInfo(localPublicKey: PublicKey, remotePublicKey: PublicKey, balances: seq<CurrencyBalanceInfo>)

  datatype CountersInfo = CountersInfo(inconsistencyCounter: nat, moveTokenCounter: U128)

  datatype TokenInfo = TokenInfo(mc: McInfo, counters: CountersInfo)

  datatype InfoHash = InfoHash(tokenInfo: TokenInfo)

  datatype CurrencyOperations = CurrencyOperations(currency: Currency, operations: seq<FriendTcOp>)

  /** What a token carries: everything its signature covers, in the order of the fields. */
  datatype UnsignedMoveToken = UnsignedMoveToken(
    oldToken: Token,
    operations: seq<CurrencyOperations>,
    localRelays: Option<seq<nat>>,
    activeCurrencies: Option<seq<Currency>>,
    infoHash: InfoHash,
    randNonce: nat)

  /** A signature over a token; the first token of a channel holds a public key in its place. */
  datatype Token = FromPublicKey(publicKey: PublicKey) | Signed(signer: PublicKey, body: UnsignedMoveToken)

  datatype MoveToken = MoveToken(body: UnsignedMoveToken, newToken: Token)

  datatype PrefixHash = PrefixHash(
    oldToken: Token,
    operations: seq<CurrencyOperations>,
    localRelays: Option<seq<nat>>,
    activeCurrencies: Option<seq<Currency>>)

  datatype MoveTokenHashed = MoveTokenHashed(
    prefixHash: PrefixHash, tokenInfo: TokenInfo, randNonce: nat, newToken: Token)

  function CreateHashed(t: MoveToken, info: TokenInfo): MoveTokenHashed {
    var b := t.body;
    MoveTokenHashed(PrefixHash(b.oldToken, b.operations, b.localRelays, b.activeCurrencies), info,
                    b.randNonce, t.newToken)
  }

  function SignMoveToken(signer: PublicKey, body: UnsignedMoveToken): MoveToken {
    MoveToken(body, Signed(signer, body))
  }

  predicate VerifyMoveToken(t: MoveToken, publicKey: PublicKey) {
    t.newToken == Signed(publicKey, t.body)
  }

  // ---------------------------------------------------------------- the other side's view

  predicate Flippable(info: TokenInfo) {
    forall b <- info.mc.balances :: b.balanceInfo.balance > I128_MIN
  }

  function FlipBalance(b: McBalance): McBalance
    requires b.balance > I128_MIN
  {
    McBalance(-b.balance, b.remotePendingDebt, b.localPendingDebt)
  }

  function FlipBalances(bs: seq<CurrencyBalanceInfo>): seq<CurrencyBalanceInfo>
    requires forall b <- bs :: b.balanceInfo.balance > I128_MIN
  {
    if bs == [] then [] else
    [CurrencyBalanceInfo(bs[0].currency, FlipBalance(bs[0].balanceInfo))] + FlipBalances(bs[1..])
  }

  function Flip(info: TokenInfo): TokenInfo
    requires Flippable(info)
  {
    TokenInfo(McInfo(info.mc.remotePublicKey, info.mc.localPublicKey, FlipBalances(info.mc.balances)), info.counters)
  }

  type Credits = map<Currency, MutualCredit>

  /** The least element of a set of currencies. */
  ghost function Least(s: set<Currency>): (c: Currency)
    requires s != {}
    ensures c in s && forall d <- s :: c <= d
  {
    var c :| c in s;
    if s == {c} then c else
    var d := Least(s - {c});
    assert forall e <- s :: e == c || e in s - {c};
    if c < d then c else d
  }

  /** The balances in the order of their currencies. */
  ghost function Balances(credits: Credits): seq<CurrencyBalanceInfo>
    decreases |credits|
  {
    if credits == map[] then [] else
    var c := Least(credits.Keys);
    [CurrencyBalanceInfo(c, credits[c].balance)] + Balances(credits - {c})
  }

  /** Every credit can be seen from the other side. */
  predicate Mirrorable(credits: Credits) {
    forall c <- credits :: credits[c].balance.balance > I128_MIN
  }

  function MirrorAll(credits: Credits): Credits
    requires Mirrorable(credits)
  {
    map c | c in credits :: Mirror(credits[c])
  }

  lemma {:induction false} BalancesMember(credits: Credits, b: CurrencyBalanceInfo)
    ensures b in Balances(credits) <==> b.currency in credits && b.balanceInfo == credits[b.currency].balance
    decreases |credits|
  {
    if credits != map[] {
      var c := Least(credits.Keys);
      BalancesMember(credits - {c}, b);
    }
  }

  lemma {:induction false} BalancesSorted(credits: Credits)
    ensures forall i, j :: 0 <= i < j < |Balances(credits)| ==>
              Balances(credits)[i].currency < Balances(credits)[j].currency
    decreases |credits|
  {
    if credits != map[] {
      var c := Least(credits.Keys);
      BalancesSorted(credits - {c});
      forall b <- Balances(credits - {c}) ensures c < b.currency {
        BalancesMember(credits - {c}, b);
      }
    }
  }

  lemma FlippableBalances(credits: Credits)
    requires Mirrorable(credits)
    ensures forall b <- Balances(credits) :: b.balanceInfo.balance > I128_MIN
  {
    forall b <- Balances(credits) ensures b.balanceInfo.balance > I128_MIN {
      BalancesMember(credits, b);
    }
  }

  lemma MirrorRest(credits: Credits, c: Currency)
    requires Mirrorable(credits)
    ensures Mirrorable(credits - {c})
    ensures MirrorAll(credits).Keys == credits.Keys
    ensures MirrorAll(credits) - {c} == MirrorAll(credits - {c})
  {
  }

  /** Flipping the balances of one side gives the balances of the other. */
  lemma {:induction false} BalancesMirror(credits: Credits)
    requires Mirrorable(credits)
    ensures forall b <- Balances(credits) :: b.balanceInfo.balance > I128_MIN
    ensures FlipBalances(Balances(credits)) == Balances(MirrorAll(credits))
    decreases |credits|
  {
    FlippableBalances(credits);
    if credits != map[] {
      var c := Least(credits.Keys);
      var first, rest := CurrencyBalanceInfo(c, credits[c].balance), credits - {c};
      MirrorRest(credits, c);
      BalancesMirror(rest);
      calc {
        FlipBalances(Balances(credits));
        { FlipCons(first, Balances(rest)); }
        [CurrencyBalanceInfo(c, FlipBalance(credits[c].balance))] + FlipBalances(Balances(rest));
        [CurrencyBalanceInfo(c, MirrorAll(credits)[c].balance)] + Balances(MirrorAll(credits) - {c});
        Balances(MirrorAll(credits));
      }
    }
  }

  lemma FlipCons(b: CurrencyBalanceInfo, bs: seq<CurrencyBalanceInfo>)
    requires b.balanceInfo.balance > I128_MIN && forall b' <- bs :: b'.balanceInfo.balance > I128_MIN
    ensures forall b' <- [b] + bs :: b'.balanceInfo.balance > I128_MIN
    ensures FlipBalances([b] + bs) == [CurrencyBalanceInfo(b.currency, FlipBalance(b.balanceInfo))] + FlipBalances(bs)
  {
    assert ([b] + bs)[1..] == bs;
  }

  /** A listing that is strictly sorted and has exactly the entries of `credits` is the canonical one:
      the order in which the credits were visited does not matter. */
  lemma {:induction false} CanonicalUnique(bs: seq<CurrencyBalanceInfo>, credits: Credits)
    requires forall i, j :: 0 <= i < j < |bs| ==> bs[i].currency < bs[j].currency
    requires forall b :: b in bs <==> b.currency in credits && b.balanceInfo == credits[b.currency].balance
    ensures bs == Balances(credits)
    decreases |credits|
  {
    if credits == map[] {
      assert forall b <- bs :: false;
    } else {
      var c := Least(credits.Keys);
      var first := CurrencyBalanceInfo(c, credits[c].balance);
      assert first in bs;
      assert bs[0] in bs && bs[0] == first;
      forall b ensures b in bs[1..] <==> b in bs && b != first {
        if b in bs && b != first {
          var k :| 0 <= k < |bs| && bs[k] == b;
          assert bs[1..][k - 1] == b;
        }
      }
      CanonicalUnique(bs[1..], credits - {c});
    }
  }

  // ---------------------------------------------------------------- the channel

  datatype Direction =
    | Incoming(moveTokenIn: MoveTokenHashed)
    | Outgoing(moveTokenOut: MoveToken, tokenInfo: TokenInfo, prevMoveTokenIn: Option<MoveTokenHashed>)

  /** The currencies each side declared active. */
  datatype ActiveCurrencies = ActiveCurrencies(local: set<Currency>, remote: set<Currency>) {
    function CalcActive(): set<Currency> {
      local * remote
    }

    function Swap(): ActiveCurrencies {
      ActiveCurrencies(remote, local)
    }
  }

  datatype Channel = Channel(direction: Direction, credits: Credits, active: ActiveCurrencies)

  datatype TcMutation =
    | McMutation(currency: Currency, mutation: McMutation)
    | SetLocalActiveCurrencies(currencies: seq<Currency>)
    | SetRemoteActiveCurrencies(currencies: seq<Currency>)
    | AddMutualCredit(currency: Currency)
    | SetIncoming(moveTokenHashed: MoveTokenHashed)
    | SetOutgoing(moveToken: MoveToken, tokenInfo: TokenInfo)

  function LastIncoming(d: Direction): Option<MoveTokenHashed> {
    match d
    case Incoming(t) => Some(t)
    case Outgoing(_, _, prev) => prev
  }

  /** Reading the token information from our own side panics when a balance cannot be negated. */
  predicate Readable(d: Direction) {
    d.Incoming? ==> Flippable(d.moveTokenIn.tokenInfo)
  }

  function LocalKey(d: Direction): PublicKey {
    if d.Incoming? then d.moveTokenIn.tokenInfo.mc.remotePublicKey else d.tokenInfo.mc.localPublicKey
  }

  function RemoteKey(d: Direction): PublicKey {
    if d.Incoming? then d.moveTokenIn.tokenInfo.mc.localPublicKey else d.tokenInfo.mc.remotePublicKey
  }

  function SeqSet(s: seq<Currency>): set<Currency> {
    set c | c in s
  }

  /** `None` where the code panics. */
  function Mutated(ch: Channel, m: TcMutation): Option<Channel> {
    match m
    case McMutation(c, mutation) =>
      if c !in ch.credits then None else
      (match McMutate(ch.credits[c], mutation)
       case None => None
       case Some(mc) => Some(ch.(credits := ch.credits[c := mc])))
    case SetLocalActiveCurrencies(cs) => Some(ch.(active := ch.active.(local := SeqSet(cs))))
    case SetRemoteActiveCurrencies(cs) => Some(ch.(active := ch.active.(remote := SeqSet(cs))))
    case AddMutualCredit(c) =>
      if c in ch.active.local && c in ch.active.remote && Readable(ch.direction) && c !in ch.credits then
        var mc := NewMutualCredit(LocalKey(ch.direction), RemoteKey(ch.direction), c, 0);
        Some(ch.(credits := ch.credits[c := mc]))
      else None
    case SetIncoming(t) => Some(ch.(direction := Incoming(t)))
    case SetOutgoing(t, info) => Some(ch.(direction := Outgoing(t, info, LastIncoming(ch.direction))))
  }

  function MutateAll(ch: Channel, ms: seq<TcMutation>): Option<Channel>
    decreases |ms|
  {
    if ms == [] then Some(ch) else
    match MutateAll(ch, ms[..|ms| - 1])
    case None => None
    case Some(ch') => Mutated(ch', ms[|ms| - 1])
  }

  /** A credit is only ever added for a currency that both sides declared, and replaces none. */
  lemma AddedCreditIsNew(ch: Channel, c: Currency)
    requires Mutated(ch, AddMutualCredit(c)).Some?
    ensures var ch' := Mutated(ch, AddMutualCredit(c)).value;
            && c in ch.active.CalcActive() && ch'.credits.Keys == ch.credits.Keys + {c}
            && (forall d <- ch.credits :: ch'.credits[d] == ch.credits[d])
            && ch'.credits[c].balance == McBalance(0, 0, 0) && ch'.direction == ch.direction && ch'.active == ch.active
  {
  }

  // ---------------------------------------------------------------- construction

  function InitialMoveToken(low: PublicKey, high: PublicKey): (MoveToken, TokenInfo) {
    var info := TokenInfo(McInfo(low, high, []), CountersInfo(0, 0));
    (MoveToken(UnsignedMoveToken(FromPublicKey(low), [], None, None, InfoHash(info), high), FromPublicKey(high)), info)
  }

  /** Public keys are numbered in the order of their hashes; the lower side starts as the sender. */
  function NewChannel(localPk: PublicKey, remotePk: PublicKey): Channel {
    if localPk < remotePk then
      var (t, info) := InitialMoveToken(localPk, remotePk);
      Channel(Outgoing(t, info, None), map[], ActiveCurrencies({}, {}))
    else
      var (t, info) := InitialMoveToken(remotePk, localPk);
      Channel(Incoming(CreateHashed(t, info)), map[], ActiveCurrencies({}, {}))
  }

  /** A new channel knows its two sides and has no accounts yet. */
  lemma NewChannelKnows(localPk: PublicKey, remotePk: PublicKey)
    ensures var ch := NewChannel(localPk, remotePk);
            && LocalKey(ch.direction) == localPk && RemoteKey(ch.direction) == remotePk
            && (ch.direction.Outgoing? <==> localPk < remotePk)
            && ch.credits == map[] && ch.active.CalcActive() == {}
  {
  }

  function CreditsFrom(localPk: PublicKey, remotePk: PublicKey, bs: seq<CurrencyBalanceInfo>): Credits {
    if bs == [] then map[] else
    var b := bs[|bs| - 1];
    CreditsFrom(localPk, remotePk, bs[..|bs| - 1])
      [b.currency := NewMutualCredit(localPk, remotePk, b.currency, b.balanceInfo.balance)]
  }

  /** The channel of the side that accepted a reset; panics when a balance cannot be negated. */
  function NewFromRemoteReset(t: MoveToken, remoteInfo: TokenInfo): Channel
    requires Flippable(remoteInfo)
  {
    var credits := CreditsFrom(remoteInfo.mc.remotePublicKey, remoteInfo.mc.localPublicKey,
                               FlipBalances(remoteInfo.mc.balances));
    Channel(Incoming(CreateHashed(t, remoteInfo)), credits, ActiveCurrencies(credits.Keys, credits.Keys))
  }

  /** The channel of the side that issued a reset. */
  function NewFromLocalReset(t: MoveToken, info: TokenInfo, lastIncoming: Option<MoveTokenHashed>): Channel {
    var credits := CreditsFrom(info.mc.localPublicKey, info.mc.remotePublicKey, info.mc.balances);
    Channel(Outgoing(t, info, lastIncoming), credits, ActiveCurrencies(credits.Keys, credits.Keys))
  }

  // ---------------------------------------------------------------- sending

  datatype SendError = CanNotRemoveCurrencyInUse | SendPanics

  /** The new credits for currencies that just became active on both sides. */
  function NewCredits(ch: Channel): Credits {
    map c | c in ch.active.CalcActive() - ch.credits.Keys ::
      NewMutualCredit(LocalKey(ch.direction), RemoteKey(ch.direction), c, 0)
  }

  function AddNewCredits(ch: Channel): Option<Channel> {
    if NewCredits(ch) != map[] && !Readable(ch.direction) then None
    else Some(ch.(credits := ch.credits + NewCredits(ch)))
  }

  predicate KeepsCurrenciesInUse(credits: Credits, cs: seq<Currency>) {
    forall c <- credits :: c in cs
  }

  function ActivateLocal(ch: Channel, opt: Option<seq<Currency>>): Result<Channel, SendError> {
    match opt
    case None => Ok(ch)
    case Some(cs) =>
      if !KeepsCurrenciesInUse(ch.credits, cs) then Err(CanNotRemoveCurrencyInUse) else
      match AddNewCredits(ch.(active := ch.active.(local := SeqSet(cs))))
      case None => Err(SendPanics)
      case Some(ch') => Ok(ch')
  }

  /** Queueing every operation; `None` when a currency is unknown or an operation is refused. */
  function SendOperations(credits: Credits, cops: seq<CurrencyOperations>): Option<Credits>
    decreases |cops|
  {
    if cops == [] then Some(credits)
    else if cops[0].currency !in credits then None
    else match QueueAll(credits[cops[0].currency], cops[0].operations)
      case None => None
      case Some(mc) => SendOperations(credits[cops[0].currency := mc], cops[1..])
  }

  /** What the holder of the token wants to send. */
  datatype Order = Order(
    operations: seq<CurrencyOperations>, localRelays: Option<seq<nat>>, activeCurrencies: Option<seq<Currency>>,
    randNonce: nat)

  datatype SendOutput = SendOutput(channel: Channel, tokenInfo: TokenInfo, unsigned: UnsignedMoveToken)

  function WrappingSucc(n: U128): U128 {
    if n < U128_MAX then n + 1 else 0
  }

  /** Sending: the channel after the returned mutations, and the token to be signed. */
  ghost function Send(ch: Channel, o: Order): Result<SendOutput, SendError>
    requires ch.direction.Incoming?
  {
    match ActivateLocal(ch, o.activeCurrencies)
    case Err(error) => Err(error)
    case Ok(ch1) =>
      match SendOperations(ch1.credits, o.operations)
      case None => Err(SendPanics)
      case Some(credits) =>
        var tokenIn := ch.direction.moveTokenIn;
        var cur := tokenIn.tokenInfo;
        var info := TokenInfo(
          McInfo(cur.mc.remotePublicKey, cur.mc.localPublicKey, Balances(credits)),
          CountersInfo(cur.counters.inconsistencyCounter, WrappingSucc(cur.counters.moveTokenCounter)));
        Ok(SendOutput(ch1.(credits := credits), info,
             UnsignedMoveToken(tokenIn.newToken, o.operations, o.localRelays, o.activeCurrencies,
                               InfoHash(info), o.randNonce)))
  }

  // ---------------------------------------------------------------- receiving

  datatype ReceiveError =
    | ChainInconsistency
    | InvalidTransaction(error: OperationError)
    | InvalidSignature
    | InvalidTokenInfo
    | MoveTokenCounterOverflow
    | InvalidCurrency
    | ReceiveCanNotRemoveCurrencyInUse
    | ReceivePanics

  datatype ReceivedCurrency = ReceivedCurrency(currency: Currency, incomingMessages: seq<IncomingMessage>)

  datatype ReceiveOutput =
    | Duplicate
    | RetransmitOutgoing(moveToken: MoveToken)
    | Received(channel: Channel, currencies: seq<ReceivedCurrency>, localRelays: Option<seq<nat>>)

  function ActivateRemote(ch: Channel, opt: Option<seq<Currency>>): Result<Channel, ReceiveError> {
    match opt
    case None => Ok(ch)
    case Some(cs) =>
      if !KeepsCurrenciesInUse(ch.credits, cs) then Err(ReceiveCanNotRemoveCurrencyInUse) else
      match AddNewCredits(ch.(active := ch.active.(remote := SeqSet(cs))))
      case None => Err(ReceivePanics)
      case Some(ch') => Ok(ch')
  }

  type MaxDebts = map<Currency, U128>

  function MaxDebt(maxDebts: MaxDebts, c: Currency): U128 {
    if c in maxDebts then maxDebts[c] else 0
  }

  function ReceiveOperations(credits: Credits, cops: seq<CurrencyOperations>, maxDebts: MaxDebts)
    : Result<(Credits, seq<ReceivedCurrency>), ReceiveError>
    decreases |cops|
  {
    if cops == [] then Ok((credits, []))
    else
      var c := cops[0].currency;
      if c !in credits then Err(InvalidCurrency)
      else match ProcessAll(credits[c], cops[0].operations, MaxDebt(maxDebts, c))
        case Err(error) => Err(InvalidTransaction(error))
        case Ok((mc, messages)) =>
          match ReceiveOperations(credits[c := mc], cops[1..], maxDebts)
          case Err(error) => Err(error)
          case Ok((credits', rest)) => Ok((credits', [ReceivedCurrency(c, messages)] + rest))
  }

  /** The information the token has to agree with: ours with the counter advanced, seen from the other side. */
  ghost function ExpectedInfo(info: TokenInfo, credits: Credits, t: MoveToken): Result<TokenInfo, ReceiveError> {
    if info.counters.moveTokenCounter == U128_MAX then Err(MoveTokenCounterOverflow) else
    var own := TokenInfo(
      McInfo(info.mc.localPublicKey, info.mc.remotePublicKey, Balances(credits)),
      CountersInfo(info.counters.inconsistencyCounter, info.counters.moveTokenCounter + 1));
    if !Flippable(own) then Err(ReceivePanics)
    else if t.body.infoHash != InfoHash(Flip(own)) then Err(InvalidTokenInfo)
    else Ok(Flip(own))
  }

  /** Receiving the token that follows ours. */
  ghost function ReceiveMatch(ch: Channel, t: MoveToken, maxDebts: MaxDebts): Result<ReceiveOutput, ReceiveError>
    requires ch.direction.Outgoing?
  {
    var info := ch.direction.tokenInfo;
    if !VerifyMoveToken(t, info.mc.remotePublicKey) then Err(InvalidSignature) else
    match ActivateRemote(ch, t.body.activeCurrencies)
    case Err(error) => Err(error)
    case Ok(ch1) =>
      match ReceiveOperations(ch1.credits, t.body.operations, maxDebts)
      case Err(error) => Err(error)
      case Ok((credits, currencies)) =>
        match ExpectedInfo(info, credits, t)
        case Err(error) => Err(error)
        case Ok(expected) =>
          Ok(Received(Channel(Incoming(CreateHashed(t, expected)), credits, ch1.active), currencies,
                      t.body.localRelays))
  }

  predicate PanicsOnReceive(r: Result<ReceiveOutput, ReceiveError>) {
    r == Err(ReceivePanics) || r == Err(InvalidTransaction(Panics))
  }

  ghost function Receive(ch: Channel, t: MoveToken, maxDebts: MaxDebts): Result<ReceiveOutput, ReceiveError> {
    match ch.direction
    case Incoming(tokenIn) =>
      if tokenIn == CreateHashed(t, tokenIn.tokenInfo) then Ok(Duplicate) else Err(ChainInconsistency)
    case Outgoing(out, _, _) =>
      if t.body.oldToken == out.newToken then ReceiveMatch(ch, t, maxDebts)
      else if out.body.oldToken == t.newToken then Ok(RetransmitOutgoing(out))
      else Err(ChainInconsistency)
  }

  // ---------------------------------------------------------------- tokens of whatever origin

  /** Operations are refused for a currency that is not in use or for a transaction, and close no currency. */
  lemma {:induction false} OperationsOutcome(credits: Credits, cops: seq<CurrencyOperations>, maxDebts: MaxDebts)
    ensures match ReceiveOperations(credits, cops, maxDebts)
            case Ok((after, _)) => after.Keys == credits.Keys
            case Err(error) => error.InvalidCurrency? || error.InvalidTransaction?
    decreases |cops|
  {
    if cops != [] && cops[0].currency in credits {
      var c := cops[0].currency;
      var processed := ProcessAll(credits[c], cops[0].operations, MaxDebt(maxDebts, c));
      if processed.Ok? {
        OperationsOutcome(credits[c := processed.value.0], cops[1..], maxDebts);
      }
    }
  }

  /** What is told about the `k`-th list of operations: each against the limit configured for its currency, or zero. */
  ghost predicate ToldAt(credits: Credits, cops: seq<CurrencyOperations>, maxDebts: MaxDebts,
                         told: seq<ReceivedCurrency>, k: nat)
    requires k < |cops| == |told|
  {
    var c, ops, messages := cops[k].currency, cops[k].operations, told[k].incomingMessages;
    var before := ReceiveOperations(credits, cops[..k], maxDebts);
    var limit: U128 := if c in maxDebts then maxDebts[c] else 0;
    && told[k].currency == c && |messages| == |ops| && before.Ok? && c in before.value.0
    && forall j :: 0 <= j < |ops| ==> TellsAt(before.value.0[c], ops, limit, messages, j)
  }

  lemma FirstTold(credits: Credits, cops: seq<CurrencyOperations>, maxDebts: MaxDebts)
    requires ReceiveOperations(credits, cops, maxDebts).Ok? && cops != []
    requires |ReceiveOperations(credits, cops, maxDebts).value.1| == |cops|
    ensures ToldAt(credits, cops, maxDebts, ReceiveOperations(credits, cops, maxDebts).value.1, 0)
  {
    var mc, ops := credits[cops[0].currency], cops[0].operations;
    var limit := MaxDebt(maxDebts, cops[0].currency);
    ProcessAllLength(mc, ops, limit);
    forall j | 0 <= j < |ops| ensures TellsAt(mc, ops, limit, ProcessAll(mc, ops, limit).value.1, j) {
      ListTells(mc, ops, limit, j);
    }
  }

  /** Everything in a token that is taken up is told about, in order. */
  lemma {:induction false} OperationsTell(credits: Credits, cops: seq<CurrencyOperations>, maxDebts: MaxDebts, k: nat)
    requires ReceiveOperations(credits, cops, maxDebts).Ok? && k < |cops|
    ensures |ReceiveOperations(credits, cops, maxDebts).value.1| == |cops|
    ensures ToldAt(credits, cops, maxDebts, ReceiveOperations(credits, cops, maxDebts).value.1, k)
    decreases |cops|
  {
    var c := cops[0].currency;
    var mc := ProcessAll(credits[c], cops[0].operations, MaxDebt(maxDebts, c)).value.0;
    if |cops| > 1 {
      OperationsTell(credits[c := mc], cops[1..], maxDebts, if k > 0 then k - 1 else 0);
    }
    if k == 0 {
      FirstTold(credits, cops, maxDebts);
    } else {
      assert cops[..k][1..] == cops[1..][..k - 1];
    }
  }

  /** The token agrees in every field with the one the holder keeps. */
  predicate IsHeld(t: MoveToken, held: MoveTokenHashed) {
    && t.newToken == held.newToken && t.body.randNonce == held.randNonce
    && t.body.oldToken == held.prefixHash.oldToken && t.body.operations == held.prefixHash.operations
    && t.body.localRelays == held.prefixHash.localRelays
    && t.body.activeCurrencies == held.prefixHash.activeCurrencies
  }

  /** The holder knows the token it holds, and takes every other one for an inconsistency. */
  lemma HolderAnswers(ch: Channel, t: MoveToken, maxDebts: MaxDebts)
    requires ch.direction.Incoming?
    ensures Receive(ch, t, maxDebts) == Ok(Duplicate) <==> IsHeld(t, ch.direction.moveTokenIn)
    ensures Receive(ch, t, maxDebts) == Err(ChainInconsistency) <==> !IsHeld(t, ch.direction.moveTokenIn)
  {
  }

  /** Of the tokens that the remote side really signed, the holder knows exactly the one it received. */
  lemma HolderKnowsOneToken(ch: Channel, accepted: MoveToken, t: MoveToken, maxDebts: MaxDebts)
    requires ch.direction.Incoming?
    requires ch.direction.moveTokenIn == CreateHashed(accepted, ch.direction.moveTokenIn.tokenInfo)
    requires VerifyMoveToken(accepted, RemoteKey(ch.direction)) && VerifyMoveToken(t, RemoteKey(ch.direction))
    ensures Receive(ch, t, maxDebts) == if t == accepted then Ok(Duplicate) else Err(ChainInconsistency)
  {
  }

  /** The waiting side takes up a token that follows its own, sends its own again to one that its own follows, and takes
      every other one for an inconsistency. */
  lemma WaiterAnswers(ch: Channel, t: MoveToken, maxDebts: MaxDebts)
    requires ch.direction.Outgoing?
    ensures var out := ch.direction.moveTokenOut;
            var follows, precedes := t.body.oldToken == out.newToken, t.newToken == out.body.oldToken;
            var r := Receive(ch, t, maxDebts);
            && (r == Err(ChainInconsistency) <==> !follows && !precedes)
            && (r == Ok(RetransmitOutgoing(out)) <==> !follows && precedes)
            && (r.Ok? && r.value.RetransmitOutgoing? ==> r.value.moveToken == out)
            && (follows ==> r == ReceiveMatch(ch, t, maxDebts))
            && r != Ok(Duplicate)
  {
    var active := ActivateRemote(ch, t.body.activeCurrencies);
    if active.Ok? {
      OperationsOutcome(active.value.credits, t.body.operations, maxDebts);
    }
  }

  /** A token is taken up only if the remote side signed it, it follows ours, and it was hashed over the balances both
      sides now agree on; its relays and currencies are the ones reported and recorded. */
  lemma ReceivedOnlyIf(ch: Channel, t: MoveToken, maxDebts: MaxDebts)
    requires ch.direction.Outgoing?
    requires Receive(ch, t, maxDebts).Ok? && Receive(ch, t, maxDebts).value.Received?
    ensures t.newToken == Signed(ch.direction.tokenInfo.mc.remotePublicKey, t.body)
    ensures t.body.oldToken == ch.direction.moveTokenOut.newToken
    ensures var r := Receive(ch, t, maxDebts).value;
            && r.localRelays == t.body.localRelays
            && r.channel.direction.Incoming? && IsHeld(t, r.channel.direction.moveTokenIn)
            && t.body.infoHash == InfoHash(r.channel.direction.moveTokenIn.tokenInfo)
            && r.channel.active.local == ch.active.local
            && r.channel.active.remote
               == (if t.body.activeCurrencies.Some? then SeqSet(t.body.activeCurrencies.value) else ch.active.remote)
            && ch.credits.Keys <= r.channel.credits.Keys
  {
    var active := ActivateRemote(ch, t.body.activeCurrencies);
    if active.Ok? {
      OperationsOutcome(active.value.credits, t.body.operations, maxDebts);
    }
  }
}

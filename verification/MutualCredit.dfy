/** Mutual credit between two friends in one currency
    (components/funder/src/mutual_credit/, components/common/src/safe_arithmetic.rs).

    Hashes and signatures are ideal: a hashed lock determines its plain lock, and a signature names
    its signer and the signed buffer. */
module MutualCredit {
  import opened Wrappers
  import opened Integers

  const MAX_ROUTE_LEN := 32

  type PublicKey = nat
  /** Currency names, numbered in their order. */
  type Currency = nat
  type Uid = nat

  datatype HashedLock = HashedLock(plainLock: nat)

  /** What the destination signs: the response together with the request it answers. */
  datatype ResponseBuffer = ResponseBuffer(
    requestId: Uid, randNonce: nat, srcHashedLock: HashedLock, destHashedLock: HashedLock, isComplete: bool,
    destPayment: U128, totalDestPayment: U128, invoiceId: nat, currency: Currency)

  datatype ResponseSignature = ResponseSignature(signer: PublicKey, buffer: ResponseBuffer)

  datatype FriendTcOp =
    | RequestSendFunds(requestId: Uid, srcHashedLock: HashedLock, route: seq<PublicKey>, destPayment: U128,
                       totalDestPayment: U128, invoiceId: nat, leftFees: U128)
    | ResponseSendFunds(requestId: Uid, destHashedLock: HashedLock, isComplete: bool, randNonce: nat,
                        signature: ResponseSignature)
    | CancelSendFunds(requestId: Uid)
    | CollectSendFunds(requestId: Uid, srcPlainLock: nat, destPlainLock: nat)

  datatype TransactionStage = Request | Response(destHashedLock: HashedLock, isComplete: bool)

  datatype PendingTransaction = PendingTransaction(
    requestId: Uid, route: seq<PublicKey>, destPayment: U128, totalDestPayment: U128, invoiceId: nat,
    leftFees: U128, srcHashedLock: HashedLock, stage: TransactionStage)

  datatype McBalance = McBalance(balance: I128, localPendingDebt: U128, remotePendingDebt: U128)

  datatype MutualCredit = MutualCredit(
    localPublicKey: PublicKey, remotePublicKey: PublicKey, currency: Currency,
    balance: McBalance, local: map<Uid, PendingTransaction>, remote: map<Uid, PendingTransaction>)

  datatype McMutation =
    | SetBalance(balance: I128)
    | InsertLocalPendingTransaction(pending: PendingTransaction)
    | RemoveLocalPendingTransaction(id: Uid)
    | SetLocalPendingTransactionStage(id: Uid, stage: TransactionStage)
    | InsertRemotePendingTransaction(pending: PendingTransaction)
    | RemoveRemotePendingTransaction(id: Uid)
    | SetRemotePendingTransactionStage(id: Uid, stage: TransactionStage)
    | SetLocalPendingDebt(debt: U128)
    | SetRemotePendingDebt(debt: U128)

  /** The errors both directions share; `Panics` stands for an `unwrap` of nothing. */
  datatype OperationError =
    | InvalidRoute
    | DestPaymentExceedsTotal
    | CreditsCalcOverflow
    | RequestAlreadyExists
    | RequestDoesNotExist
    | InvalidResponseSignature
    | NotExpectingResponse
    | NotExpectingCollect
    | InvalidSrcPlainLock
    | InvalidDestPlainLock
    | Panics

  datatype IncomingMessage =
    | IncomingRequest(op: FriendTcOp)
    | IncomingRequestCancel(op: FriendTcOp)
    | IncomingResponse(pending: PendingTransaction, op: FriendTcOp)
    | IncomingCancel(pending: PendingTransaction, op: FriendTcOp)
    | IncomingCollect(pending: PendingTransaction, op: FriendTcOp)

  // ---------------------------------------------------------------- checked arithmetic

  function CheckedAdd(a: U128, b: U128): Option<U128> {
    if a + b <= U128_MAX then Some(a + b) else None
  }

  function CheckedSub(a: U128, b: U128): Option<U128> {
    if b <= a then Some(a - b) else None
  }

  function AddSigned(a: I128, b: int): Option<I128> {
    if I128_MIN <= a + b <= I128_MAX then Some(a + b) else None
  }

  /** The code adds an unsigned number in three steps that each fit a signed one; the steps all go the
      same way, so it fails exactly when the sum does not fit. */
  function CheckedAddUnsigned(a: I128, u: U128): (r: Option<I128>)
    ensures r == if a + u <= I128_MAX then Some(a + u) else None
  {
    var half, rem := u / 2, u % 2;
    match AddSigned(a, half)
    case None => None
    case Some(b) =>
      match AddSigned(b, half)
      case None => None
      case Some(c) => AddSigned(c, rem)
  }

  function CheckedSubUnsigned(a: I128, u: U128): (r: Option<I128>)
    ensures r == if a - u >= I128_MIN then Some(a - u) else None
  {
    var half, rem := u / 2, u % 2;
    match AddSigned(a, -half)
    case None => None
    case Some(b) =>
      match AddSigned(b, -half)
      case None => None
      case Some(c) => AddSigned(c, -rem)
  }

  // ---------------------------------------------------------------- state and mutations

  function NewMutualCredit(localPk: PublicKey, remotePk: PublicKey, currency: Currency, balance: I128): MutualCredit {
    MutualCredit(localPk, remotePk, currency, McBalance(balance, 0, 0), map[], map[])
  }

  /** `None` where the code panics: setting the stage of a transaction that is not pending. */
  function McMutate(mc: MutualCredit, m: McMutation): Option<MutualCredit> {
    match m
    case SetBalance(balance) => Some(mc.(balance := mc.balance.(balance := balance)))
    case InsertLocalPendingTransaction(p) => Some(mc.(local := mc.local[p.requestId := p]))
    case RemoveLocalPendingTransaction(id) => Some(mc.(local := mc.local - {id}))
    case SetLocalPendingTransactionStage(id, stage) =>
      if id in mc.local then Some(mc.(local := mc.local[id := mc.local[id].(stage := stage)])) else None
    case InsertRemotePendingTransaction(p) => Some(mc.(remote := mc.remote[p.requestId := p]))
    case RemoveRemotePendingTransaction(id) => Some(mc.(remote := mc.remote - {id}))
    case SetRemotePendingTransactionStage(id, stage) =>
      if id in mc.remote then Some(mc.(remote := mc.remote[id := mc.remote[id].(stage := stage)])) else None
    case SetLocalPendingDebt(debt) => Some(mc.(balance := mc.balance.(localPendingDebt := debt)))
    case SetRemotePendingDebt(debt) => Some(mc.(balance := mc.balance.(remotePendingDebt := debt)))
  }

  function McMutateAll(mc: MutualCredit, ms: seq<McMutation>): Option<MutualCredit>
    decreases |ms|
  {
    if ms == [] then Some(mc) else
    match McMutate(mc, ms[0])
    case None => None
    case Some(mc') => McMutateAll(mc', ms[1..])
  }

  // ---------------------------------------------------------------- operations

  function CreatePendingTransaction(op: FriendTcOp): PendingTransaction
    requires op.RequestSendFunds?
  {
    PendingTransaction(op.requestId, op.route, op.destPayment, op.totalDestPayment, op.invoiceId,
                       op.leftFees, op.srcHashedLock, Request)
  }

  predicate NoDuplicates(route: seq<PublicKey>) {
    forall i, j :: 0 <= i < j < |route| ==> route[i] != route[j]
  }

  predicate IsPartValid(route: seq<PublicKey>) {
    |route| < MAX_ROUTE_LEN && NoDuplicates(route)
  }

  function BufferOf(currency: Currency, op: FriendTcOp, p: PendingTransaction): ResponseBuffer
    requires op.ResponseSendFunds?
  {
    ResponseBuffer(p.requestId, op.randNonce, p.srcHashedLock, op.destHashedLock, op.isComplete,
                   p.destPayment, p.totalDestPayment, p.invoiceId, currency)
  }

  /** The last node of the route answers; `direct` is the node next to us when the route has ended. */
  function Destination(p: PendingTransaction, direct: PublicKey): PublicKey {
    if p.route == [] then direct else p.route[|p.route| - 1]
  }

  /** The mutations with which the sending side records an operation it sends. */
  function QueueOperation(mc: MutualCredit, op: FriendTcOp): Result<seq<McMutation>, OperationError> {
    match op
    case RequestSendFunds(id, _, route, payment, total, _, fees) =>
      if !IsPartValid(route) then Err(InvalidRoute)
      else if payment > total then Err(DestPaymentExceedsTotal)
      else (
        var freeze := CheckedAdd(payment, fees);
        if freeze.None? then Err(CreditsCalcOverflow) else
        var debt := CheckedAdd(mc.balance.localPendingDebt, freeze.value);
        if debt.None? then Err(CreditsCalcOverflow)
        else if id in mc.local then Err(RequestAlreadyExists)
        else Ok([InsertLocalPendingTransaction(CreatePendingTransaction(op)), SetLocalPendingDebt(debt.value)]))
    case ResponseSendFunds(id, lock, isComplete, _, signature) =>
      if id !in mc.remote then Err(RequestDoesNotExist) else
      var p := mc.remote[id];
      if signature != ResponseSignature(Destination(p, mc.localPublicKey), BufferOf(mc.currency, op, p))
      then Err(InvalidResponseSignature)
      else if !p.stage.Request? then Err(NotExpectingResponse)
      else Ok([SetRemotePendingTransactionStage(id, Response(lock, isComplete))])
    case CancelSendFunds(id) =>
      if id !in mc.remote then Err(RequestDoesNotExist) else
      var freeze := CheckedAdd(mc.remote[id].destPayment, mc.remote[id].leftFees);
      if freeze.None? then Err(Panics) else
      var debt := CheckedSub(mc.balance.remotePendingDebt, freeze.value);
      if debt.None? then Err(Panics)
      else Ok([RemoveRemotePendingTransaction(id), SetRemotePendingDebt(debt.value)])
    case CollectSendFunds(id, srcPlainLock, destPlainLock) =>
      if id !in mc.remote then Err(RequestDoesNotExist) else
      var p := mc.remote[id];
      if !p.stage.Response? then Err(NotExpectingCollect)
      else if HashedLock(srcPlainLock) != p.srcHashedLock then Err(InvalidSrcPlainLock)
      else if HashedLock(destPlainLock) != p.stage.destHashedLock then Err(InvalidDestPlainLock)
      else (
        var freeze := CheckedAdd(p.destPayment, p.leftFees);
        if freeze.None? then Err(Panics) else
        var debt := CheckedSub(mc.balance.remotePendingDebt, freeze.value);
        if debt.None? then Err(Panics) else
        var balance := CheckedAddUnsigned(mc.balance.balance, freeze.value);
        if balance.None? then Err(Panics)
        else Ok([RemoveRemotePendingTransaction(id), SetRemotePendingDebt(debt.value), SetBalance(balance.value)]))
  }

  datatype ProcessOutput = ProcessOutput(incomingMessage: IncomingMessage, mutations: seq<McMutation>)

  /** The mutations with which the receiving side records an operation it was sent. */
  function ProcessOperation(mc: MutualCredit, op: FriendTcOp, remoteMaxDebt: U128)
    : Result<ProcessOutput, OperationError>
  {
    match op
    case RequestSendFunds(id, _, route, payment, total, _, fees) =>
      if !IsPartValid(route) then Err(InvalidRoute)
      else if payment > total then Err(DestPaymentExceedsTotal)
      else if id in mc.remote then Err(RequestAlreadyExists)
      else (
        var freeze := CheckedAdd(payment, fees);
        if freeze.None? then Err(CreditsCalcOverflow) else
        var debt := CheckedAdd(mc.balance.remotePendingDebt, freeze.value);
        if debt.None? then Err(CreditsCalcOverflow) else
        var exposure := CheckedAddUnsigned(mc.balance.balance, debt.value);
        if exposure.None? then Err(CreditsCalcOverflow) else
        var excess := CheckedSubUnsigned(exposure.value, remoteMaxDebt);
        if excess.None? then Err(CreditsCalcOverflow)
        else Ok(ProcessOutput(
                  if excess.value > 0 then IncomingRequestCancel(op) else IncomingRequest(op),
                  [InsertRemotePendingTransaction(CreatePendingTransaction(op)), SetRemotePendingDebt(debt.value)])))
    case ResponseSendFunds(id, lock, isComplete, _, signature) =>
      if id !in mc.local then Err(RequestDoesNotExist) else
      var p := mc.local[id];
      if signature != ResponseSignature(Destination(p, mc.remotePublicKey), BufferOf(mc.currency, op, p))
      then Err(InvalidResponseSignature)
      else if !p.stage.Request? then Err(NotExpectingResponse)
      else Ok(ProcessOutput(IncomingResponse(p, op),
                            [SetLocalPendingTransactionStage(id, Response(lock, isComplete))]))
    case CancelSendFunds(id) =>
      if id !in mc.local then Err(RequestDoesNotExist) else
      var p := mc.local[id];
      var freeze := CheckedAdd(p.destPayment, p.leftFees);
      if freeze.None? then Err(Panics) else
      var debt := CheckedSub(mc.balance.localPendingDebt, freeze.value);
      if debt.None? then Err(Panics)
      else Ok(ProcessOutput(IncomingCancel(p, op),
                            [RemoveLocalPendingTransaction(id), SetLocalPendingDebt(debt.value)]))
    case CollectSendFunds(id, srcPlainLock, destPlainLock) =>
      if id !in mc.local then Err(RequestDoesNotExist) else
      var p := mc.local[id];
      if !p.stage.Response? then Err(NotExpectingCollect)
      else if HashedLock(srcPlainLock) != p.srcHashedLock then Err(InvalidSrcPlainLock)
      else if HashedLock(destPlainLock) != p.stage.destHashedLock then Err(InvalidDestPlainLock)
      else (
        var freeze := CheckedAdd(p.destPayment, p.leftFees);
        if freeze.None? then Err(Panics) else
        var debt := CheckedSub(mc.balance.localPendingDebt, freeze.value);
        if debt.None? then Err(Panics) else
        var balance := CheckedSubUnsigned(mc.balance.balance, freeze.value);
        if balance.None? then Err(Panics)
        else Ok(ProcessOutput(IncomingCollect(p, op),
                  [RemoveLocalPendingTransaction(id), SetLocalPendingDebt(debt.value), SetBalance(balance.value)])))
  }

  // ---------------------------------------------------------------- the other side's view

  /** The same relationship as the other side keeps it. */
  function Mirror(mc: MutualCredit): MutualCredit
    requires mc.balance.balance > I128_MIN
  {
    MutualCredit(mc.remotePublicKey, mc.localPublicKey, mc.currency,
                 McBalance(-mc.balance.balance, mc.balance.remotePendingDebt, mc.balance.localPendingDebt),
                 mc.remote, mc.local)
  }

  function Frozen(p: PendingTransaction): nat {
    p.destPayment + p.leftFees
  }

  /** The credits frozen by all transactions in `m`. */
  ghost function TotalFrozen(m: map<Uid, PendingTransaction>): nat {
    if m == map[] then 0 else
    var id :| id in m;
    Frozen(m[id]) + TotalFrozen(m - {id})
  }

  lemma {:induction false} TotalFrozenRemove(m: map<Uid, PendingTransaction>, id: Uid)
    requires id in m
    ensures TotalFrozen(m) == Frozen(m[id]) + TotalFrozen(m - {id})
    decreases |m|
  {
    var first :| first in m && TotalFrozen(m) == Frozen(m[first]) + TotalFrozen(m - {first});
    if first != id {
      TotalFrozenRemove(m - {first}, id);
      TotalFrozenRemove(m - {id}, first);
      assert m - {first} - {id} == m - {id} - {first};
    }
  }

  lemma TotalFrozenUpdate(m: map<Uid, PendingTransaction>, id: Uid, p: PendingTransaction)
    ensures TotalFrozen(m[id := p]) == Frozen(p) + TotalFrozen(m - {id})
    ensures id !in m ==> TotalFrozen(m[id := p]) == Frozen(p) + TotalFrozen(m)
  {
    TotalFrozenRemove(m[id := p], id);
    assert m[id := p] - {id} == m - {id};
    if id !in m {
      assert m - {id} == m;
    }
  }

  /** What every reachable credit keeps: the pending debts are exactly the frozen credits, and were all
      pending transactions of either side collected, the balance would still fit on both sides. */
  ghost predicate Sound(mc: MutualCredit) {
    && TotalFrozen(mc.local) == mc.balance.localPendingDebt
    && TotalFrozen(mc.remote) == mc.balance.remotePendingDebt
    && mc.balance.balance + mc.balance.remotePendingDebt <= I128_MAX
    && mc.balance.localPendingDebt - mc.balance.balance <= I128_MAX
  }

  lemma MirrorInvolution(mc: MutualCredit)
    requires mc.balance.balance > I128_MIN
    ensures Mirror(Mirror(mc)) == mc
    ensures Sound(mc) ==> Sound(Mirror(mc))
  {
  }

  /** A request passes the receiver's arithmetic; seen from the sender, whose credit is `mc`. */
  predicate Fits(mc: MutualCredit, op: FriendTcOp, remoteMaxDebt: U128) {
    op.RequestSendFunds? ==>
      var exposure := mc.balance.localPendingDebt + op.destPayment + op.leftFees - mc.balance.balance;
      exposure <= I128_MAX && exposure - remoteMaxDebt >= I128_MIN
  }

  lemma ReplayOne(mc: MutualCredit, a: McMutation)
    ensures McMutateAll(mc, [a]) == McMutate(mc, a)
  {
    assert [a][1..] == [];
  }

  lemma ReplayTwo(mc: MutualCredit, a: McMutation, b: McMutation)
    requires McMutate(mc, a).Some?
    ensures McMutateAll(mc, [a, b]) == McMutate(McMutate(mc, a).value, b)
  {
    assert [a, b][1..] == [b];
    ReplayOne(McMutate(mc, a).value, b);
  }

  lemma ReplayThree(mc: MutualCredit, a: McMutation, b: McMutation, c: McMutation)
    requires McMutate(mc, a).Some? && McMutate(McMutate(mc, a).value, b).Some?
    ensures McMutateAll(mc, [a, b, c]) == McMutate(McMutate(McMutate(mc, a).value, b).value, c)
  {
    assert [a, b, c][1..] == [b, c];
    ReplayTwo(McMutate(mc, a).value, b, c);
  }

  /** The sender's credit after it queued `op`. */
  function Queued(mc: MutualCredit, op: FriendTcOp): Option<MutualCredit> {
    var r := QueueOperation(mc, op);
    if r.Ok? then McMutateAll(mc, r.value) else None
  }

  /** On a sound credit no `unwrap` of the sender fails, and a queued operation has this effect. */
  lemma QueueEffect(mc: MutualCredit, op: FriendTcOp)
    requires Sound(mc)
    ensures QueueOperation(mc, op) != Err(Panics)
    ensures Queued(mc, op).Some? <==> QueueOperation(mc, op).Ok?
    ensures Queued(mc, op).Some? ==>
              Queued(mc, op).value == match op
                case RequestSendFunds(id, _, _, payment, _, _, fees) =>
                  mc.(local := mc.local[id := CreatePendingTransaction(op)],
                      balance := mc.balance.(localPendingDebt := mc.balance.localPendingDebt + payment + fees))
                case ResponseSendFunds(id, lock, isComplete, _, _) =>
                  mc.(remote := mc.remote[id := mc.remote[id].(stage := Response(lock, isComplete))])
                case CancelSendFunds(id) =>
                  mc.(remote := mc.remote - {id},
                      balance := mc.balance.(remotePendingDebt := mc.balance.remotePendingDebt - Frozen(mc.remote[id])))
                case CollectSendFunds(id, _, _) =>
                  mc.(remote := mc.remote - {id},
                      balance := McBalance(mc.balance.balance + Frozen(mc.remote[id]), mc.balance.localPendingDebt,
                                           mc.balance.remotePendingDebt - Frozen(mc.remote[id])))
  {
    if !op.RequestSendFunds? && op.requestId in mc.remote {
      TotalFrozenRemove(mc.remote, op.requestId);
    }
    var r := QueueOperation(mc, op);
    if r.Ok? {
      match op {
        case RequestSendFunds(_, _, _, _, _, _, _) => ReplayTwo(mc, r.value[0], r.value[1]);
        case ResponseSendFunds(_, _, _, _, _) => ReplayOne(mc, r.value[0]);
        case CancelSendFunds(_) => ReplayTwo(mc, r.value[0], r.value[1]);
        case CollectSendFunds(_, _, _) => ReplayThree(mc, r.value[0], r.value[1], r.value[2]);
      }
    }
  }

  /** What the sender records keeps the credit sound, provided a request fits. */
  lemma QueueKeepsSound(mc: MutualCredit, op: FriendTcOp, remoteMaxDebt: U128)
    requires Sound(mc) && Queued(mc, op).Some? && Fits(mc, op, remoteMaxDebt)
    ensures Sound(Queued(mc, op).value)
  {
    QueueEffect(mc, op);
    match op {
      case RequestSendFunds(id, _, _, _, _, _, _) => TotalFrozenUpdate(mc.local, id, CreatePendingTransaction(op));
      case ResponseSendFunds(id, lock, isComplete, _, _) =>
        TotalFrozenUpdate(mc.remote, id, mc.remote[id].(stage := Response(lock, isComplete)));
        TotalFrozenRemove(mc.remote, id);
      case CancelSendFunds(id) => TotalFrozenRemove(mc.remote, id);
      case CollectSendFunds(id, _, _) => TotalFrozenRemove(mc.remote, id);
    }
  }

  /** The receiver accepts an operation exactly when the sender could queue it and, for a request, the
      receiver's arithmetic takes it; it never panics, and both sides then mirror each other again. */
  lemma ProcessMirrorsQueue(mc: MutualCredit, op: FriendTcOp, remoteMaxDebt: U128)
    requires Sound(mc)
    ensures var r := ProcessOperation(Mirror(mc), op, remoteMaxDebt);
            && (r.Ok? <==> QueueOperation(mc, op).Ok? && Fits(mc, op, remoteMaxDebt))
            && r != Err(Panics)
            && (r.Err? && QueueOperation(mc, op).Ok? ==> r.error == CreditsCalcOverflow)
            && (r.Ok? ==>
                  && Queued(mc, op).Some? && Sound(Queued(mc, op).value)
                  && McMutateAll(Mirror(mc), r.value.mutations) == Some(Mirror(Queued(mc, op).value)))
  {
    QueueEffect(mc, op);
    if !op.RequestSendFunds? && op.requestId in mc.remote {
      TotalFrozenRemove(mc.remote, op.requestId);
    }
    var r := ProcessOperation(Mirror(mc), op, remoteMaxDebt);
    if r.Ok? {
      QueueKeepsSound(mc, op, remoteMaxDebt);
      ProcessEffect(mc, op, remoteMaxDebt);
    }
  }

  lemma RequestEffect(mc: MutualCredit, op: FriendTcOp, remoteMaxDebt: U128)
    requires op.RequestSendFunds? && mc.balance.balance > I128_MIN
    requires ProcessOperation(Mirror(mc), op, remoteMaxDebt).Ok?
    ensures McMutateAll(Mirror(mc), ProcessOperation(Mirror(mc), op, remoteMaxDebt).value.mutations)
         == Some(Mirror(mc.(local := mc.local[op.requestId := CreatePendingTransaction(op)],
                            balance := mc.balance.(localPendingDebt :=
                                         mc.balance.localPendingDebt + op.destPayment + op.leftFees))))
  {
    ReplayTwo(Mirror(mc), InsertRemotePendingTransaction(CreatePendingTransaction(op)),
              SetRemotePendingDebt(mc.balance.localPendingDebt + op.destPayment + op.leftFees));
  }

  lemma ResponseEffect(mc: MutualCredit, op: FriendTcOp, remoteMaxDebt: U128)
    requires op.ResponseSendFunds? && mc.balance.balance > I128_MIN
    requires ProcessOperation(Mirror(mc), op, remoteMaxDebt).Ok?
    ensures McMutateAll(Mirror(mc), ProcessOperation(Mirror(mc), op, remoteMaxDebt).value.mutations)
         == Some(Mirror(mc.(remote := mc.remote[op.requestId :=
                          mc.remote[op.requestId].(stage := Response(op.destHashedLock, op.isComplete))])))
  {
    ReplayOne(Mirror(mc), SetLocalPendingTransactionStage(op.requestId, Response(op.destHashedLock, op.isComplete)));
  }

  lemma CancelEffect(mc: MutualCredit, op: FriendTcOp, remoteMaxDebt: U128)
    requires op.CancelSendFunds? && mc.balance.balance > I128_MIN
    requires ProcessOperation(Mirror(mc), op, remoteMaxDebt).Ok?
    ensures var debt := mc.balance.remotePendingDebt as int - Frozen(mc.remote[op.requestId]);
            && debt >= 0
            && McMutateAll(Mirror(mc), ProcessOperation(Mirror(mc), op, remoteMaxDebt).value.mutations)
            == Some(Mirror(mc.(remote := mc.remote - {op.requestId},
                               balance := mc.balance.(remotePendingDebt := debt))))
  {
    ReplayTwo(Mirror(mc), RemoveLocalPendingTransaction(op.requestId),
              SetLocalPendingDebt(mc.balance.remotePendingDebt - Frozen(mc.remote[op.requestId])));
  }

  lemma CollectEffect(mc: MutualCredit, op: FriendTcOp, remoteMaxDebt: U128)
    requires op.CollectSendFunds? && mc.balance.balance > I128_MIN
    requires ProcessOperation(Mirror(mc), op, remoteMaxDebt).Ok?
    requires mc.balance.balance + Frozen(mc.remote[op.requestId]) <= I128_MAX
    ensures var frozen := Frozen(mc.remote[op.requestId]);
            && mc.balance.remotePendingDebt as int - frozen >= 0
            && McMutateAll(Mirror(mc), ProcessOperation(Mirror(mc), op, remoteMaxDebt).value.mutations)
            == Some(Mirror(mc.(remote := mc.remote - {op.requestId},
                               balance := McBalance(mc.balance.balance + frozen, mc.balance.localPendingDebt,
                                                    mc.balance.remotePendingDebt - frozen))))
  {
    var frozen := Frozen(mc.remote[op.requestId]);
    ReplayThree(Mirror(mc), RemoveLocalPendingTransaction(op.requestId),
                SetLocalPendingDebt(mc.balance.remotePendingDebt - frozen),
                SetBalance(-mc.balance.balance - frozen));
  }

  lemma ProcessEffect(mc: MutualCredit, op: FriendTcOp, remoteMaxDebt: U128)
    requires Sound(mc) && Queued(mc, op).Some? && Sound(Queued(mc, op).value)
    requires ProcessOperation(Mirror(mc), op, remoteMaxDebt).Ok?
    ensures McMutateAll(Mirror(mc), ProcessOperation(Mirror(mc), op, remoteMaxDebt).value.mutations)
         == Some(Mirror(Queued(mc, op).value))
  {
    QueueEffect(mc, op);
    match op {
      case RequestSendFunds(_, _, _, _, _, _, _) => RequestEffect(mc, op, remoteMaxDebt);
      case ResponseSendFunds(_, _, _, _, _) => ResponseEffect(mc, op, remoteMaxDebt);
      case CancelSendFunds(_) => CancelEffect(mc, op, remoteMaxDebt);
      case CollectSendFunds(_, _, _) => CollectEffect(mc, op, remoteMaxDebt);
    }
  }

  // ---------------------------------------------------------------- refusals and messages

  /** What the remote side would owe us if `op` were recorded and everything it sent were collected. */
  function Exposure(mc: MutualCredit, op: FriendTcOp): int
    requires op.RequestSendFunds?
  {
    mc.balance.balance + mc.balance.remotePendingDebt + op.destPayment + op.leftFees
  }

  /** Whether `op`, sent to the side whose credit is `mc`, has the fault that `error` names. */
  ghost predicate Fault(mc: MutualCredit, op: FriendTcOp, remoteMaxDebt: U128, error: OperationError) {
    var id := op.requestId;
    match error
    case InvalidRoute =>
      op.RequestSendFunds? &&
      (|op.route| >= MAX_ROUTE_LEN || exists i, j :: 0 <= i < j < |op.route| && op.route[i] == op.route[j])
    case DestPaymentExceedsTotal => op.RequestSendFunds? && op.destPayment > op.totalDestPayment
    case CreditsCalcOverflow =>
      op.RequestSendFunds? && (Exposure(mc, op) > I128_MAX || Exposure(mc, op) - remoteMaxDebt < I128_MIN)
    case RequestAlreadyExists => op.RequestSendFunds? && id in mc.remote
    case RequestDoesNotExist => !op.RequestSendFunds? && id !in mc.local
    case InvalidResponseSignature =>
      op.ResponseSendFunds? && id in mc.local &&
      var p := mc.local[id];
      !(&& op.signature.signer == (if p.route == [] then mc.remotePublicKey else p.route[|p.route| - 1])
        && op.signature.buffer == ResponseBuffer(p.requestId, op.randNonce, p.srcHashedLock, op.destHashedLock,
             op.isComplete, p.destPayment, p.totalDestPayment, p.invoiceId, mc.currency))
    case NotExpectingResponse => op.ResponseSendFunds? && id in mc.local && mc.local[id].stage.Response?
    case NotExpectingCollect => op.CollectSendFunds? && id in mc.local && mc.local[id].stage.Request?
    case InvalidSrcPlainLock =>
      op.CollectSendFunds? && id in mc.local && mc.local[id].srcHashedLock != HashedLock(op.srcPlainLock)
    case InvalidDestPlainLock =>
      op.CollectSendFunds? && id in mc.local && mc.local[id].stage.Response? &&
      mc.local[id].stage.destHashedLock != HashedLock(op.destPlainLock)
    case Panics => false
  }

  /** A sound credit takes exactly the operations without a fault, and a refusal names a fault that is there. */
  lemma RefusedIffFault(mc: MutualCredit, op: FriendTcOp, remoteMaxDebt: U128)
    requires Sound(mc)
    ensures match ProcessOperation(mc, op, remoteMaxDebt)
            case Ok(_) => forall error :: !Fault(mc, op, remoteMaxDebt, error)
            case Err(error) => Fault(mc, op, remoteMaxDebt, error)
  {
    if !op.RequestSendFunds? && op.requestId in mc.local {
      TotalFrozenRemove(mc.local, op.requestId);
    }
  }

  /** What the sender refuses to queue, it refuses for a fault the receiver would find. */
  lemma QueueRefusesFault(mc: MutualCredit, op: FriendTcOp, remoteMaxDebt: U128)
    requires Sound(mc) && QueueOperation(mc, op).Err?
    ensures Fault(Mirror(mc), op, remoteMaxDebt, QueueOperation(mc, op).error)
  {
    QueueEffect(mc, op);
  }

  /** What the receiver has to tell about `op`, which took its credit from `mc` to `after`: a request is passed on only
      within the limit on the remote debt, and everything else comes with the transaction it is about. */
  predicate Tells(mc: MutualCredit, op: FriendTcOp, remoteMaxDebt: U128, message: IncomingMessage,
                  after: MutualCredit)
  {
    match message
    case IncomingRequest(told) =>
      told == op && op.RequestSendFunds? && after.balance.balance + after.balance.remotePendingDebt <= remoteMaxDebt
    case IncomingRequestCancel(told) =>
      told == op && op.RequestSendFunds? && after.balance.balance + after.balance.remotePendingDebt > remoteMaxDebt
    case IncomingResponse(p, told) =>
      told == op && op.ResponseSendFunds? && op.requestId in mc.local && p == mc.local[op.requestId]
    case IncomingCancel(p, told) =>
      told == op && op.CancelSendFunds? && op.requestId in mc.local && p == mc.local[op.requestId]
    case IncomingCollect(p, told) =>
      told == op && op.CollectSendFunds? && op.requestId in mc.local && p == mc.local[op.requestId]
  }

  /** An accepted request is cancelled exactly if it would let the remote side owe us more than its limit. */
  lemma AcceptedTells(mc: MutualCredit, op: FriendTcOp, remoteMaxDebt: U128)
    requires ProcessOperation(mc, op, remoteMaxDebt).Ok?
    ensures var output := ProcessOperation(mc, op, remoteMaxDebt).value;
            && (op.RequestSendFunds? ==>
                  output.incomingMessage
                  == if Exposure(mc, op) > remoteMaxDebt then IncomingRequestCancel(op) else IncomingRequest(op))
            && McMutateAll(mc, output.mutations).Some?
            && Tells(mc, op, remoteMaxDebt, output.incomingMessage, McMutateAll(mc, output.mutations).value)
  {
    var ms := ProcessOperation(mc, op, remoteMaxDebt).value.mutations;
    match op {
      case RequestSendFunds(_, _, _, _, _, _, _) => ReplayTwo(mc, ms[0], ms[1]);
      case ResponseSendFunds(_, _, _, _, _) => ReplayOne(mc, ms[0]);
      case CancelSendFunds(_) => ReplayTwo(mc, ms[0], ms[1]);
      case CollectSendFunds(_, _, _) => ReplayThree(mc, ms[0], ms[1], ms[2]);
    }
  }

  // ---------------------------------------------------------------- lists of operations

  /** The sender's credit after it queued all of `ops`; `None` if one of them is refused. */
  function QueueAll(mc: MutualCredit, ops: seq<FriendTcOp>): Option<MutualCredit>
    decreases |ops|
  {
    if ops == [] then Some(mc) else
    match Queued(mc, ops[0])
    case None => None
    case Some(mc') => QueueAll(mc', ops[1..])
  }

  /** The receiver's credit after it processed all of `ops`, and what it has to tell. */
  function ProcessAll(mc: MutualCredit, ops: seq<FriendTcOp>, remoteMaxDebt: U128)
    : Result<(MutualCredit, seq<IncomingMessage>), OperationError>
    decreases |ops|
  {
    if ops == [] then Ok((mc, [])) else
    match ProcessOperation(mc, ops[0], remoteMaxDebt)
    case Err(error) => Err(error)
    case Ok(output) =>
      match McMutateAll(mc, output.mutations)
      case None => Err(Panics)
      case Some(mc') =>
        match ProcessAll(mc', ops[1..], remoteMaxDebt)
        case Err(error) => Err(error)
        case Ok((mc'', messages)) => Ok((mc'', [output.incomingMessage] + messages))
  }

  /** Every request among `ops` passes the receiver's arithmetic; seen from the sender. */
  predicate FitsAll(mc: MutualCredit, ops: seq<FriendTcOp>, remoteMaxDebt: U128)
    decreases |ops|
  {
    ops != [] ==>
      && Fits(mc, ops[0], remoteMaxDebt)
      && (Queued(mc, ops[0]).Some? ==> FitsAll(Queued(mc, ops[0]).value, ops[1..], remoteMaxDebt))
  }

  /** Any list is accepted exactly when the sender could queue it and all its requests fit, and none panics. */
  lemma {:induction false} ProcessAllMirrorsQueueAll(mc: MutualCredit, ops: seq<FriendTcOp>, remoteMaxDebt: U128)
    requires Sound(mc)
    ensures var r := ProcessAll(Mirror(mc), ops, remoteMaxDebt);
            && (r.Ok? <==> QueueAll(mc, ops).Some? && FitsAll(mc, ops, remoteMaxDebt))
            && r != Err(Panics)
            && (r.Err? && QueueAll(mc, ops).Some? ==> r.error == CreditsCalcOverflow)
            && (r.Ok? ==> Sound(QueueAll(mc, ops).value) && r.value.0 == Mirror(QueueAll(mc, ops).value))
    decreases |ops|
  {
    if ops != [] {
      QueueEffect(mc, ops[0]);
      ProcessMirrorsQueue(mc, ops[0], remoteMaxDebt);
      if Queued(mc, ops[0]).Some? && Fits(mc, ops[0], remoteMaxDebt) {
        ProcessAllMirrorsQueueAll(Queued(mc, ops[0]).value, ops[1..], remoteMaxDebt);
      }
    }
  }

  /** The `k`-th message tells about the `k`-th operation. */
  predicate TellsAt(mc: MutualCredit, ops: seq<FriendTcOp>, remoteMaxDebt: U128, messages: seq<IncomingMessage>, k: nat)
    requires k < |ops| == |messages|
  {
    var before, after := ProcessAll(mc, ops[..k], remoteMaxDebt), ProcessAll(mc, ops[..k + 1], remoteMaxDebt);
    before.Ok? && after.Ok? && Tells(before.value.0, ops[k], remoteMaxDebt, messages[k], after.value.0)
  }

  /** In an accepted list every operation is told about, in order: right after each request that is passed on, what the
      remote side owes and has frozen is within its limit. */
  lemma {:induction false} ListTells(mc: MutualCredit, ops: seq<FriendTcOp>, remoteMaxDebt: U128, k: nat)
    requires ProcessAll(mc, ops, remoteMaxDebt).Ok? && k < |ops|
    ensures |ProcessAll(mc, ops, remoteMaxDebt).value.1| == |ops|
    ensures TellsAt(mc, ops, remoteMaxDebt, ProcessAll(mc, ops, remoteMaxDebt).value.1, k)
    decreases |ops|
  {
    AcceptedTells(mc, ops[0], remoteMaxDebt);
    var mc' := McMutateAll(mc, ProcessOperation(mc, ops[0], remoteMaxDebt).value.mutations).value;
    assert ops[..k + 1][1..] == ops[1..][..k];
    if |ops| > 1 {
      ListTells(mc', ops[1..], remoteMaxDebt, if k > 0 then k - 1 else 0);
    }
    if k > 0 {
      assert ops[..k][1..] == ops[1..][..k - 1];
    }
  }

  lemma {:induction false} ProcessAllLength(mc: MutualCredit, ops: seq<FriendTcOp>, remoteMaxDebt: U128)
    requires ProcessAll(mc, ops, remoteMaxDebt).Ok?
    ensures |ProcessAll(mc, ops, remoteMaxDebt).value.1| == |ops|
  {
    if ops != [] {
      ListTells(mc, ops, remoteMaxDebt, 0);
    }
  }

  /** Neither list of operations ever renames a credit. */
  lemma {:induction false} QueueAllKeepsIdents(mc: MutualCredit, ops: seq<FriendTcOp>)
    requires QueueAll(mc, ops).Some?
    ensures var mc' := QueueAll(mc, ops).value;
            && mc'.localPublicKey == mc.localPublicKey && mc'.remotePublicKey == mc.remotePublicKey
            && mc'.currency == mc.currency
    decreases |ops|
  {
    if ops != [] {
      MutateAllKeepsIdents(mc, QueueOperation(mc, ops[0]).value);
      QueueAllKeepsIdents(Queued(mc, ops[0]).value, ops[1..]);
    }
  }

  lemma {:induction false} MutateAllKeepsIdents(mc: MutualCredit, ms: seq<McMutation>)
    requires McMutateAll(mc, ms).Some?
    ensures var mc' := McMutateAll(mc, ms).value;
            && mc'.localPublicKey == mc.localPublicKey && mc'.remotePublicKey == mc.remotePublicKey
            && mc'.currency == mc.currency
    decreases |ms|
  {
    if ms != [] {
      MutateAllKeepsIdents(McMutate(mc, ms[0]).value, ms[1..]);
    }
  }
}

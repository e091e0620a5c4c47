/** Two secure channel endpoints over two reliable FIFO channels.

    The runs interleave user sends, timer ticks and deliveries in any order, so either side may start
    a rekey at any moment, both may start one together, and messages of the old epoch stay in flight
    while the next epoch is already in use. */
module ScProtocol {
  import opened Wrappers
  import opened SymEncrypt
  import opened Dh
  import opened ScState

  /** One side of the channel.
      `outbox` holds its messages in flight. The rest is history: `log` is everything it ever wrote,
      `got` what its user received, and `materials` what it contributed to each epoch. */
  datatype Node = Node(
    ep: Endpoint,
    ticks: nat,
    outbox: seq<EncryptedData>,
    log: seq<EncryptedData>,
    got: seq<PlainData>,
    materials: seq<DhMaterial>)

  datatype System = System(x: Node, y: Node)

  datatype Side = X | Y

  datatype Action =
    | SendUser(data: PlainData)
    | Tick
    | Deliver

  function Swap(s: System): System {
    System(s.y, s.x)
  }

  // ---------------------------------------------------------------- runs

  function NewNode(ep: Endpoint, ticks: nat, material: DhMaterial): Node {
    Node(ep, ticks, [], [], [], [material])
  }

  /** One side of a handshake: its identity, whom it insists on, and what its generator draws. */
  datatype Party = Party(publicKey: PublicKey, want: Option<PublicKey>, nonce: RandValue, material: DhMaterial)

  /** The handshake between honest parties over a faithful network. */
  function Handshake(p: Party, q: Party): Result<(Endpoint, Endpoint), ScStateError> {
    var (initP, helloP) := NewInitial(p.publicKey, p.want, p.nonce);
    var (initQ, helloQ) := NewInitial(q.publicKey, q.want, q.nonce);
    match (HandleExchangeRandNonce(initP, helloQ, p.material), HandleExchangeRandNonce(initQ, helloP, q.material))
    case (Err(error), _) => Err(error)
    case (_, Err(error)) => Err(error)
    case (Ok((halfP, dhP)), Ok((halfQ, dhQ))) =>
      match (HandleExchangeDh(halfP, dhQ), HandleExchangeDh(halfQ, dhP))
      case (Err(error), _) => Err(error)
      case (_, Err(error)) => Err(error)
      case (Ok(ep), Ok(eq)) => Ok((ep, eq))
  }

  /** Just after a completed handshake, with nothing sent yet. */
  predicate InitFrom(s: System, ticksToRekey: nat, p: Party, q: Party) {
    && Handshake(p, q).Ok?
    && p.material.exponent != q.material.exponent
    && var (ep, eq) := Handshake(p, q).value;
       s == System(NewNode(ep, ticksToRekey, p.material), NewNode(eq, ticksToRekey, q.material))
  }

  ghost predicate Init(s: System, ticksToRekey: nat) {
    exists p, q :: InitFrom(s, ticksToRekey, p, q)
  }

  /** The materials drawn by the generator never repeat an exponent. */
  predicate Fresh(s: System, draw: DhMaterial) {
    forall m <- s.x.materials + s.y.materials :: m.exponent != draw.exponent
  }

  predicate Enabled(s: System, action: Action) {
    action.Deliver? ==> s.y.outbox != []
  }

  /** An action of node X: its loop handles one event, and what it writes goes onto its channel.
      `materials` grows exactly when the step used the draw. */
  function StepX(s: System, ticksToRekey: nat, action: Action, draw: DhMaterial): Result<System, ScStateError>
    requires Enabled(s, action)
  {
    var event := match action
      case SendUser(data) => User(data)
      case Tick => TimerTick
      case Deliver => Reader(s.y.outbox[0]);
    match HandleEvent(Loop(s.x.ep, s.x.ticks, [], []), ticksToRekey, event, draw)
    case Err(error) => Err(error)
    case Ok(l) =>
      var drew := l.toRemote != [] && l.toRemote[0].box.Sealed? && l.toRemote[0].box.plain.RekeyContent?;
      var x := Node(l.state, l.ticks, s.x.outbox + l.toRemote, s.x.log + l.toRemote, s.x.got + l.toUser,
                    if drew then s.x.materials + [draw] else s.x.materials);
      Ok(System(x, if action.Deliver? then s.y.(outbox := s.y.outbox[1..]) else s.y))
  }

  function Step(s: System, ticksToRekey: nat, side: Side, action: Action, draw: DhMaterial)
    : Result<System, ScStateError>
    requires Enabled(if side.X? then s else Swap(s), action)
  {
    if side.X? then StepX(s, ticksToRekey, action, draw)
    else match StepX(Swap(s), ticksToRekey, action, draw)
      case Err(error) => Err(error)
      case Ok(s') => Ok(Swap(s'))
  }

  /** Who acts, how, and what the generator would draw for it. */
  datatype Label = Label(side: Side, action: Action, draw: DhMaterial)

  predicate Allowed(s: System, l: Label) {
    Enabled(if l.side.X? then s else Swap(s), l.action) && Fresh(s, l.draw)
  }

  predicate StepsTo(s: System, ticksToRekey: nat, l: Label, s': System) {
    Allowed(s, l) && Step(s, ticksToRekey, l.side, l.action, l.draw) == Ok(s')
  }

  ghost predicate IsRun(run: seq<System>, labels: seq<Label>, ticksToRekey: nat) {
    && |run| == |labels| + 1
    && Init(run[0], ticksToRekey)
    && forall i :: 0 <= i < |labels| ==> StepsTo(run[i], ticksToRekey, labels[i], run[i + 1])
  }

  /** What the user of `side` asked to send, in order. */
  function SentBy(labels: seq<Label>, side: Side): seq<PlainData> {
    if labels == [] then [] else
    var last := labels[|labels| - 1];
    SentBy(labels[..|labels| - 1], side)
    + if last.side == side && last.action.SendUser? then [last.action.data] else []
  }

  // ---------------------------------------------------------------- the invariant

  function Pending(n: Node): nat {
    if n.ep.pendingRekey.Some? then 1 else 0
  }

  /** How many times the node has moved to new keys. */
  function Epoch(n: Node): int {
    |n.materials| - 1 - Pending(n)
  }

  /** The key of epoch `i` on the channel written by the owner of `from`. */
  function EpochKey(from: seq<DhMaterial>, to: seq<DhMaterial>, i: nat): SymmetricKey
    requires i < |from| && i < |to|
  {
    StreamKey(from[i], to[i])
  }

  /** Where a receiver stands in the incoming stream: its epoch, the nonce it expects in it, and the
      nonce it expects in the epoch before while the old receiver is kept. */
  datatype Position = Position(epoch: nat, nonce: nat, oldNonce: Option<nat>)

  function PositionOf(n: Node): Position
    requires Epoch(n) >= 0
  {
    Position(Epoch(n), n.ep.receiver.nonce,
             if n.ep.oldReceiver.Some? then Some(n.ep.oldReceiver.value.nonce) else None)
  }

  /** Consuming one message from position `p` of the channel written by the owner of `from`. */
  function Consume(p: Position, msg: EncryptedData, from: seq<DhMaterial>, to: seq<DhMaterial>): Option<Position> {
    if !msg.box.Sealed? then None
    else if && p.oldNonce.Some? && 0 < p.epoch <= |from| && p.epoch <= |to|
            && msg == Seal(Cipher(EpochKey(from, to, p.epoch - 1), p.oldNonce.value), msg.box.plain) then
      if msg.box.plain.UserContent? then Some(p.(oldNonce := Some(SuccNonce(p.oldNonce.value)))) else None
    else if && p.epoch < |from| && p.epoch < |to|
            && msg == Seal(Cipher(EpochKey(from, to, p.epoch), p.nonce), msg.box.plain) then
      match msg.box.plain
      case UserContent(_) => Some(Position(p.epoch, SuccNonce(p.nonce), None))
      case RekeyContent(rekey) =>
        if p.epoch + 1 < |from| && rekey == RekeyOf(from[p.epoch + 1])
        then Some(Position(p.epoch + 1, 0, Some(SuccNonce(p.nonce))))
        else None
    else None
  }

  /** Consuming a whole channel. */
  function Drain(p: Position, q: seq<EncryptedData>, from: seq<DhMaterial>, to: seq<DhMaterial>): Option<Position>
    decreases |q|
  {
    if q == [] then Some(p) else
    match Consume(p, q[0], from, to)
    case None => None
    case Some(p') => Drain(p', q[1..], from, to)
  }

  /** `p` is the position at which the sender's next message will be consumed. */
  predicate AtSender(p: Position, s: Node)
    requires s.materials != []
  {
    if s.ep.pendingRekey.Some?
    then p == Position(|s.materials| - 1, 0, Some(s.ep.sender.nonce))
    else p.epoch == Epoch(s) && p.nonce == s.ep.sender.nonce
  }

  function Users(q: seq<EncryptedData>): seq<PlainData>
    decreases |q|
  {
    if q == [] then []
    else if q[0].box.Sealed? && q[0].box.plain.UserContent? then [q[0].box.plain.data] + Users(q[1..])
    else Users(q[1..])
  }

  function Rekeys(q: seq<EncryptedData>): seq<EncryptedData>
    decreases |q|
  {
    if q == [] then []
    else if q[0].box.Sealed? && q[0].box.plain.RekeyContent? then [q[0]] + Rekeys(q[1..])
    else Rekeys(q[1..])
  }

  predicate DistinctExponents(ms: seq<DhMaterial>) {
    forall i, j :: 0 <= i < j < |ms| ==> ms[i].exponent != ms[j].exponent
  }

  predicate DisjointExponents(ms: seq<DhMaterial>, ns: seq<DhMaterial>) {
    forall m <- ms, n <- ns :: m.exponent != n.exponent
  }

  /** The channel written by `s` and read by `r` is in order. */
  predicate InOrder(s: Node, r: Node) {
    && 0 <= Epoch(s) < |r.materials| && 0 <= Epoch(r) < |s.materials|
    && s.ep.sender.key == EpochKey(s.materials, r.materials, Epoch(s))
    && r.ep.receiver.key == EpochKey(s.materials, r.materials, Epoch(r))
    && (r.ep.oldReceiver.Some? ==>
          && Epoch(r) > 0
          && r.ep.oldReceiver.value.key == EpochKey(s.materials, r.materials, Epoch(r) - 1))
    && (s.ep.pendingRekey.Some? ==> s.ep.pendingRekey.value == s.materials[|s.materials| - 1])
    && var end := Drain(PositionOf(r), s.outbox, s.materials, r.materials);
       end.Some? && AtSender(end.value, s)
  }

  /** What the history of `s` says about its channel: users get what was sent, and the i-th rekey it
      sent is sealed in epoch `i` and carries the material of epoch `i + 1`. */
  predicate Accounted(s: Node, r: Node) {
    && r.got + Users(s.outbox) == Users(s.log)
    && |Rekeys(s.log)| == |s.materials| - 1
    && (forall i :: 0 <= i < |Rekeys(s.log)| ==> RekeyOfEpoch(Rekeys(s.log)[i], i, s.materials, r.materials))
  }

  predicate RekeyOfEpoch(msg: EncryptedData, i: nat, from: seq<DhMaterial>, to: seq<DhMaterial>) {
    && i + 1 < |from| && i < |to| && msg.box.Sealed?
    && msg.box.key == EpochKey(from, to, i)
    && msg.box.plain == RekeyContent(RekeyOf(from[i + 1]))
  }

  predicate Inv(s: System) {
    && DistinctExponents(s.x.materials) && DistinctExponents(s.y.materials)
    && DisjointExponents(s.x.materials, s.y.materials)
    && InOrder(s.x, s.y) && InOrder(s.y, s.x)
    && Accounted(s.x, s.y) && Accounted(s.y, s.x)
  }

  // ---------------------------------------------------------------- facts about draining

  lemma {:induction false} DrainAppend(p: Position, q: seq<EncryptedData>, m: EncryptedData,
                                       from: seq<DhMaterial>, to: seq<DhMaterial>)
    ensures var end := Drain(p, q, from, to);
            Drain(p, q + [m], from, to) == if end.Some? then Consume(end.value, m, from, to) else None
    decreases |q|
  {
    if q == [] {
      assert q + [m] == [m];
    } else {
      assert (q + [m])[1..] == q[1..] + [m];
      var next := Consume(p, q[0], from, to);
      if next.Some? {
        DrainAppend(next.value, q[1..], m, from, to);
      }
    }
  }

  /** More materials do not change what was already understood. */
  lemma {:induction false} DrainExtend(p: Position, q: seq<EncryptedData>, from: seq<DhMaterial>, to: seq<DhMaterial>,
                                       from': seq<DhMaterial>, to': seq<DhMaterial>)
    requires from <= from' && to <= to'
    requires Drain(p, q, from, to).Some?
    ensures Drain(p, q, from', to') == Drain(p, q, from, to)
    decreases |q|
  {
    if q != [] {
      var next := Consume(p, q[0], from, to);
      assert Consume(p, q[0], from', to') == next;
      DrainExtend(next.value, q[1..], from, to, from', to');
    }
  }

  lemma {:induction false} DrainAdvances(p: Position, q: seq<EncryptedData>, from: seq<DhMaterial>, to: seq<DhMaterial>)
    requires Drain(p, q, from, to).Some?
    ensures Drain(p, q, from, to).value.epoch >= p.epoch
    decreases |q|
  {
    if q != [] {
      DrainAdvances(Consume(p, q[0], from, to).value, q[1..], from, to);
    }
  }

  lemma {:induction false} UsersConcat(a: seq<EncryptedData>, b: seq<EncryptedData>)
    ensures Users(a + b) == Users(a) + Users(b)
    decreases |a|
  {
    if a == [] {
      assert a + b == b;
    } else {
      assert (a + b)[1..] == a[1..] + b;
      UsersConcat(a[1..], b);
    }
  }

  lemma {:induction false} RekeysConcat(a: seq<EncryptedData>, b: seq<EncryptedData>)
    ensures Rekeys(a + b) == Rekeys(a) + Rekeys(b)
    decreases |a|
  {
    if a == [] {
      assert a + b == b;
    } else {
      assert (a + b)[1..] == a[1..] + b;
      RekeysConcat(a[1..], b);
    }
  }

  lemma EpochKeysDiffer(from: seq<DhMaterial>, to: seq<DhMaterial>, i: nat)
    requires 0 < i < |from| && i < |to|
    requires DistinctExponents(from) && DisjointExponents(from, to)
    ensures EpochKey(from, to, i - 1) != EpochKey(from, to, i)
  {
    KeysAgree(from[i - 1], to[i - 1]);
    assert from[i].exponent in {from[i].exponent, to[i].exponent};
  }

  // ---------------------------------------------------------------- writing

  predicate Separated(s: Node, r: Node) {
    DistinctExponents(s.materials) && DisjointExponents(s.materials, r.materials)
  }

  /** A user message written by `s` is consumed where the stream ends. */
  lemma WriteUser(s: Node, r: Node, data: PlainData)
    requires Separated(s, r) && InOrder(s, r)
    ensures var (ep, msg) := EncryptOutgoing(s.ep, UserContent(data));
            InOrder(s.(ep := ep, outbox := s.outbox + [msg]), r)
  {
    var (ep, msg) := EncryptOutgoing(s.ep, UserContent(data));
    var end := Drain(PositionOf(r), s.outbox, s.materials, r.materials).value;
    DrainAppend(PositionOf(r), s.outbox, msg, s.materials, r.materials);
    if s.ep.pendingRekey.None? && Epoch(s) > 0 {
      EpochKeysDiffer(s.materials, r.materials, Epoch(s));
    }
  }

  /** A rekey written by `s` ends its epoch: the stream then continues at the start of the next one. */
  lemma WriteRekey(s: Node, r: Node, draw: DhMaterial)
    requires Separated(s, r) && InOrder(s, r) && s.ep.pendingRekey.None?
    ensures var msg := Seal(s.ep.sender, RekeyContent(RekeyOf(draw)));
            Drain(PositionOf(r), s.outbox + [msg], s.materials + [draw], r.materials)
            == Some(Position(Epoch(s) + 1, 0, Some(SuccNonce(s.ep.sender.nonce))))
  {
    var msg := Seal(s.ep.sender, RekeyContent(RekeyOf(draw)));
    var from, to := s.materials + [draw], r.materials;
    DrainExtend(PositionOf(r), s.outbox, s.materials, to, from, to);
    DrainAppend(PositionOf(r), s.outbox, msg, from, to);
    if Epoch(s) > 0 {
      EpochKeysDiffer(s.materials, to, Epoch(s));
    }
  }

  /** The reader's side of a channel does not depend on what the reader writes or draws. */
  lemma ReaderExtends(s: Node, r: Node, r': Node)
    requires InOrder(s, r)
    requires r.materials <= r'.materials && Epoch(r) == Epoch(r')
    requires r.ep.receiver == r'.ep.receiver && r.ep.oldReceiver == r'.ep.oldReceiver
    ensures InOrder(s, r')
  {
    DrainExtend(PositionOf(r), s.outbox, s.materials, r.materials, s.materials, r'.materials);
  }

  // ---------------------------------------------------------------- reading

  /** The message at the head of a channel that is in order decrypts, and moves the reader exactly as
      the stream predicts. */
  lemma ReadHead(s: Node, r: Node)
    requires Separated(s, r) && InOrder(s, r) && s.outbox != []
    ensures TryDecrypt(r.ep, s.outbox[0]).Some?
    ensures var (ep, content) := TryDecrypt(r.ep, s.outbox[0]).value;
            var next := Consume(PositionOf(r), s.outbox[0], s.materials, r.materials);
            && next.Some? && s.outbox[0].box.Sealed? && content == s.outbox[0].box.plain
            && ep.sender == r.ep.sender && ep.pendingRekey == r.ep.pendingRekey
            && Drain(next.value, s.outbox[1..], s.materials, r.materials)
               == Drain(PositionOf(r), s.outbox, s.materials, r.materials)
            && match content
               case UserContent(_) =>
                 && PositionOf(r.(ep := ep)) == next.value
                 && ep.receiver.key == r.ep.receiver.key
                 && (ep.oldReceiver.Some? ==>
                       r.ep.oldReceiver.Some? && ep.oldReceiver.value.key == r.ep.oldReceiver.value.key)
               case RekeyContent(rekey) =>
                 && Epoch(r) + 1 < |s.materials|
                 && rekey == RekeyOf(s.materials[Epoch(r) + 1])
                 && ep.receiver == Advance(r.ep.receiver)
                 && next.value == Position(Epoch(r) + 1, 0, Some(ep.receiver.nonce))
  {
    if Epoch(r) > 0 {
      EpochKeysDiffer(s.materials, r.materials, Epoch(r));
    }
  }

  lemma ReadHeadRekey(s: Node, r: Node)
    requires Separated(s, r) && InOrder(s, r) && s.outbox != []
    requires s.outbox[0].box.Sealed? && s.outbox[0].box.plain.RekeyContent?
    ensures TryDecrypt(r.ep, s.outbox[0]).Some? && Epoch(r) + 1 < |s.materials|
    ensures s.outbox[0].box.plain.rekey == RekeyOf(s.materials[Epoch(r) + 1])
    ensures var ep := TryDecrypt(r.ep, s.outbox[0]).value.0;
            && ep.receiver == Advance(r.ep.receiver)
            && ep.sender == r.ep.sender && ep.pendingRekey == r.ep.pendingRekey
  {
    ReadHead(s, r);
  }

  /** What a channel's order depends on. */
  lemma InOrderFrame(s: Node, r: Node, s': Node, r': Node)
    requires InOrder(s, r)
    requires s'.outbox == s.outbox && s'.materials == s.materials
    requires s'.ep.sender == s.ep.sender && s'.ep.pendingRekey == s.ep.pendingRekey
    requires r'.materials == r.materials && r'.ep.pendingRekey == r.ep.pendingRekey
    requires r'.ep.receiver == r.ep.receiver && r'.ep.oldReceiver == r.ep.oldReceiver
    ensures InOrder(s', r')
  {
    assert PositionOf(r') == PositionOf(r);
  }

  lemma ReadUserInOrder(s: Node, r: Node)
    requires Separated(s, r) && InOrder(s, r) && s.outbox != []
    requires s.outbox[0].box.Sealed? && s.outbox[0].box.plain.UserContent?
    ensures TryDecrypt(r.ep, s.outbox[0]).Some?
    ensures InOrder(s.(outbox := s.outbox[1..]), r.(ep := TryDecrypt(r.ep, s.outbox[0]).value.0))
  {
    ReadHead(s, r);
  }

  /** Reading a user message. */
  lemma ReadUser(s: Node, r: Node)
    requires Separated(s, r) && InOrder(s, r) && InOrder(r, s) && s.outbox != []
    requires s.outbox[0].box.Sealed? && s.outbox[0].box.plain.UserContent?
    ensures TryDecrypt(r.ep, s.outbox[0]).Some?
    ensures var r' := r.(ep := TryDecrypt(r.ep, s.outbox[0]).value.0);
            var s' := s.(outbox := s.outbox[1..]);
            InOrder(s', r') && InOrder(r', s')
  {
    ReadUserInOrder(s, r);
    var r' := r.(ep := TryDecrypt(r.ep, s.outbox[0]).value.0);
    InOrderFrame(r, s, r', s.(outbox := s.outbox[1..]));
  }

  /** Reading a rekey: the reader `r` becomes `r'`, one epoch further with the keys of that epoch. The
      channel the rekey came from stays in order. */
  lemma ReadRekey(s: Node, r: Node, r': Node)
    requires Separated(s, r) && InOrder(s, r) && s.outbox != []
    requires s.outbox[0].box.Sealed? && s.outbox[0].box.plain.RekeyContent?
    requires r.materials <= r'.materials && Epoch(r') == Epoch(r) + 1
    requires Epoch(r') < |s.materials| ==> r'.ep.receiver == NewCipher(EpochKey(s.materials, r'.materials, Epoch(r')))
    requires r'.ep.oldReceiver == Some(Advance(r.ep.receiver))
    ensures InOrder(s.(outbox := s.outbox[1..]), r')
  {
    ReadHead(s, r);
    DrainExtend(PositionOf(r'), s.outbox[1..], s.materials, r.materials, s.materials, r'.materials);
  }

  /** The reader's own channel stays in order, whether or not it had started a rekey of its own: with
      one it only changes keys, without one it writes its rekey first. */
  lemma AnswerRekey(s: Node, r: Node, r': Node, draw: DhMaterial)
    requires Separated(r, s) && InOrder(r, s) && Epoch(r) + 1 < |s.materials|
    requires r'.ep.pendingRekey == None && Epoch(r') == Epoch(r) + 1
    requires r'.ep.sender == NewCipher(EpochKey(r'.materials, s.materials, Epoch(r')))
    requires if r.ep.pendingRekey.Some? then r'.outbox == r.outbox && r'.materials == r.materials
             else && r'.outbox == r.outbox + [Seal(r.ep.sender, RekeyContent(RekeyOf(draw)))]
                  && r'.materials == r.materials + [draw]
    ensures InOrder(r', s)
  {
    if r.ep.pendingRekey.None? {
      WriteRekey(r, s, draw);
    }
  }

  // ---------------------------------------------------------------- accounting

  lemma AccountUser(s: Node, r: Node, s': Node, r': Node, msg: EncryptedData)
    requires Accounted(s, r)
    requires msg.box.Sealed? && msg.box.plain.UserContent?
    requires s'.outbox == s.outbox + [msg] && s'.log == s.log + [msg] && s'.materials == s.materials
    requires r'.got == r.got && r'.materials == r.materials
    ensures Accounted(s', r')
  {
    UsersConcat(s.outbox, [msg]);
    UsersConcat(s.log, [msg]);
    RekeysConcat(s.log, [msg]);
  }

  lemma AccountRekey(s: Node, r: Node, s': Node, r': Node, draw: DhMaterial)
    requires Accounted(s, r) && InOrder(s, r) && s.ep.pendingRekey.None?
    requires var msg := Seal(s.ep.sender, RekeyContent(RekeyOf(draw)));
             s'.outbox == s.outbox + [msg] && s'.log == s.log + [msg] && s'.materials == s.materials + [draw]
    requires r'.got == r.got && r'.materials == r.materials
    ensures Accounted(s', r')
  {
    var msg := Seal(s.ep.sender, RekeyContent(RekeyOf(draw)));
    UsersConcat(s.outbox, [msg]);
    UsersConcat(s.log, [msg]);
    RekeysConcat(s.log, [msg]);
    assert Rekeys([msg]) == [msg];
  }

  lemma AccountRead(s: Node, r: Node, s': Node, r': Node)
    requires Accounted(s, r) && s.outbox != [] && s.outbox[0].box.Sealed?
    requires s' == s.(outbox := s.outbox[1..]) && r.materials <= r'.materials
    requires r'.got == r.got + (match s.outbox[0].box.plain case UserContent(data) => [data] case RekeyContent(_) => [])
    ensures Accounted(s', r')
  {
    AccountReader(s, r, r.(materials := r'.materials));
  }

  lemma AccountReader(s: Node, r: Node, r': Node)
    requires Accounted(s, r) && r.materials <= r'.materials && r'.got == r.got
    ensures Accounted(s, r')
  {
    forall i | 0 <= i < |Rekeys(s.log)|
      ensures RekeyOfEpoch(Rekeys(s.log)[i], i, s.materials, r'.materials)
    {
      assert RekeyOfEpoch(Rekeys(s.log)[i], i, s.materials, r.materials);
    }
  }

  // ---------------------------------------------------------------- every step keeps the invariant

  lemma SeparatedExtends(s: Node, r: Node, draw: DhMaterial)
    requires Separated(s, r) && forall m <- s.materials + r.materials :: m.exponent != draw.exponent
    ensures Separated(s.(materials := s.materials + [draw]), r)
  {
    forall m <- s.materials ensures m.exponent != draw.exponent {
      assert m in s.materials + r.materials;
    }
    forall m <- r.materials ensures m.exponent != draw.exponent {
      assert m in s.materials + r.materials;
    }
  }

  lemma SendKeepsInv(s: System, ticksToRekey: nat, data: PlainData, draw: DhMaterial)
    requires Inv(s)
    ensures var s' := StepX(s, ticksToRekey, SendUser(data), draw);
            s'.Ok? && Inv(s'.value)
  {
    var s' := StepX(s, ticksToRekey, SendUser(data), draw).value;
    var msg := Seal(s.x.ep.sender, UserContent(data));
    assert [] + [msg] == [msg];
    assert s'.x.got == s.x.got;
    WriteUser(s.x, s.y, data);
    InOrderFrame(s.x.(ep := s'.x.ep, outbox := s'.x.outbox), s.y, s'.x, s'.y);
    InOrderFrame(s.y, s.x, s'.y, s'.x);
    AccountUser(s.x, s.y, s'.x, s'.y, msg);
  }

  lemma StartRekeyKeepsInv(s: System, x: Node, draw: DhMaterial)
    requires Inv(s) && Fresh(s, draw) && s.x.ep.pendingRekey.None?
    requires var (ep, msg) := CreateRekey(s.x.ep, draw).value;
             x == Node(ep, x.ticks, s.x.outbox + [msg], s.x.log + [msg], s.x.got, s.x.materials + [draw])
    ensures Inv(System(x, s.y))
  {
    SeparatedExtends(s.x, s.y, draw);
    WriteRekey(s.x, s.y, draw);
    ReaderExtends(s.y, s.x, x);
    AccountRekey(s.x, s.y, x, s.y, draw);
    AccountReader(s.y, s.x, x);
  }

  lemma TickKeepsInv(s: System, ticksToRekey: nat, draw: DhMaterial)
    requires Inv(s) && Fresh(s, draw)
    ensures var s' := StepX(s, ticksToRekey, Tick, draw);
            s'.Ok? && Inv(s'.value)
  {
    TickSteps(s, ticksToRekey, draw);
    var s' := StepX(s, ticksToRekey, Tick, draw).value;
    if s.x.ticks > 0 || s.x.ep.pendingRekey.Some? {
      WaitKeepsInv(s, s'.x);
    } else {
      StartRekeyKeepsInv(s, s'.x, draw);
    }
  }

  lemma WaitKeepsInv(s: System, x: Node)
    requires Inv(s) && x == s.x.(ticks := x.ticks)
    ensures Inv(System(x, s.y))
  {
    InOrderFrame(s.x, s.y, x, s.y);
    InOrderFrame(s.y, s.x, s.y, x);
  }

  /** What a tick does: nothing but count, or write a rekey. */
  lemma TickSteps(s: System, ticksToRekey: nat, draw: DhMaterial)
    ensures var s' := StepX(s, ticksToRekey, Tick, draw);
            && s'.Ok? && s'.value.y == s.y
            && var x := s'.value.x;
               if s.x.ticks > 0 || s.x.ep.pendingRekey.Some? then x == s.x.(ticks := x.ticks)
               else
                 var (ep, msg) := CreateRekey(s.x.ep, draw).value;
                 x == Node(ep, x.ticks, s.x.outbox + [msg], s.x.log + [msg], s.x.got, s.x.materials + [draw])
  {
    assert s.x.got + [] == s.x.got && s.x.outbox + [] == s.x.outbox && s.x.log + [] == s.x.log;
    if !(s.x.ticks > 0 || s.x.ep.pendingRekey.Some?) {
      var msg := CreateRekey(s.x.ep, draw).value.1;
      assert [] + [msg] == [msg];
    }
  }

  lemma ReadUserKeepsInv(s: System, x: Node)
    requires Inv(s) && s.y.outbox != [] && s.y.outbox[0].box.Sealed? && s.y.outbox[0].box.plain.UserContent?
    requires TryDecrypt(s.x.ep, s.y.outbox[0]).Some?
    requires x == s.x.(ep := TryDecrypt(s.x.ep, s.y.outbox[0]).value.0, ticks := x.ticks,
                       got := s.x.got + [s.y.outbox[0].box.plain.data])
    ensures Inv(System(x, s.y.(outbox := s.y.outbox[1..])))
  {
    var y := s.y.(outbox := s.y.outbox[1..]);
    var x0 := s.x.(ep := x.ep);
    ReadUser(s.y, s.x);
    InOrderFrame(y, x0, y, x);
    InOrderFrame(x0, y, x, y);
    AccountRead(s.y, s.x, y, x);
  }

  /** `x` is the node s.x after it handled the rekey at the head of its channel. */
  predicate HandledRekey(s: System, x: Node, draw: DhMaterial) {
    && s.y.outbox != [] && s.y.outbox[0].box.Sealed? && s.y.outbox[0].box.plain.RekeyContent?
    && TryDecrypt(s.x.ep, s.y.outbox[0]).Some?
    && x.ep == HandleIncomingRekey(TryDecrypt(s.x.ep, s.y.outbox[0]).value.0, s.y.outbox[0].box.plain.rekey, draw).0
    && x.got == s.x.got
    && if s.x.ep.pendingRekey.Some? then
         x.outbox == s.x.outbox && x.log == s.x.log && x.materials == s.x.materials
       else
         var written := Seal(s.x.ep.sender, RekeyContent(RekeyOf(draw)));
         && x.outbox == s.x.outbox + [written] && x.log == s.x.log + [written]
         && x.materials == s.x.materials + [draw]
  }

  /** The keys derived while handling a rekey are the keys of the next epoch. */
  lemma RekeyDerives(s: System, x: Node, draw: DhMaterial)
    requires Separated(s.y, s.x) && InOrder(s.y, s.x) && InOrder(s.x, s.y) && HandledRekey(s, x, draw)
    ensures x.ep.pendingRekey == None && Epoch(x) == Epoch(s.x) + 1 < |s.y.materials|
    ensures x.ep.sender == NewCipher(EpochKey(x.materials, s.y.materials, Epoch(x)))
    ensures x.ep.receiver == NewCipher(EpochKey(s.y.materials, x.materials, Epoch(x)))
    ensures x.ep.oldReceiver == Some(Advance(s.x.ep.receiver))
  {
    ReadHeadRekey(s.y, s.x);
    var e := Epoch(s.x) + 1;
    var ep := TryDecrypt(s.x.ep, s.y.outbox[0]).value.0;
    DerivedKeys(ep, s.y.materials[e], draw);
    assert x.materials[e] == if ep.pendingRekey.Some? then ep.pendingRekey.value else draw;
  }

  lemma DerivedKeys(ep: Endpoint, theirs: DhMaterial, draw: DhMaterial)
    ensures var mine := if ep.pendingRekey.Some? then ep.pendingRekey.value else draw;
            var next := HandleIncomingRekey(ep, RekeyOf(theirs), draw).0;
            && next.sender == NewCipher(StreamKey(mine, theirs)) && next.receiver == NewCipher(StreamKey(theirs, mine))
            && next.oldReceiver == Some(ep.receiver) && next.pendingRekey == None
  {
    KeysAgree(if ep.pendingRekey.Some? then ep.pendingRekey.value else draw, theirs);
  }

  lemma ReadRekeyKeepsOrder(s: System, x: Node, draw: DhMaterial)
    requires Separated(s.x, s.y) && Separated(s.y, s.x) && InOrder(s.y, s.x) && InOrder(s.x, s.y)
    requires HandledRekey(s, x, draw)
    ensures var y := s.y.(outbox := s.y.outbox[1..]);
            InOrder(x, y) && InOrder(y, x)
  {
    RekeyDerives(s, x, draw);
    ReadRekey(s.y, s.x, x);
    AnswerRekey(s.y, s.x, x, draw);
    InOrderFrame(x, s.y, x, s.y.(outbox := s.y.outbox[1..]));
  }

  lemma ReadRekeyKeepsInv(s: System, x: Node, draw: DhMaterial)
    requires Inv(s) && Fresh(s, draw) && HandledRekey(s, x, draw)
    ensures Inv(System(x, s.y.(outbox := s.y.outbox[1..])))
  {
    var y := s.y.(outbox := s.y.outbox[1..]);
    ReadRekeyKeepsOrder(s, x, draw);
    AccountRead(s.y, s.x, y, x);
    if s.x.ep.pendingRekey.None? {
      SeparatedExtends(s.x, s.y, draw);
      AccountRekey(s.x, s.y, x, y, draw);
    }
  }

  /** A delivery from a channel in order never fails to decrypt, and keeps everything in order. */
  lemma DeliverKeepsInv(s: System, ticksToRekey: nat, draw: DhMaterial)
    requires Inv(s) && Fresh(s, draw) && s.y.outbox != []
    ensures var s' := StepX(s, ticksToRekey, Deliver, draw);
            s'.Ok? && Inv(s'.value)
  {
    HeadDecrypts(s);
    DeliverSteps(s, ticksToRekey, draw);
    var x := StepX(s, ticksToRekey, Deliver, draw).value.x;
    if s.y.outbox[0].box.plain.UserContent? {
      ReadUserKeepsInv(s, x);
    } else {
      ReadRekeyKeepsInv(s, x, draw);
    }
  }

  lemma HeadDecrypts(s: System)
    requires Inv(s) && s.y.outbox != []
    ensures s.y.outbox[0].box.Sealed? && TryDecrypt(s.x.ep, s.y.outbox[0]).Some?
  {
    ReadHead(s.y, s.x);
  }

  /** What a delivery does when the message decrypts: hand the data to the user, or handle the rekey. */
  lemma DeliverSteps(s: System, ticksToRekey: nat, draw: DhMaterial)
    requires s.y.outbox != [] && s.y.outbox[0].box.Sealed? && TryDecrypt(s.x.ep, s.y.outbox[0]).Some?
    ensures var s' := StepX(s, ticksToRekey, Deliver, draw);
            && s'.Ok? && s'.value.y == s.y.(outbox := s.y.outbox[1..])
            && var x := s'.value.x;
               match s.y.outbox[0].box.plain
               case UserContent(data) =>
                 x == s.x.(ep := TryDecrypt(s.x.ep, s.y.outbox[0]).value.0, ticks := x.ticks, got := s.x.got + [data])
               case RekeyContent(_) => HandledRekey(s, x, draw)
  {
    assert s.x.got + [] == s.x.got && s.x.outbox + [] == s.x.outbox && s.x.log + [] == s.x.log;
    match s.y.outbox[0].box.plain {
      case UserContent(data) => assert [] + [data] == [data];
      case RekeyContent(_) =>
        var reply := Seal(s.x.ep.sender, RekeyContent(RekeyOf(draw)));
        assert [] + [reply] == [reply];
    }
  }

  lemma StepKeepsInv(s: System, ticksToRekey: nat, l: Label)
    requires Inv(s) && Allowed(s, l)
    ensures var s' := Step(s, ticksToRekey, l.side, l.action, l.draw);
            s'.Ok? && Inv(s'.value)
  {
    var s0 := if l.side.X? then s else Swap(s);
    assert Fresh(s0, l.draw) by {
      forall m <- s0.x.materials + s0.y.materials ensures m.exponent != l.draw.exponent {
        assert m in s.x.materials + s.y.materials;
      }
    }
    match l.action {
      case SendUser(data) => SendKeepsInv(s0, ticksToRekey, data, l.draw);
      case Tick => TickKeepsInv(s0, ticksToRekey, l.draw);
      case Deliver => DeliverKeepsInv(s0, ticksToRekey, l.draw);
    }
  }

  /** The handshake succeeds exactly when each party is whom the other insists on, if it insists; the
      two endpoints then name each other and hold matching streams. */
  lemma HandshakeSucceedsIff(p: Party, q: Party)
    ensures var h := Handshake(p, q);
            && (h.Ok? <==> p.want in {None, Some(q.publicKey)} && q.want in {None, Some(p.publicKey)})
            && (h.Err? ==> h.error == UnexpectedRemotePublicKey)
            && (h.Ok? ==>
                  var (ep, eq) := h.value;
                  && ep.remotePublicKey == q.publicKey && eq.remotePublicKey == p.publicKey
                  && ep.sender == eq.receiver == NewCipher(StreamKey(p.material, q.material))
                  && eq.sender == ep.receiver == NewCipher(StreamKey(q.material, p.material))
                  && ep.oldReceiver == eq.oldReceiver == None && ep.pendingRekey == eq.pendingRekey == None)
  {
    KeysAgree(p.material, q.material);
  }

  lemma FirstInOrder(s: Node, r: Node)
    requires |s.materials| == |r.materials| == 1 && s.outbox == []
    requires s.ep.sender == r.ep.receiver == NewCipher(StreamKey(s.materials[0], r.materials[0]))
    requires r.ep.oldReceiver == None && s.ep.pendingRekey == r.ep.pendingRekey == None
    ensures InOrder(s, r)
  {
  }

  lemma InitHolds(s: System, ticksToRekey: nat)
    requires Init(s, ticksToRekey)
    ensures Inv(s)
  {
    var p, q :| InitFrom(s, ticksToRekey, p, q);
    HandshakeSucceedsIff(p, q);
    FirstInOrder(s.x, s.y);
    FirstInOrder(s.y, s.x);
  }

  lemma RunSplits(run: seq<System>, labels: seq<Label>, ticksToRekey: nat)
    requires IsRun(run, labels, ticksToRekey) && labels != []
    ensures var n := |labels|;
            && IsRun(run[..n], labels[..n - 1], ticksToRekey)
            && StepsTo(run[n - 1], ticksToRekey, labels[n - 1], run[n])
  {
  }

  lemma {:induction false} RunKeepsInv(run: seq<System>, labels: seq<Label>, ticksToRekey: nat)
    requires IsRun(run, labels, ticksToRekey)
    ensures Inv(run[|labels|])
    decreases |labels|
  {
    var n := |labels|;
    if n == 0 {
      InitHolds(run[0], ticksToRekey);
    } else {
      RunSplits(run, labels, ticksToRekey);
      RunKeepsInv(run[..n], labels[..n - 1], ticksToRekey);
      StepKeepsInv(run[n - 1], ticksToRekey, labels[n - 1]);
    }
  }

  /** What one event writes: a user message exactly when the user sends one. */
  lemma EventWrites(e: Endpoint, ticks: nat, ticksToRekey: nat, event: Event, draw: DhMaterial)
    requires HandleEvent(Loop(e, ticks, [], []), ticksToRekey, event, draw).Ok?
    ensures Users(HandleEvent(Loop(e, ticks, [], []), ticksToRekey, event, draw).value.toRemote)
         == if event.User? then [event.data] else []
  {
    var l := HandleEvent(Loop(e, ticks, [], []), ticksToRekey, event, draw).value;
    match event {
      case Reader(msg) =>
        var output := HandleIncoming(e, msg, draw).value.1;
        assert l.toRemote == OptionSeq(output.sendMessage);
        if output.sendMessage.Some? {
          assert l.toRemote[1..] == [];
        }
      case User(data) =>
        assert l.toRemote == [Seal(e.sender, UserContent(data))];
      case TimerTick =>
        if l.toRemote != [] {
          assert l.toRemote == [Seal(e.sender, RekeyContent(RekeyOf(draw)))];
        }
    }
  }

  lemma StepLogs(s: System, ticksToRekey: nat, l: Label)
    requires Allowed(s, l) && Step(s, ticksToRekey, l.side, l.action, l.draw).Ok?
    ensures var s' := Step(s, ticksToRekey, l.side, l.action, l.draw).value;
            var data := if l.action.SendUser? then [l.action.data] else [];
            && Users(s'.x.log) == Users(s.x.log) + (if l.side.X? then data else [])
            && Users(s'.y.log) == Users(s.y.log) + (if l.side.X? then [] else data)
  {
    var s0 := if l.side.X? then s else Swap(s);
    var event := match l.action
      case SendUser(data) => User(data)
      case Tick => TimerTick
      case Deliver => Reader(s0.y.outbox[0]);
    EventWrites(s0.x.ep, s0.x.ticks, ticksToRekey, event, l.draw);
    UsersConcat(s0.x.log, HandleEvent(Loop(s0.x.ep, s0.x.ticks, [], []), ticksToRekey, event, l.draw).value.toRemote);
  }

  lemma {:induction false} RunLogs(run: seq<System>, labels: seq<Label>, ticksToRekey: nat)
    requires IsRun(run, labels, ticksToRekey)
    ensures Users(run[|labels|].x.log) == SentBy(labels, X) && Users(run[|labels|].y.log) == SentBy(labels, Y)
    decreases |labels|
  {
    var n := |labels|;
    if n > 0 {
      RunSplits(run, labels, ticksToRekey);
      RunLogs(run[..n], labels[..n - 1], ticksToRekey);
      StepLogs(run[n - 1], ticksToRekey, labels[n - 1]);
    }
  }

  // ---------------------------------------------------------------- the theorems

  /** No step of a run can fail: in particular every message in flight decrypts when it arrives. */
  lemma EveryDeliveryDecrypts(run: seq<System>, labels: seq<Label>, ticksToRekey: nat, l: Label)
    requires IsRun(run, labels, ticksToRekey) && Allowed(run[|labels|], l)
    ensures Step(run[|labels|], ticksToRekey, l.side, l.action, l.draw).Ok?
  {
    RunKeepsInv(run, labels, ticksToRekey);
    StepKeepsInv(run[|labels|], ticksToRekey, l);
  }

  /** Users receive what was sent, exactly once and in order: delivered, then in flight, is all of it. */
  lemma DeliveredExactlyOnceInOrder(run: seq<System>, labels: seq<Label>, ticksToRekey: nat)
    requires IsRun(run, labels, ticksToRekey)
    ensures var s := run[|labels|];
            && s.y.got + Users(s.x.outbox) == SentBy(labels, X)
            && s.x.got + Users(s.y.outbox) == SentBy(labels, Y)
  {
    RunKeepsInv(run, labels, ticksToRekey);
    RunLogs(run, labels, ticksToRekey);
  }

  /** The two sides are never more than one epoch apart, and each has sent one rekey for every epoch
      it left, plus the one it has pending; the i-th is sealed under the key of epoch i. */
  lemma EpochsStayTogether(run: seq<System>, labels: seq<Label>, ticksToRekey: nat)
    requires IsRun(run, labels, ticksToRekey)
    ensures var s := run[|labels|];
            && -1 <= Epoch(s.x) - Epoch(s.y) <= 1
            && |Rekeys(s.x.log)| == Epoch(s.x) + Pending(s.x)
            && |Rekeys(s.y.log)| == Epoch(s.y) + Pending(s.y)
            && (forall i :: 0 <= i < |Rekeys(s.x.log)| ==>
                  RekeyOfEpoch(Rekeys(s.x.log)[i], i, s.x.materials, s.y.materials))
            && (forall i :: 0 <= i < |Rekeys(s.y.log)| ==>
                  RekeyOfEpoch(Rekeys(s.y.log)[i], i, s.y.materials, s.x.materials))
  {
    RunKeepsInv(run, labels, ticksToRekey);
  }

  /** Once both channels are empty no rekey is pending and each sender stands exactly where the other
      side's receiver does. */
  lemma QuietChannelsAgree(run: seq<System>, labels: seq<Label>, ticksToRekey: nat)
    requires IsRun(run, labels, ticksToRekey)
    requires run[|labels|].x.outbox == [] && run[|labels|].y.outbox == []
    ensures var s := run[|labels|];
            && Epoch(s.x) == Epoch(s.y)
            && s.x.ep.pendingRekey == None && s.y.ep.pendingRekey == None
            && s.x.ep.sender == s.y.ep.receiver && s.y.ep.sender == s.x.ep.receiver
            && s.y.got == SentBy(labels, X) && s.x.got == SentBy(labels, Y)
  {
    RunKeepsInv(run, labels, ticksToRekey);
    DeliveredExactlyOnceInOrder(run, labels, ticksToRekey);
    var s := run[|labels|];
    QuietInOrder(s.x, s.y);
  }

  lemma QuietInOrder(s: Node, r: Node)
    requires InOrder(s, r) && InOrder(r, s) && s.outbox == [] && r.outbox == []
    ensures Epoch(s) == Epoch(r) && s.ep.pendingRekey == None && r.ep.pendingRekey == None
    ensures s.ep.sender == r.ep.receiver && r.ep.sender == s.ep.receiver
  {
  }
}

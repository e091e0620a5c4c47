/** One endpoint of the secure channel (components/secure_channel/src/state.rs) and the loop that
    drives it (components/secure_channel/src/secure_channel.rs).

    Random padding and the byte encoding of messages carry no state and are left out: a message is
    its content. Randomness is an argument: the exponent and the salt a step would draw. */
module ScState {
  import opened Wrappers
  import opened SymEncrypt
  import opened Dh

  type PublicKey = nat
  type RandValue = nat
  type PlainData = seq<Byte>

  datatype Rekey = Rekey(dhPublicKey: DhPublicKey, keySalt: nat)

  datatype ChannelContent = RekeyContent(rekey: Rekey) | UserContent(data: PlainData)

  type EncryptedData = CipherText<SymmetricKey, ChannelContent>

  datatype ScStateError =
    | UnexpectedRemotePublicKey
    | IncorrectRandNonce
    | InvalidSignature
    | DecryptionFailure
    | RekeyInProgress

  /** An endpoint: its two keyed streams, the receiving stream of the previous epoch while it may
      still be needed, and the material of a rekey it has started. */
  datatype Endpoint = Endpoint(
    localPublicKey: PublicKey,
    remotePublicKey: PublicKey,
    sender: Cipher<SymmetricKey>,
    receiver: Cipher<SymmetricKey>,
    oldReceiver: Option<Cipher<SymmetricKey>>,
    pendingRekey: Option<DhMaterial>)

  datatype HandleIncomingOutput = HandleIncomingOutput(
    rekeyOccurred: bool,
    sendMessage: Option<EncryptedData>,
    incomingMessage: Option<PlainData>)

  // ---------------------------------------------------------------- handshake

  datatype ExchangeRandNonce = ExchangeRandNonce(
    randNonce: RandValue, srcPublicKey: PublicKey, destPublicKey: Option<PublicKey>)

  /** An ideal signature names its signer and everything that was signed. */
  datatype Signature = Signature(signer: PublicKey, dhPublicKey: DhPublicKey, randNonce: RandValue, keySalt: nat)

  datatype ExchangeDh = ExchangeDh(
    dhPublicKey: DhPublicKey, randNonce: RandValue, keySalt: nat, signature: Signature)

  datatype ScStateInitial = ScStateInitial(
    localPublicKey: PublicKey, optRemotePublicKey: Option<PublicKey>, localRandNonce: RandValue)

  datatype ScStateHalf = ScStateHalf(
    remotePublicKey: PublicKey, localPublicKey: PublicKey, localRandNonce: RandValue, material: DhMaterial)

  function NewInitial(localPk: PublicKey, optRemotePk: Option<PublicKey>, nonce: RandValue)
    : (ScStateInitial, ExchangeRandNonce)
  {
    (ScStateInitial(localPk, optRemotePk, nonce), ExchangeRandNonce(nonce, localPk, optRemotePk))
  }

  function HandleExchangeRandNonce(s: ScStateInitial, msg: ExchangeRandNonce, draw: DhMaterial)
    : Result<(ScStateHalf, ExchangeDh), ScStateError>
  {
    if s.optRemotePublicKey.Some? && s.optRemotePublicKey.value != msg.srcPublicKey
    then Err(UnexpectedRemotePublicKey)
    else
      var public := ComputePublicKey(draw.exponent);
      var half := ScStateHalf(msg.srcPublicKey, s.localPublicKey, s.localRandNonce, draw);
      var signature := Signature(s.localPublicKey, public, msg.randNonce, draw.salt);
      Ok((half, ExchangeDh(public, msg.randNonce, draw.salt, signature)))
  }

  function HandleExchangeDh(h: ScStateHalf, msg: ExchangeDh): Result<Endpoint, ScStateError> {
    if h.localRandNonce != msg.randNonce then Err(IncorrectRandNonce)
    else if msg.signature != Signature(h.remotePublicKey, msg.dhPublicKey, msg.randNonce, msg.keySalt)
    then Err(InvalidSignature)
    else
      var (sendKey, recvKey) :=
        DeriveSymmetricKey(h.material.exponent, msg.dhPublicKey, h.material.salt, msg.keySalt);
      Ok(Endpoint(h.localPublicKey, h.remotePublicKey, NewCipher(sendKey), NewCipher(recvKey), None, None))
  }

  /** An endpoint arises exactly from an answer that carries our nonce and that the other side signed: the expected key,
      if there is one, or else the key it introduced itself with. */
  lemma HandshakeAcceptsIff(localPk: PublicKey, optRemotePk: Option<PublicKey>, nonce: RandValue,
                            hello: ExchangeRandNonce, draw: DhMaterial, answer: ExchangeDh)
    ensures var halfway := HandleExchangeRandNonce(NewInitial(localPk, optRemotePk, nonce).0, hello, draw);
            && (halfway.Ok? <==> optRemotePk in {None, Some(hello.srcPublicKey)})
            && (halfway.Ok? ==>
                  var r := HandleExchangeDh(halfway.value.0, answer);
                  && (r.Ok? <==>
                        && answer.signature == Signature(hello.srcPublicKey, answer.dhPublicKey, nonce, answer.keySalt)
                        && answer.randNonce == nonce)
                  && (r.Ok? ==> r.value.localPublicKey == localPk && r.value.remotePublicKey == hello.srcPublicKey))
  {
  }

  // ---------------------------------------------------------------- the established channel

  /** The old receiver is tried first; a message that only the new one opens retires the old one. */
  function TryDecrypt(e: Endpoint, msg: EncryptedData): Option<(Endpoint, ChannelContent)> {
    var byOld := if e.oldReceiver.Some? then Open(e.oldReceiver.value, msg) else None;
    var byNew := Open(e.receiver, msg);
    if byOld.Some? then Some((e.(oldReceiver := Some(Advance(e.oldReceiver.value))), byOld.value))
    else if byNew.Some? then Some((e.(receiver := Advance(e.receiver), oldReceiver := None), byNew.value))
    else None
  }

  function EncryptOutgoing(e: Endpoint, content: ChannelContent): (Endpoint, EncryptedData) {
    (e.(sender := Advance(e.sender)), Seal(e.sender, content))
  }

  function RekeyOf(material: DhMaterial): Rekey {
    Rekey(ComputePublicKey(material.exponent), material.salt)
  }

  function CreateRekey(e: Endpoint, draw: DhMaterial): Result<(Endpoint, EncryptedData), ScStateError> {
    if e.pendingRekey.Some? then Err(RekeyInProgress)
    else Ok(EncryptOutgoing(e.(pendingRekey := Some(draw)), RekeyContent(RekeyOf(draw))))
  }

  /** Without a rekey of our own we answer with one under the old key; either way both streams move
      to the derived keys. */
  function HandleIncomingRekey(e: Endpoint, rekey: Rekey, draw: DhMaterial): (Endpoint, HandleIncomingOutput) {
    var material := if e.pendingRekey.Some? then e.pendingRekey.value else draw;
    var (sendKey, recvKey) :=
      DeriveSymmetricKey(material.exponent, rekey.dhPublicKey, material.salt, rekey.keySalt);
    var reply := if e.pendingRekey.Some? then None else Some(Seal(e.sender, RekeyContent(RekeyOf(draw))));
    (e.(sender := NewCipher(sendKey), receiver := NewCipher(recvKey),
        oldReceiver := Some(e.receiver), pendingRekey := None),
     HandleIncomingOutput(true, reply, None))
  }

  function HandleIncoming(e: Endpoint, msg: EncryptedData, draw: DhMaterial)
    : Result<(Endpoint, HandleIncomingOutput), ScStateError>
  {
    match TryDecrypt(e, msg)
    case None => Err(DecryptionFailure)
    case Some((e', RekeyContent(rekey))) => Ok(HandleIncomingRekey(e', rekey, draw))
    case Some((e', UserContent(data))) => Ok((e', HandleIncomingOutput(false, None, Some(data))))
  }

  class ScState {
    const localPublicKey: PublicKey
    const remotePublicKey: PublicKey
    var sender: Cipher<SymmetricKey>
    var receiver: Cipher<SymmetricKey>
    var optOldReceiver: Option<Cipher<SymmetricKey>>
    var optPendingRekey: Option<DhMaterial>

    function View(): Endpoint
      reads this
    {
      Endpoint(localPublicKey, remotePublicKey, sender, receiver, optOldReceiver, optPendingRekey)
    }

    constructor (half: ScStateHalf, msg: ExchangeDh)
      requires HandleExchangeDh(half, msg).Ok?
      ensures View() == HandleExchangeDh(half, msg).value
    {
      var (sendKey, recvKey) :=
        DeriveSymmetricKey(half.material.exponent, msg.dhPublicKey, half.material.salt, msg.keySalt);
      localPublicKey := half.localPublicKey;
      remotePublicKey := half.remotePublicKey;
      sender := NewCipher(sendKey);
      receiver := NewCipher(recvKey);
      optOldReceiver := None;
      optPendingRekey := None;
    }

    method Encrypt(content: ChannelContent) returns (msg: EncryptedData)
      modifies this`sender
      ensures (View(), msg) == EncryptOutgoing(old(View()), content)
    {
      msg := Seal(sender, content);
      sender := Advance(sender);
    }

    method Decrypt(msg: EncryptedData) returns (r: Option<ChannelContent>)
      modifies this`receiver, this`optOldReceiver
      ensures match TryDecrypt(old(View()), msg)
              case None => r == None && View() == old(View())
              case Some((e, content)) => r == Some(content) && View() == e
    {
      if optOldReceiver.Some? {
        var content := Open(optOldReceiver.value, msg);
        if content.Some? {
          optOldReceiver := Some(Advance(optOldReceiver.value));
          return content;
        }
      }
      r := Open(receiver, msg);
      if r.Some? {
        receiver := Advance(receiver);
        optOldReceiver := None;
      }
    }

    method CreateOutgoing(data: PlainData) returns (msg: EncryptedData)
      modifies this`sender
      ensures (View(), msg) == EncryptOutgoing(old(View()), UserContent(data))
    {
      msg := Encrypt(UserContent(data));
    }

    method StartRekey(draw: DhMaterial) returns (r: Result<EncryptedData, ScStateError>)
      modifies this`sender, this`optPendingRekey
      ensures match CreateRekey(old(View()), draw)
              case Err(error) => r == Err(error) && View() == old(View())
              case Ok((e, msg)) => r == Ok(msg) && View() == e
    {
      if optPendingRekey.Some? {
        return Err(RekeyInProgress);
      }
      optPendingRekey := Some(draw);
      var msg := Encrypt(RekeyContent(RekeyOf(draw)));
      r := Ok(msg);
    }

    method ReceiveRekey(rekey: Rekey, draw: DhMaterial) returns (r: HandleIncomingOutput)
      modifies this
      ensures (View(), r) == HandleIncomingRekey(old(View()), rekey, draw)
    {
      var pending := optPendingRekey;
      optPendingRekey := None;
      match pending {
        case None =>
          var (sendKey, recvKey) :=
            DeriveSymmetricKey(draw.exponent, rekey.dhPublicKey, draw.salt, rekey.keySalt);
          optOldReceiver := Some(receiver);
          receiver := NewCipher(recvKey);
          // The reply is still sealed by the old sender.
          var reply := Encrypt(RekeyContent(RekeyOf(draw)));
          sender := NewCipher(sendKey);
          r := HandleIncomingOutput(true, Some(reply), None);
        case Some(material) =>
          var (sendKey, recvKey) :=
            DeriveSymmetricKey(material.exponent, rekey.dhPublicKey, material.salt, rekey.keySalt);
          sender := NewCipher(sendKey);
          optOldReceiver := Some(receiver);
          receiver := NewCipher(recvKey);
          r := HandleIncomingOutput(true, None, None);
      }
    }

    method Receive(msg: EncryptedData, draw: DhMaterial) returns (r: Result<HandleIncomingOutput, ScStateError>)
      modifies this
      ensures match HandleIncoming(old(View()), msg, draw)
              case Err(error) => r == Err(error) && View() == old(View())
              case Ok((e, output)) => r == Ok(output) && View() == e
    {
      var content := Decrypt(msg);
      match content {
        case None => r := Err(DecryptionFailure);
        case Some(RekeyContent(rekey)) =>
          var output := ReceiveRekey(rekey, draw);
          r := Ok(output);
        case Some(UserContent(data)) =>
          r := Ok(HandleIncomingOutput(false, None, Some(data)));
      }
    }
  }

  // ---------------------------------------------------------------- the event loop

  datatype Event =
    | Reader(msg: EncryptedData)
    | User(data: PlainData)
    | TimerTick

  /** The loop's state and what it has written to the network and to its user. */
  datatype Loop = Loop(state: Endpoint, ticks: nat, toRemote: seq<EncryptedData>, toUser: seq<PlainData>)

  function OptionSeq<T>(o: Option<T>): seq<T> {
    if o.Some? then [o.value] else []
  }

  /** One event. A rekey, started here or by the other side, restarts the countdown; a tick at zero
      starts one unless one is already pending. */
  function HandleEvent(l: Loop, ticksToRekey: nat, event: Event, draw: DhMaterial): Result<Loop, ScStateError> {
    match event
    case Reader(msg) =>
      (match HandleIncoming(l.state, msg, draw)
       case Err(error) => Err(error)
       case Ok((e, output)) =>
         Ok(Loop(e, if output.rekeyOccurred then ticksToRekey else l.ticks,
                 l.toRemote + OptionSeq(output.sendMessage), l.toUser + OptionSeq(output.incomingMessage))))
    case User(data) =>
      var (e, msg) := EncryptOutgoing(l.state, UserContent(data));
      Ok(l.(state := e, toRemote := l.toRemote + [msg]))
    case TimerTick =>
      if l.ticks > 0 then Ok(l.(ticks := l.ticks - 1))
      else match CreateRekey(l.state, draw)
        case Err(_) => Ok(l)
        case Ok((e, msg)) => Ok(l.(state := e, ticks := ticksToRekey, toRemote := l.toRemote + [msg]))
  }

  function HandleEvents(l: Loop, ticksToRekey: nat, events: seq<Event>, draws: seq<DhMaterial>)
    : Result<Loop, ScStateError>
    requires |events| == |draws|
  {
    if events == [] then Ok(l) else
    match HandleEvents(l, ticksToRekey, events[..|events| - 1], draws[..|events| - 1])
    case Err(error) => Err(error)
    case Ok(l') => HandleEvent(l', ticksToRekey, events[|events| - 1], draws[|events| - 1])
  }

  method SecureChannelLoop(state: ScState, ticksToRekey: nat, events: seq<Event>, draws: seq<DhMaterial>)
    returns (r: Result<(seq<EncryptedData>, seq<PlainData>), ScStateError>, ghost run: seq<Loop>)
    requires |events| == |draws|
    modifies state
    ensures match HandleEvents(Loop(old(state.View()), ticksToRekey, [], []), ticksToRekey, events, draws)
            case Err(error) => r.Err?
            case Ok(l) =>
              && r == Ok((l.toRemote, l.toUser)) && state.View() == l.state
              && IsRun(run, ticksToRekey, events, draws) && run[|events|] == l
              && run[0] == Loop(old(state.View()), ticksToRekey, [], [])
  {
    run := [];
    var ticks, toRemote, toUser := ticksToRekey, [], [];
    ghost var start := Loop(state.View(), ticksToRekey, [], []);
    for i := 0 to |events|
      invariant HandleEvents(start, ticksToRekey, events[..i], draws[..i])
             == Ok(Loop(state.View(), ticks, toRemote, toUser))
    {
      assert events[..i + 1][..i] == events[..i] && draws[..i + 1][..i] == draws[..i];
      match events[i] {
        case Reader(msg) =>
          var output := state.Receive(msg, draws[i]);
          if output.Err? {
            FailureIsFinal(start, ticksToRekey, events, draws, i + 1);
            return Err(output.error), run;
          }
          ticks := if output.value.rekeyOccurred then ticksToRekey else ticks;
          toRemote := toRemote + OptionSeq(output.value.sendMessage);
          toUser := toUser + OptionSeq(output.value.incomingMessage);
        case User(data) =>
          var msg := state.CreateOutgoing(data);
          toRemote := toRemote + [msg];
        case TimerTick =>
          if ticks > 0 {
            ticks := ticks - 1;
          } else {
            var msg := state.StartRekey(draws[i]);
            if msg.Ok? {
              toRemote := toRemote + [msg.value];
              ticks := ticksToRekey;
            }
          }
      }
    }
    assert events[..|events|] == events && draws[..|events|] == draws;
    run := LoopRuns(start, ticksToRekey, events, draws);
    r := Ok((toRemote, toUser));
  }

  // ---------------------------------------------------------------- the rekey countdown

  /** The states the loop runs through, one before each event and one after the last. */
  ghost predicate IsRun(run: seq<Loop>, ticksToRekey: nat, events: seq<Event>, draws: seq<DhMaterial>) {
    && |events| == |draws| && |run| == |events| + 1
    && forall i :: 0 <= i < |events| ==> StepsAt(run, ticksToRekey, events, draws, i)
  }

  ghost predicate StepsAt(run: seq<Loop>, ticksToRekey: nat, events: seq<Event>, draws: seq<DhMaterial>, i: nat)
    requires |events| == |draws| && |run| == |events| + 1 && i < |events|
  {
    HandleEvent(run[i], ticksToRekey, events[i], draws[i]) == Ok(run[i + 1])
  }

  /** The `i`-th event is a rekey: one that was received, or one that was sent by the timer. */
  predicate RekeysAt(run: seq<Loop>, events: seq<Event>, i: nat)
    requires |run| == |events| + 1 && i < |events|
  {
    match events[i]
    case Reader(msg) =>
      var decrypted := TryDecrypt(run[i].state, msg);
      decrypted.Some? && decrypted.value.1.RekeyContent?
    case User(_) => false
    case TimerTick => run[i + 1].toRemote != run[i].toRemote
  }

  function Ticks(events: seq<Event>): nat {
    if events == [] then 0
    else Ticks(events[..|events| - 1]) + if events[|events| - 1].TimerTick? then 1 else 0
  }

  /** Since the last rekey the countdown went down by one with each tick. */
  lemma {:induction false} CountdownCounts(run: seq<Loop>, ticksToRekey: nat, events: seq<Event>,
                                           draws: seq<DhMaterial>, since: nat, n: nat)
    requires IsRun(run, ticksToRekey, events, draws) && since <= n <= |events|
    requires if since == 0 then run[0].ticks == ticksToRekey else RekeysAt(run, events, since - 1)
    requires forall i :: since <= i < n ==> !RekeysAt(run, events, i)
    ensures var ticks := Ticks(events[since..n]);
            run[n].ticks == if ticks <= ticksToRekey then ticksToRekey - ticks else 0
    decreases n
  {
    if n == since {
      assert n > 0 ==> StepsAt(run, ticksToRekey, events, draws, n - 1);
    } else {
      CountdownCounts(run, ticksToRekey, events, draws, since, n - 1);
      assert events[since..n][..n - 1 - since] == events[since..n - 1];
      assert StepsAt(run, ticksToRekey, events, draws, n - 1);
      assert !RekeysAt(run, events, n - 1);
    }
  }

  /** A tick writes a rekey exactly if `ticksToRekey` ticks went by since the last rekey, or since the start, and none
      is pending; it writes nothing else. */
  lemma RekeyWhenDue(run: seq<Loop>, ticksToRekey: nat, events: seq<Event>, draws: seq<DhMaterial>, since: nat, n: nat)
    requires IsRun(run, ticksToRekey, events, draws) && since <= n < |events| && events[n].TimerTick?
    requires if since == 0 then run[0].ticks == ticksToRekey else RekeysAt(run, events, since - 1)
    requires forall i :: since <= i < n ==> !RekeysAt(run, events, i)
    ensures var due := Ticks(events[since..n]) >= ticksToRekey && run[n].state.pendingRekey.None?;
            && run[n + 1].toRemote == run[n].toRemote
                 + (if due then [Seal(run[n].state.sender, RekeyContent(RekeyOf(draws[n])))] else [])
            && run[n + 1].state.pendingRekey == if due then Some(draws[n]) else run[n].state.pendingRekey
  {
    CountdownCounts(run, ticksToRekey, events, draws, since, n);
    assert StepsAt(run, ticksToRekey, events, draws, n);
  }

  /** The loop goes through a run, and ends in its last state. */
  lemma {:induction false} LoopRuns(l: Loop, ticksToRekey: nat, events: seq<Event>, draws: seq<DhMaterial>)
    returns (run: seq<Loop>)
    requires |events| == |draws| && HandleEvents(l, ticksToRekey, events, draws).Ok?
    ensures IsRun(run, ticksToRekey, events, draws) && run[0] == l
    ensures HandleEvents(l, ticksToRekey, events, draws) == Ok(run[|events|])
    decreases |events|
  {
    if events == [] {
      run := [l];
    } else {
      var n := |events| - 1;
      var rest := LoopRuns(l, ticksToRekey, events[..n], draws[..n]);
      run := rest + [HandleEvents(l, ticksToRekey, events, draws).value];
      forall i | 0 <= i < |events| ensures StepsAt(run, ticksToRekey, events, draws, i) {
        if i < n {
          assert StepsAt(rest, ticksToRekey, events[..n], draws[..n], i);
        }
      }
    }
  }

  lemma FailureIsFinal(l: Loop, ticksToRekey: nat, events: seq<Event>, draws: seq<DhMaterial>, n: nat)
    requires |events| == |draws| && n <= |events|
    requires HandleEvents(l, ticksToRekey, events[..n], draws[..n]).Err?
    ensures HandleEvents(l, ticksToRekey, events, draws).Err?
    decreases |events| - n
  {
    if n == |events| {
      assert events[..n] == events && draws[..n] == draws;
    } else {
      assert events[..n + 1][..n] == events[..n] && draws[..n + 1][..n] == draws[..n];
      FailureIsFinal(l, ticksToRekey, events, draws, n + 1);
    }
  }
}

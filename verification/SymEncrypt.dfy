/** Symmetric encryption with a strictly ordered nonce (components/crypto/src/sym_encrypt.rs).

    The AEAD is ideal: a box opens exactly under the key and the nonce it was sealed with.
    A nonce is the number its 12 bytes spell, least significant byte first; `EncryptNonceCounter`
    keeps the bytes themselves and is proved to count in that reading. */
module SymEncrypt {
  import opened Wrappers

  type Byte = b: int | 0 <= b < 256

  /** Number of bytes in a nonce. */
  const ENC_NONCE_LEN := 12

  /** Number of distinct nonces: 256 to the power of ENC_NONCE_LEN. */
  const NONCE_SPACE := 0x1_0000_0000_0000_0000_0000_0000

  // ---------------------------------------------------------------- little-endian bytes

  function Pow256(n: nat): (p: nat)
    ensures p > 0
  {
    if n == 0 then 1 else 256 * Pow256(n - 1)
  }

  /** The number spelled by `bytes`, least significant byte first. */
  function LittleEndian(bytes: seq<Byte>): (n: nat)
    ensures n < Pow256(|bytes|)
  {
    if bytes == [] then 0 else bytes[0] + 256 * LittleEndian(bytes[1..])
  }

  /** The `len` bytes that spell `n` modulo 256^len. */
  function Encode(n: nat, len: nat): (bytes: seq<Byte>)
    ensures |bytes| == len
  {
    if len == 0 then [] else [n % 256] + Encode(n / 256, len - 1)
  }

  lemma {:induction false} EncodeSpells(n: nat, len: nat)
    ensures LittleEndian(Encode(n, len)) == n % Pow256(len)
  {
    if len > 0 {
      EncodeSpells(n / 256, len - 1);
      assert Encode(n, len)[1..] == Encode(n / 256, len - 1);
      DivideMod(n, Pow256(len - 1));
    }
  }

  lemma DivideMod(n: nat, p: nat)
    requires p > 0
    ensures n % (256 * p) == n % 256 + 256 * ((n / 256) % p)
  {
    var q, r := n / 256 / p, n / 256 % p;
    assert n == (q * p + r) * 256 + n % 256;
    assert n == q * (256 * p) + (r * 256 + n % 256);
    ModUnique(n, 256 * p, q, r * 256 + n % 256);
  }

  lemma ModUnique(n: nat, m: nat, q: nat, r: nat)
    requires m > 0 && r < m && n == q * m + r
    ensures n % m == r
  {
    var k := n / m;
    if k > q {
      MulMonotone(q + 1, k, m);
    } else if k < q {
      MulMonotone(k + 1, q, m);
    }
  }

  lemma MulMonotone(a: nat, b: nat, m: nat)
    requires a <= b
    ensures a * m <= b * m
  {
    assert b * m == a * m + (b - a) * m;
  }

  lemma ModSucc(n: nat, m: nat)
    requires m > 0
    ensures (n % m + 1) % m == (n + 1) % m
  {
    var q, r := n / m, n % m;
    if r + 1 < m {
      ModUnique(n + 1, m, q, r + 1);
      ModUnique(r + 1, m, 0, r + 1);
    } else {
      ModUnique(n + 1, m, q + 1, 0);
      ModUnique(m, m, 1, 0);
    }
  }

  lemma {:induction false} SpellsInjective(a: seq<Byte>, b: seq<Byte>)
    requires |a| == |b| && LittleEndian(a) == LittleEndian(b)
    ensures a == b
  {
    if a != [] {
      SpellsInjective(a[1..], b[1..]);
      assert a == [a[0]] + a[1..] && b == [b[0]] + b[1..];
    }
  }

  lemma {:induction false} SpellsAppend(s: seq<Byte>, b: Byte)
    ensures LittleEndian(s + [b]) == LittleEndian(s) + b * Pow256(|s|)
  {
    if s == [] {
      assert s + [b] == [b];
    } else {
      SpellsAppend(s[1..], b);
      assert (s + [b])[1..] == s[1..] + [b];
      var p := Pow256(|s| - 1);
      assert 256 * (b * p) == b * (256 * p);
    }
  }

  /** Adds one to the number spelled by the bytes, dropping the final carry. */
  method IncreaseNonce(nonce: array<Byte>)
    modifies nonce
    ensures LittleEndian(nonce[..]) == (LittleEndian(old(nonce[..])) + 1) % Pow256(nonce.Length)
  {
    ghost var was := nonce[..];
    var carry := 1;
    for i := 0 to nonce.Length
      invariant 0 <= carry <= 1
      invariant forall k :: i <= k < nonce.Length ==> nonce[k] == was[k]
      invariant LittleEndian(nonce[..i]) + carry * Pow256(i) == LittleEndian(was[..i]) + 1
    {
      AddByte(nonce[..i], was[..i], carry, nonce[i]);
      carry := carry + nonce[i];
      ghost var done := nonce[..i];
      nonce[i] := carry % 256;
      carry := carry / 256;
      assert nonce[..i + 1] == done + [nonce[i]] && was[..i + 1] == was[..i] + [was[i]];
    }
    assert nonce[..nonce.Length] == nonce[..] && was[..nonce.Length] == was;
    ModUnique(LittleEndian(was) + 1, Pow256(nonce.Length), carry, LittleEndian(nonce[..]));
  }

  /** Adding one more byte with a carry. */
  lemma AddByte(done: seq<Byte>, was: seq<Byte>, carry: nat, b: Byte)
    requires |done| == |was| && carry <= 1
    requires LittleEndian(done) + carry * Pow256(|was|) == LittleEndian(was) + 1
    ensures LittleEndian(done + [(carry + b) % 256]) + (carry + b) / 256 * Pow256(|was| + 1)
         == LittleEndian(was + [b]) + 1
  {
    SpellsAppend(done, (carry + b) % 256);
    SpellsAppend(was, b);
    AddDigit(LittleEndian(done), LittleEndian(was), carry, b, Pow256(|was|));
  }

  lemma AddDigit(done: nat, was: nat, carry: nat, b: nat, p: nat)
    requires done + carry * p == was + 1
    ensures done + (carry + b) % 256 * p + (carry + b) / 256 * (256 * p) == was + b * p + 1
  {
    CarryStep(carry + b, p);
    assert (carry + b) * p == carry * p + b * p;
  }

  lemma CarryStep(c: nat, p: nat)
    ensures (c % 256) * p + (c / 256) * (256 * p) == c * p
  {
    assert c == c % 256 + 256 * (c / 256);
    assert c * p == (c % 256) * p + (256 * (c / 256)) * p;
  }

  // ---------------------------------------------------------------- the nonce counter

  /** The next nonce, wrapping at the end of the space. */
  function SuccNonce(nonce: nat): nat {
    if nonce + 1 < NONCE_SPACE then nonce + 1 else 0
  }

  lemma SuccIsMod(n: nat)
    requires n < NONCE_SPACE
    ensures SuccNonce(n) == (n + 1) % NONCE_SPACE
  {
    if n + 1 < NONCE_SPACE {
      ModUnique(n + 1, NONCE_SPACE, 0, n + 1);
    }
  }

  class EncryptNonceCounter {
    const inner: array<Byte>

    ghost predicate Valid()
      reads this
    {
      inner.Length == ENC_NONCE_LEN
    }

    /** The number of the nonce that will be handed out next. */
    ghost function Count(): (n: nat)
      reads this, inner
      requires Valid()
      ensures n < NONCE_SPACE
    {
      Pow256Twelve();
      LittleEndian(inner[..])
    }

    constructor ()
      ensures Valid() && fresh(inner) && Count() == 0
    {
      inner := new Byte[ENC_NONCE_LEN](_ => 0);
      new;
      ZerosSpellZero(inner[..]);
    }

    /** Hands out the current nonce and moves to the next one, wrapping at the end of the space. */
    method NextNonce() returns (nonce: seq<Byte>)
      requires Valid()
      modifies inner
      ensures Valid()
      ensures nonce == Encode(old(Count()), ENC_NONCE_LEN)
      ensures Count() == SuccNonce(old(Count()))
    {
      nonce := inner[..];
      EncodeSpelled(nonce);
      IncreaseNonce(inner);
      Pow256Twelve();
      SuccIsMod(LittleEndian(nonce));
    }
  }

  lemma {:induction false} ZerosSpellZero(s: seq<Byte>)
    requires forall i :: 0 <= i < |s| ==> s[i] == 0
    ensures LittleEndian(s) == 0
  {
    if s != [] {
      ZerosSpellZero(s[1..]);
    }
  }

  lemma EncodeSpelled(bytes: seq<Byte>)
    ensures Encode(LittleEndian(bytes), |bytes|) == bytes
  {
    var n := LittleEndian(bytes);
    EncodeSpells(n, |bytes|);
    ModUnique(n, Pow256(|bytes|), 0, n);
    SpellsInjective(bytes, Encode(n, |bytes|));
  }

  lemma Pow256Twelve()
    ensures Pow256(ENC_NONCE_LEN) == NONCE_SPACE
  {
    assert Pow256(2) == 0x1_0000;
    assert Pow256(4) == 0x1_0000_0000;
    assert Pow256(6) == 0x1_0000_0000_0000;
    assert Pow256(8) == 0x1_0000_0000_0000_0000;
    assert Pow256(10) == 0x1_0000_0000_0000_0000_0000;
  }

  /** Counting on from equal nonces keeps them equal, also across the wrap. */
  lemma DrawStep(count: nat, n: nat)
    requires count < NONCE_SPACE && Encode(count, ENC_NONCE_LEN) == Encode(n, ENC_NONCE_LEN)
    ensures Encode(SuccNonce(count), ENC_NONCE_LEN) == Encode(n + 1, ENC_NONCE_LEN)
  {
    NoncesRepeatOnlyAfterWrap(count, n);
    NoncesRepeatOnlyAfterWrap(SuccNonce(count), n + 1);
    SuccIsMod(count);
    ModUnique(count, NONCE_SPACE, 0, count);
    ModSucc(n, NONCE_SPACE);
    ModUnique(SuccNonce(count), NONCE_SPACE, 0, SuccNonce(count));
  }

  /** `nonces` are the first nonces of a fresh counter: the encodings of 0, 1, 2, ... */
  ghost predicate Drawn(nonces: seq<seq<Byte>>, len: nat) {
    forall k :: 0 <= k < |nonces| ==> nonces[k] == Encode(k, len)
  }

  /** The counter stands where it is after `n` draws. */
  ghost predicate StandsAt(count: nat, n: nat) {
    Encode(count, ENC_NONCE_LEN) == Encode(n, ENC_NONCE_LEN)
  }

  /** The draw after the draws of `nonces`. */
  method DrawNext(counter: EncryptNonceCounter, nonces: seq<seq<Byte>>) returns (more: seq<seq<Byte>>)
    requires counter.Valid() && StandsAt(counter.Count(), |nonces|) && Drawn(nonces, ENC_NONCE_LEN)
    modifies counter.inner
    ensures counter.Valid() && StandsAt(counter.Count(), |nonces| + 1)
    ensures Drawn(more, ENC_NONCE_LEN) && |more| == |nonces| + 1
  {
    StandsNext(counter.Count(), |nonces|);
    var nonce := counter.NextNonce();
    DrawnNext(nonces, nonce, ENC_NONCE_LEN);
    more := nonces + [nonce];
  }

  lemma StandsNext(count: nat, n: nat)
    requires count < NONCE_SPACE && StandsAt(count, n)
    ensures StandsAt(SuccNonce(count), n + 1)
  {
    DrawStep(count, n);
  }

  lemma DrawnNext(nonces: seq<seq<Byte>>, nonce: seq<Byte>, len: nat)
    requires Drawn(nonces, len) && nonce == Encode(|nonces|, len)
    ensures Drawn(nonces + [nonce], len)
  {
  }

  /** The first `count` nonces of a fresh counter. */
  method DrawNonces(count: nat) returns (nonces: seq<seq<Byte>>)
    ensures |nonces| == count && Drawn(nonces, ENC_NONCE_LEN)
  {
    var counter := new EncryptNonceCounter();
    nonces := [];
    for i := 0 to count
      invariant counter.Valid() && fresh(counter) && fresh(counter.inner)
      invariant StandsAt(counter.Count(), i) && |nonces| == i && Drawn(nonces, ENC_NONCE_LEN)
    {
      nonces := DrawNext(counter, nonces);
    }
  }

  /** The nonces of two draws agree exactly when their numbers agree modulo 2^96. */
  lemma NoncesRepeatOnlyAfterWrap(i: nat, j: nat)
    ensures Encode(i, ENC_NONCE_LEN) == Encode(j, ENC_NONCE_LEN) <==> i % NONCE_SPACE == j % NONCE_SPACE
  {
    Pow256Twelve();
    EncodeSpells(i, ENC_NONCE_LEN);
    EncodeSpells(j, ENC_NONCE_LEN);
    if i % NONCE_SPACE == j % NONCE_SPACE {
      SpellsInjective(Encode(i, ENC_NONCE_LEN), Encode(j, ENC_NONCE_LEN));
    }
  }

  /** The first 2^96 nonces are pairwise distinct. */
  lemma FirstNoncesDistinct(i: nat, j: nat)
    requires i < j < NONCE_SPACE
    ensures Encode(i, ENC_NONCE_LEN) != Encode(j, ENC_NONCE_LEN)
  {
    NoncesRepeatOnlyAfterWrap(i, j);
    ModUnique(i, NONCE_SPACE, 0, i);
    ModUnique(j, NONCE_SPACE, 0, j);
  }

  // ---------------------------------------------------------------- ideal authenticated encryption

  /** A sealed plaintext, or bytes that no key ever sealed. */
  datatype Box<K, M> = Sealed(key: K, nonce: nat, plain: M) | Junk(noise: nat)

  /** The nonce prefix of a message, followed by the box. */
  datatype CipherText<K, M> = CipherText(nonce: nat, box: Box<K, M>)

  /** One end of a keyed stream: its key and the nonce it will use, or expect, next. */
  datatype Cipher<K> = Cipher(key: K, nonce: nat)

  function NewCipher<K>(key: K): Cipher<K> {
    Cipher(key, 0)
  }

  function Advance<K>(c: Cipher<K>): Cipher<K> {
    c.(nonce := SuccNonce(c.nonce))
  }

  function Seal<K, M>(c: Cipher<K>, plain: M): CipherText<K, M> {
    CipherText(c.nonce, Sealed(c.key, c.nonce, plain))
  }

  /** What decryption yields: nothing unless the prefix is the expected nonce and the box opens. */
  function Open<K(==), M>(c: Cipher<K>, msg: CipherText<K, M>): Option<M> {
    if msg.nonce != c.nonce then None
    else match msg.box
      case Junk(_) => None
      case Sealed(key, nonce, plain) => if key == c.key && nonce == msg.nonce then Some(plain) else None
  }

  class Encryptor<K, M> {
    const key: K
    const nonceCounter: EncryptNonceCounter

    ghost predicate Valid()
      reads this, nonceCounter
    {
      nonceCounter.Valid()
    }

    ghost function View(): Cipher<K>
      reads this, nonceCounter, nonceCounter.inner
      requires Valid()
    {
      Cipher(key, nonceCounter.Count())
    }

    constructor (key: K)
      ensures Valid() && fresh(nonceCounter.inner) && View() == NewCipher(key)
    {
      this.key := key;
      nonceCounter := new EncryptNonceCounter();
    }

    method Encrypt(plain: M) returns (msg: CipherText<K, M>)
      requires Valid()
      modifies nonceCounter.inner
      ensures Valid() && View() == Advance(old(View())) && msg == Seal(old(View()), plain)
    {
      var bytes := nonceCounter.NextNonce();
      var nonce := LittleEndian(bytes);
      Pow256Twelve();
      EncodeSpells(old(nonceCounter.Count()), ENC_NONCE_LEN);
      ModUnique(old(nonceCounter.Count()), NONCE_SPACE, 0, old(nonceCounter.Count()));
      msg := CipherText(nonce, Sealed(key, nonce, plain));
    }
  }

  class Decryptor<K(==), M> {
    const key: K
    const nonceCounter: EncryptNonceCounter

    ghost predicate Valid()
      reads this, nonceCounter
    {
      nonceCounter.Valid()
    }

    ghost function View(): Cipher<K>
      reads this, nonceCounter, nonceCounter.inner
      requires Valid()
    {
      Cipher(key, nonceCounter.Count())
    }

    constructor (key: K)
      ensures Valid() && fresh(nonceCounter.inner) && View() == NewCipher(key)
    {
      this.key := key;
      nonceCounter := new EncryptNonceCounter();
    }

    /** A failed decryption leaves the expected nonce where it was. */
    method Decrypt(msg: CipherText<K, M>) returns (r: Option<M>)
      requires Valid()
      modifies nonceCounter.inner
      ensures Valid() && r == Open(old(View()), msg)
      ensures View() == if r.Some? then Advance(old(View())) else old(View())
    {
      var expected := LittleEndian(nonceCounter.inner[..]);
      if msg.nonce != expected {
        return None;
      }
      match msg.box {
        case Junk(_) => return None;
        case Sealed(k, n, plain) =>
          if k != key || n != msg.nonce {
            return None;
          }
          var _ := nonceCounter.NextNonce();
          r := Some(plain);
      }
    }
  }

  // ---------------------------------------------------------------- what a decryptor can accept

  /** The messages an encryptor produces for `plains`, in order. */
  function EncryptAll<K, M>(c: Cipher<K>, plains: seq<M>): (msgs: seq<CipherText<K, M>>)
    ensures |msgs| == |plains|
    decreases |plains|
  {
    if plains == [] then [] else [Seal(c, plains[0])] + EncryptAll(Advance(c), plains[1..])
  }

  /** The plaintexts a decryptor accepts when it is fed `msgs`, in order; failures are skipped. */
  function DecryptAll<K(==), M>(c: Cipher<K>, msgs: seq<CipherText<K, M>>): seq<M>
    decreases |msgs|
  {
    if msgs == [] then [] else
    match Open(c, msgs[0])
    case None => DecryptAll(c, msgs[1..])
    case Some(plain) => [plain] + DecryptAll(Advance(c), msgs[1..])
  }

  /** Unforgeability: every box in `fed` sealed under `key` is a box the encryptor produced. */
  ghost predicate Authentic<K, M>(key: K, plains: seq<M>, fed: seq<CipherText<K, M>>) {
    var sent := EncryptAll(NewCipher(key), plains);
    forall m <- fed :: m.box.Sealed? && m.box.key == key ==> exists s <- sent :: m.box == s.box
  }

  /** The cipher after `n` messages. */
  function After<K>(c: Cipher<K>, n: nat): Cipher<K> {
    if n == 0 then c else Advance(After(c, n - 1))
  }

  lemma {:induction false} AfterFirst<K>(c: Cipher<K>, n: nat)
    ensures After(c, n + 1) == After(Advance(c), n)
  {
    if n > 0 {
      AfterFirst(c, n - 1);
    }
  }

  lemma {:induction false} AfterNonce<K>(key: K, n: nat)
    ensures After(NewCipher(key), n) == Cipher(key, n % NONCE_SPACE)
  {
    if n > 0 {
      AfterNonce(key, n - 1);
      SuccIsMod((n - 1) % NONCE_SPACE);
      ModSucc(n - 1, NONCE_SPACE);
    }
  }

  lemma {:induction false} SentAt<K, M>(c: Cipher<K>, plains: seq<M>, j: nat)
    requires j < |plains|
    ensures EncryptAll(c, plains)[j] == Seal(After(c, j), plains[j])
    decreases j
  {
    if j > 0 {
      AfterFirst(c, j - 1);
      SentAt(Advance(c), plains[1..], j - 1);
    }
  }

  lemma {:induction false} AcceptedFrom<K, M>(key: K, plains: seq<M>, fed: seq<CipherText<K, M>>, i: nat)
    requires i <= |plains| < NONCE_SPACE && Authentic(key, plains, fed)
    ensures DecryptAll(Cipher(key, i), fed) <= plains[i..]
  {
    if fed != [] {
      if Open(Cipher(key, i), fed[0]).Some? {
        OpensOnlyNext(key, plains, fed[0].box, i);
        AcceptedFrom(key, plains, fed[1..], i + 1);
        assert plains[i..] == [plains[i]] + plains[i + 1..];
      } else {
        AcceptedFrom(key, plains, fed[1..], i);
      }
    }
  }

  /** Below 2^96 messages, only the i-th box carries nonce `i`. */
  lemma OpensOnlyNext<K, M>(key: K, plains: seq<M>, box: Box<K, M>, i: nat)
    requires |plains| < NONCE_SPACE && box.Sealed? && box.nonce == i
    requires exists s <- EncryptAll(NewCipher(key), plains) :: box == s.box
    ensures i < |plains| && box.plain == plains[i]
  {
    var sent := EncryptAll(NewCipher(key), plains);
    var s :| s in sent && box == s.box;
    var j :| 0 <= j < |sent| && sent[j] == s;
    SentAt(NewCipher(key), plains, j);
    AfterNonce(key, j);
    ModUnique(j, NONCE_SPACE, 0, j);
  }

  lemma {:induction false} DecryptsOwnStream<K, M>(c: Cipher<K>, plains: seq<M>, rest: seq<CipherText<K, M>>)
    ensures DecryptAll(c, EncryptAll(c, plains) + rest) == plains + DecryptAll(After(c, |plains|), rest)
    decreases |plains|
  {
    var msgs := EncryptAll(c, plains) + rest;
    if plains == [] {
      assert msgs == rest;
    } else {
      assert msgs[1..] == EncryptAll(Advance(c), plains[1..]) + rest;
      DecryptsOwnStream(Advance(c), plains[1..], rest);
      AfterFirst(c, |plains| - 1);
      assert plains == [plains[0]] + plains[1..];
    }
  }

  lemma ReplayIsAuthentic<K, M>(key: K, plains: seq<M>, j: nat)
    requires j < |plains|
    ensures Authentic(key, plains, Replayed(NewCipher(key), plains, j))
  {
    var sent := EncryptAll(NewCipher(key), plains);
    forall m <- sent + [sent[j]] ensures exists s <- sent :: m.box == s.box {
      assert m in sent;
    }
  }

  lemma CipherWraps<K>(key: K, j: nat, n: nat)
    requires n == j + NONCE_SPACE
    ensures After(NewCipher(key), j) == After(NewCipher(key), n)
  {
    AfterNonce(key, j);
    AfterNonce(key, n);
    ModUnique(n, NONCE_SPACE, j / NONCE_SPACE + 1, j % NONCE_SPACE);
  }

  lemma DecryptOne<K, M>(c: Cipher<K>, plain: M)
    ensures DecryptAll(c, [Seal(c, plain)]) == [plain]
  {
    assert [Seal(c, plain)][1..] == [];
  }

  lemma ReplayDecrypts<K, M>(c: Cipher<K>, plains: seq<M>, j: nat)
    requires j < |plains| && After(c, j) == After(c, |plains|)
    ensures DecryptAll(c, Replayed(c, plains, j)) == plains + [plains[j]]
  {
    var replayed := EncryptAll(c, plains)[j];
    SentAt(c, plains, j);
    DecryptOne(After(c, |plains|), plains[j]);
    DecryptsOwnStream(c, plains, [replayed]);
  }

  /** The encrypted stream, and one of its messages again. */
  function Replayed<K, M>(c: Cipher<K>, plains: seq<M>, j: nat): seq<CipherText<K, M>>
    requires j < |plains|
  {
    EncryptAll(c, plains) + [EncryptAll(c, plains)[j]]
  }

  /** From 2^96 messages on the expected nonce has wrapped, and one more old message is accepted after
      the whole stream. */
  lemma ReplayAcceptedAfterWrap<K, M>(key: K, plains: seq<M>, j: nat)
    requires |plains| == j + NONCE_SPACE
    ensures Authentic(key, plains, Replayed(NewCipher(key), plains, j))
    ensures DecryptAll(NewCipher(key), Replayed(NewCipher(key), plains, j)) == plains + [plains[j]]
  {
    ReplayIsAuthentic(key, plains, j);
    CipherWraps(key, j, |plains|);
    ReplayDecrypts(NewCipher(key), plains, j);
  }

  /** Whatever it is fed, in any order, a decryptor accepts a prefix of what was encrypted, without
      repeats: exactly as long as fewer than 2^96 messages were encrypted under the key. */
  lemma DecryptorAcceptsPrefixIff<K(!new), M(!new)>(key: K, plains: seq<M>)
    ensures (forall fed :: Authentic(key, plains, fed) ==> DecryptAll(NewCipher(key), fed) <= plains)
       <==> |plains| < NONCE_SPACE
  {
    if |plains| < NONCE_SPACE {
      forall fed | Authentic(key, plains, fed) ensures DecryptAll(NewCipher(key), fed) <= plains {
        AcceptedFrom(key, plains, fed, 0);
        assert plains[0..] == plains;
      }
    } else {
      var j := |plains| - NONCE_SPACE;
      ReplayAcceptedAfterWrap(key, plains, j);
      var fed := Replayed(NewCipher(key), plains, j);
      assert Authentic(key, plains, fed) && |DecryptAll(NewCipher(key), fed)| > |plains|;
    }
  }
}

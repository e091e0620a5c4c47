/** A sliding window that accepts each nonce once (components/crypto/src/nonce_window.rs).

    The window is one bit string of `width` bits kept in 64-bit words, most significant bit first. Its rightmost
    bit stands for the highest nonce seen, the bit to its left for the nonce below, and so on. */
module NonceWindow {
  import opened Integers

  // ---------------------------------------------------------------- machine words

  /** A `u64` is its 64 bits, the most significant one first. */
  type Word = w: seq<bool> | |w| == 64 witness seq(64, _ => false)

  function Zeros(n: nat): (r: seq<bool>)
    ensures |r| == n && forall i :: 0 <= i < n ==> !r[i]
  {
    seq(n, _ => false)
  }

  /** The machine operation `w << n`. */
  function ShiftWordLeft(w: Word, n: nat): Word
    requires n < 64
  {
    w[n..] + Zeros(n)
  }

  /** The machine operation `w >> n`. */
  function ShiftWordRight(w: Word, n: nat): Word
    requires n < 64
  {
    Zeros(n) + w[..64 - n]
  }

  function Or(w: Word, v: Word): Word {
    seq(64, i requires 0 <= i < 64 => w[i] || v[i])
  }

  function And(w: Word, v: Word): Word {
    seq(64, i requires 0 <= i < 64 => w[i] && v[i])
  }

  const ZERO: Word := Zeros(64)
  const ONE: Word := Zeros(63) + [true]

  // ---------------------------------------------------------------- the window as one bit string

  /** The words one after the other. */
  function BitString(blocks: seq<Word>): (r: seq<bool>)
    ensures |r| == 64 * |blocks|
  {
    if blocks == [] then [] else BitString(blocks[..|blocks| - 1]) + blocks[|blocks| - 1]
  }

  lemma {:induction false} BitStringConcat(a: seq<Word>, b: seq<Word>)
    ensures BitString(a + b) == BitString(a) + BitString(b)
    decreases |b|
  {
    if b == [] {
      assert a + b == a;
    } else {
      var n := |b| - 1;
      BitStringConcat(a, b[..n]);
      assert (a + b)[..|a| + n] == a + b[..n];
    }
  }

  lemma {:induction false} BitStringZeros(n: nat)
    ensures BitString(seq(n, _ => ZERO)) == Zeros(64 * n)
  {
    if n > 0 {
      BitStringZeros(n - 1);
      assert seq(n, _ => ZERO)[..n - 1] == seq(n - 1, _ => ZERO);
    }
  }

  /** A bit string shifted left: bits fall off on the left, zeros come in on the right. */
  function Shifted(bits: seq<bool>, n: nat): (r: seq<bool>)
    ensures |r| == |bits|
  {
    if n >= |bits| then Zeros(|bits|) else bits[n..] + Zeros(n)
  }

  lemma ShiftedTwice(bits: seq<bool>, n: nat, m: nat)
    ensures Shifted(Shifted(bits, n), m) == Shifted(bits, n + m)
  {
  }

  lemma PrefixDropped(a: seq<bool>, x: seq<bool>, y: seq<bool>)
    requires |a| < |y| && a + x == y + Zeros(|a|)
    ensures x == Shifted(y, |a|)
  {
    assert x == (a + x)[|a|..];
  }

  lemma ShiftedCapped(bits: seq<bool>, n: nat)
    ensures Shifted(bits, if n < |bits| then n else |bits|) == Shifted(bits, n)
  {
  }

  /** A word shifted left and refilled from the next one. */
  lemma Joined(w: Word, next: Word, n: nat)
    requires 0 < n < 64
    ensures Or(ShiftWordLeft(w, n), ShiftWordRight(next, 64 - n)) == w[n..] + next[..n]
  {
  }

  /** The shift of the first `k` words is done; their last bits come from word `k`. */
  ghost predicate ShiftedUpTo(words: seq<Word>, blocks: seq<Word>, n: nat, k: nat)
    requires n < 64 && k < |words| == |blocks|
  {
    words[0][..n] + BitString(blocks[..k]) == BitString(words[..k]) + words[k][..n]
  }

  lemma Glue(h: seq<bool>, b: seq<bool>, p: seq<bool>, w: Word, n: nat, z: seq<bool>)
    requires n < 64 && h + b == p + w[..n]
    ensures h + (b + (w[n..] + z)) == (p + w) + z
  {
    assert w[..n] + w[n..] == w;
    assert h + (b + (w[n..] + z)) == (h + b) + w[n..] + z;
    assert (p + w[..n]) + w[n..] == p + w;
  }

  lemma ShiftNext(words: seq<Word>, blocks: seq<Word>, n: nat, k: nat)
    requires n < 64 && k + 1 < |words| == |blocks| && ShiftedUpTo(words, blocks, n, k)
    requires blocks[k] == words[k][n..] + words[k + 1][..n]
    ensures ShiftedUpTo(words, blocks, n, k + 1)
  {
    assert blocks[..k + 1][..k] == blocks[..k] && words[..k + 1][..k] == words[..k];
    Glue(words[0][..n], BitString(blocks[..k]), BitString(words[..k]), words[k], n, words[k + 1][..n]);
  }

  lemma ShiftLast(words: seq<Word>, blocks: seq<Word>, n: nat)
    requires n < 64 && 0 < |words| == |blocks| && ShiftedUpTo(words, blocks, n, |words| - 1)
    requires blocks[|words| - 1] == words[|words| - 1][n..] + Zeros(n)
    ensures BitString(blocks) == Shifted(BitString(words), n)
  {
    var k := |words| - 1;
    Glue(words[0][..n], BitString(blocks[..k]), BitString(words[..k]), words[k], n, Zeros(n));
    PrefixDropped(words[0][..n], BitString(blocks), BitString(words));
  }

  /** The word loop of the shift, for less than a word. */
  method ShiftBits(words: seq<Word>, nbits: nat) returns (blocks: seq<Word>)
    requires 0 < nbits < 64 && |words| > 0
    ensures |blocks| == |words| && BitString(blocks) == Shifted(BitString(words), nbits)
  {
    blocks := words;
    var len := |blocks|;
    for i := 0 to len - 1
      invariant |blocks| == len && ShiftedUpTo(words, blocks, nbits, i)
      invariant forall j :: i <= j < len ==> blocks[j] == words[j]
    {
      ghost var before := blocks;
      Joined(blocks[i], blocks[i + 1], nbits);
      blocks := blocks[i := ShiftWordLeft(blocks[i], nbits)];
      blocks := blocks[i := Or(blocks[i], ShiftWordRight(blocks[i + 1], 64 - nbits))];
      assert blocks[..i] == before[..i];
      ShiftNext(words, blocks, nbits, i);
    }
    ghost var before := blocks;
    blocks := blocks[len - 1 := ShiftWordLeft(blocks[len - 1], nbits)];
    assert blocks[..len - 1] == before[..len - 1];
    ShiftLast(words, blocks, nbits);
  }

  lemma PrefixMoved(a: seq<bool>, b: seq<bool>)
    requires |b| > 0
    ensures b + Zeros(|a|) == Shifted(a + b, |a|)
  {
  }

  lemma MovedBits(words: seq<Word>, n: nat)
    requires n < |words|
    ensures BitString(words[n..] + seq(n, _ => ZERO)) == Shifted(BitString(words), 64 * n)
  {
    var front, back := words[..n], words[n..];
    BitStringConcat(back, seq(n, _ => ZERO));
    BitStringZeros(n);
    assert words == front + back;
    BitStringConcat(front, back);
    PrefixMoved(BitString(front), BitString(back));
  }

  lemma CountSplits(count: nat, len: nat)
    requires count < 64 * len
    ensures count / 64 < len && count == 64 * (count / 64) + count % 64 && count % 64 < 64
  {
  }

  /** The part of the shift that moves whole words. */
  method MoveWords(words: seq<Word>, nwords: nat) returns (blocks: seq<Word>)
    requires nwords < |words|
    ensures |blocks| == |words| && BitString(blocks) == Shifted(BitString(words), 64 * nwords)
  {
    MovedBits(words, nwords);
    blocks := words[nwords..] + seq(nwords, _ => ZERO);
  }

  /** The logical left shift of a vector of words shifts its bit string. */
  method ShiftLeft(words: seq<Word>, count: nat) returns (blocks: seq<Word>)
    ensures |blocks| == |words| && BitString(blocks) == Shifted(BitString(words), count)
  {
    blocks := words;
    var len := |blocks|;
    if count > 0 {
      if count >= len * 64 {
        BitStringZeros(len);
        blocks := seq(len, _ => ZERO);
      } else {
        var nwords, nbits := count / 64, count % 64;
        CountSplits(count, len);
        blocks := MoveWords(words, nwords);
        ShiftedTwice(BitString(words), 64 * nwords, nbits);
        if nbits > 0 {
          blocks := ShiftBits(blocks, nbits);
        }
      }
    }
  }

  /** The word whose only bit is the one at place `b`. */
  lemma MaskBits(b: nat)
    requires b < 64
    ensures ShiftWordLeft(ONE, 63 - b) == Zeros(64)[b := true]
  {
  }

  lemma MaskTests(w: Word, b: nat)
    requires b < 64
    ensures And(w, ShiftWordLeft(ONE, 63 - b)) == ShiftWordLeft(ONE, 63 - b) <==> w[b]
    ensures Or(w, ShiftWordLeft(ONE, 63 - b)) == w[b := true]
  {
    var mask := ShiftWordLeft(ONE, 63 - b);
    MaskBits(b);
    assert And(w, mask)[b] == w[b];
    assert w[b] ==> And(w, mask) == mask;
    assert Or(w, mask) == w[b := true];
  }

  /** A bit of the window, found and set in its word. */
  lemma {:induction false} WordBits(words: seq<Word>, k: nat, b: nat)
    requires k < |words| && b < 64
    ensures BitString(words)[64 * k + b] == words[k][b]
    ensures BitString(words[k := words[k][b := true]]) == BitString(words)[64 * k + b := true]
    decreases |words|
  {
    var n := |words| - 1;
    if k < n {
      WordBits(words[..n], k, b);
      assert words[k := words[k][b := true]][..n] == words[..n][k := words[k][b := true]];
    } else {
      assert words[k := words[k][b := true]][..n] == words[..n];
    }
  }

  // ---------------------------------------------------------------- what a window is for

  /** The nonces accepted so far and the highest of them, 0 at the start. */
  datatype Record = Record(accepted: set<int>, highest: int)

  const EMPTY := Record({}, 0)

  /** `n` was never accepted and is not too old. */
  predicate Fresh(width: nat, record: Record, n: U128) {
    n !in record.accepted && n + width > record.highest
  }

  function Offer(width: nat, record: Record, n: U128): Record {
    if Fresh(width, record, n)
    then Record(record.accepted + {n}, if n > record.highest then n else record.highest)
    else record
  }

  function After(width: nat, nonces: seq<U128>): Record {
    if nonces == [] then EMPTY else Offer(width, After(width, nonces[..|nonces| - 1]), nonces[|nonces| - 1])
  }

  /** The verdict on the i-th of a sequence of offers. */
  predicate AcceptedAt(width: nat, nonces: seq<U128>, i: nat)
    requires i < |nonces|
  {
    Fresh(width, After(width, nonces[..i]), nonces[i])
  }

  predicate Consistent(record: Record) {
    && 0 <= record.highest <= U128_MAX
    && (record.highest == 0 || record.highest in record.accepted)
    && forall n :: n in record.accepted ==> 0 <= n <= record.highest
  }

  /** Whatever was offered, the highest accepted nonce is the highest offered one. */
  lemma {:induction false} HighestOffered(width: nat, nonces: seq<U128>)
    ensures Consistent(After(width, nonces))
    ensures forall i :: 0 <= i < |nonces| ==> nonces[i] <= After(width, nonces).highest
    decreases |nonces|
  {
    if nonces != [] {
      HighestOffered(width, nonces[..|nonces| - 1]);
    }
  }

  lemma {:induction false} AcceptedStays(width: nat, nonces: seq<U128>, i: nat)
    requires i <= |nonces|
    ensures After(width, nonces[..i]).accepted <= After(width, nonces).accepted
    decreases |nonces|
  {
    if i < |nonces| {
      AcceptedStays(width, nonces[..|nonces| - 1], i);
      assert nonces[..|nonces| - 1][..i] == nonces[..i];
    } else {
      assert nonces[..i] == nonces;
    }
  }

  /** In no sequence of offers is a nonce accepted twice. */
  lemma NoNonceTwice(width: nat, nonces: seq<U128>, i: nat, j: nat)
    requires i < j < |nonces|
    requires AcceptedAt(width, nonces, i) && AcceptedAt(width, nonces, j)
    ensures nonces[i] != nonces[j]
  {
    assert nonces[..i + 1][..i] == nonces[..i];
    assert nonces[..j][..i + 1] == nonces[..i + 1];
    AcceptedStays(width, nonces[..j], i + 1);
  }

  /** A nonce offered for the first time is accepted unless one at least `width` higher came before. */
  lemma FirstOfferAccepted(width: nat, nonces: seq<U128>, n: U128)
    requires width > 0
    requires forall i :: 0 <= i < |nonces| ==> nonces[i] != n && nonces[i] < n + width
    ensures Fresh(width, After(width, nonces), n)
  {
    AcceptedWereOffered(width, nonces);
  }

  /** Whatever was offered has been accepted or is too old for good. */
  lemma {:induction false} OfferedIsSettled(width: nat, nonces: seq<U128>, i: nat)
    requires i < |nonces|
    ensures var record := After(width, nonces); nonces[i] in record.accepted || nonces[i] + width <= record.highest
    decreases |nonces|
  {
    if i < |nonces| - 1 {
      OfferedIsSettled(width, nonces[..|nonces| - 1], i);
    }
  }

  /** A nonce is accepted exactly if it is offered for the first time and none at least `width` higher came before. */
  lemma AcceptedIff(width: nat, nonces: seq<U128>, n: U128)
    requires width > 0
    ensures Fresh(width, After(width, nonces), n)
       <==> forall i :: 0 <= i < |nonces| ==> nonces[i] != n && nonces[i] < n + width
  {
    if Fresh(width, After(width, nonces), n) {
      HighestOffered(width, nonces);
      forall i | 0 <= i < |nonces| ensures nonces[i] != n {
        OfferedIsSettled(width, nonces, i);
      }
    } else if forall i :: 0 <= i < |nonces| ==> nonces[i] != n && nonces[i] < n + width {
      FirstOfferAccepted(width, nonces, n);
    }
  }

  lemma {:induction false} AcceptedWereOffered(width: nat, nonces: seq<U128>)
    ensures forall n :: n in After(width, nonces).accepted ==> n in nonces
    ensures After(width, nonces).highest == 0 || After(width, nonces).highest in nonces
    decreases |nonces|
  {
    if nonces != [] {
      AcceptedWereOffered(width, nonces[..|nonces| - 1]);
    }
  }

  // ---------------------------------------------------------------- the window

  /** The nonce that the i-th bit from the left stands for. */
  function NonceAt(bits: seq<bool>, highest: int, i: nat): int {
    highest - (|bits| - 1 - i)
  }

  /** The bits tell which of the nonces in the window were accepted. */
  ghost predicate Represents(bits: seq<bool>, record: Record) {
    forall i :: 0 <= i < |bits| ==> (bits[i] <==> NonceAt(bits, record.highest, i) in record.accepted)
  }

  /** Moving the window up to a higher nonce and marking it. */
  lemma AdvanceRepresents(bits: seq<bool>, record: Record, n: U128)
    requires |bits| > 0 && Represents(bits, record) && Consistent(record) && n > record.highest
    ensures Represents(Shifted(bits, n - record.highest)[|bits| - 1 := true], Offer(|bits|, record, n))
  {
    var d, last := n - record.highest, |bits| - 1;
    var shifted := Shifted(bits, d)[last := true];
    forall i | 0 <= i < |bits| ensures shifted[i] <==> NonceAt(shifted, n, i) in record.accepted + {n} {
      if i + d < |bits| {
        assert shifted[i] == bits[i + d] && NonceAt(shifted, n, i) == NonceAt(bits, record.highest, i + d);
      } else {
        assert shifted[i] == (i == last);
      }
    }
  }

  /** Marking a nonce inside the window. */
  lemma MarkRepresents(bits: seq<bool>, record: Record, n: U128)
    requires Represents(bits, record) && Consistent(record) && n <= record.highest < n + |bits|
    ensures var place := |bits| - 1 - (record.highest - n);
            && bits[place] != Fresh(|bits|, record, n)
            && Represents(bits[place := true], Offer(|bits|, record, n))
  {
    var place := |bits| - 1 - (record.highest - n);
    assert NonceAt(bits, record.highest, place) == n;
  }

  /** Moving the window up to a nonce that is not below the highest one, and marking it. */
  lemma MoveRepresents(bits: seq<bool>, record: Record, n: U128)
    requires |bits| > 0 && Represents(bits, record) && Consistent(record) && n >= record.highest
    ensures var shifted := Shifted(bits, n - record.highest);
            && shifted[|bits| - 1] != Fresh(|bits|, record, n)
            && Represents(shifted[|bits| - 1 := true], Offer(|bits|, record, n))
  {
    if n == record.highest {
      assert Shifted(bits, 0) == bits;
      MarkRepresents(bits, record, n);
    } else {
      AdvanceRepresents(bits, record, n);
    }
  }

  lemma OfferConsistent(width: nat, record: Record, n: U128)
    requires Consistent(record)
    ensures Consistent(Offer(width, record, n))
    ensures Offer(width, record, n).highest == if n > record.highest then n else record.highest
  {
  }

  class NonceWindow {
    var nonce: U128
    var blocks: seq<Word>
    ghost var record: Record

    function Width(): nat
      reads this
    {
      64 * |blocks|
    }

    ghost predicate Valid()
      reads this
    {
      && nonce == record.highest
      && Consistent(record)
      && Represents(BitString(blocks), record)
    }

    constructor (width: nat)
      requires width % 64 == 0
      ensures Valid() && Width() == width && record == EMPTY
    {
      nonce := 0;
      blocks := seq(width / 64, _ => ZERO);
      record := EMPTY;
      BitStringZeros(width / 64);
    }

    /** Sets the bit for age `i` and returns its old value. */
    method Set(i: nat) returns (oldBit: bool)
      requires i < Width()
      modifies this`blocks
      ensures Width() == old(Width())
      ensures oldBit == old(BitString(blocks)[Width() - 1 - i])
      ensures BitString(blocks) == old(BitString(blocks)[Width() - 1 - i := true])
    {
      var place := Width() - 1 - i;
      var mask := ShiftWordLeft(ONE, 64 - 1 - place % 64);
      var word := blocks[place / 64];
      MaskTests(word, place % 64);
      WordBits(blocks, place / 64, place % 64);
      oldBit := And(word, mask) == mask;
      blocks := blocks[place / 64 := Or(word, mask)];
    }

    /** Accepts a nonce exactly when it is fresh. A window without bits fails on its first offer. */
    method TryAccept(n: U128) returns (ok: bool)
      requires Valid() && Width() > 0
      modifies this
      ensures Valid() && Width() == old(Width())
      ensures ok == Fresh(Width(), old(record), n) && record == Offer(Width(), old(record), n)
    {
      ghost var bits := BitString(blocks);
      var width := Width();
      OfferConsistent(width, record, n);
      record := Offer(width, record, n);
      if n < nonce {
        var dif := nonce - n;
        if dif >= width {
          return false;
        }
        MarkRepresents(bits, old(record), n);
        var oldBit := Set(dif);
        assert Represents(BitString(blocks), record);
        return !oldBit;
      }
      var dif := n - nonce;
      MoveRepresents(bits, old(record), n);
      ShiftedCapped(bits, dif);
      ok := MoveTo(n, if dif < width then dif else width);
    }

    /** The end of `TryAccept`: shifts the window, takes over the nonce and sets its bit. */
    method MoveTo(n: U128, count: nat) returns (ok: bool)
      requires |blocks| > 0
      modifies this`blocks, this`nonce
      ensures Width() == old(Width()) && nonce == n
      ensures ok == !Shifted(old(BitString(blocks)), count)[Width() - 1]
      ensures BitString(blocks) == Shifted(old(BitString(blocks)), count)[Width() - 1 := true]
    {
      blocks := ShiftLeft(blocks, count);
      nonce := n;
      var oldBit := Set(0);
      ok := !oldBit;
    }
  }

  /** A whole sequence of offers to a new window; a window without bits takes none. */
  method OfferAll(width: nat, nonces: seq<U128>) returns (results: seq<bool>)
    requires width % 64 == 0 && (width == 0 ==> nonces == [])
    ensures |results| == |nonces|
    ensures forall i :: 0 <= i < |nonces| ==> results[i] == AcceptedAt(width, nonces, i)
  {
    var window := new NonceWindow(width);
    results := [];
    for i := 0 to |nonces|
      invariant window.Valid() && window.Width() == width && window.record == After(width, nonces[..i])
      invariant |results| == i
      invariant forall j :: 0 <= j < i ==> results[j] == AcceptedAt(width, nonces, j)
    {
      var ok := window.TryAccept(nonces[i]);
      assert nonces[..i + 1][..i] == nonces[..i];
      results := results + [ok];
    }
  }
}

/** Comparing identifiers over ranges of bits, by masking bytes. */
module Bits {
  type Byte = bv8

  const ID_LEN := 32
  const NUM_BITS := 256
  const BITS_PER_BYTE := 8

  type Id = s: seq<Byte> | |s| == ID_LEN witness seq(ID_LEN, _ => 0)

  /** A shift amount, as a bit vector. */
  function Amount(k: nat): (r: Byte)
    requires k <= 8
    ensures r <= 8
  {
    if k == 0 then 0 else if k == 1 then 1 else if k == 2 then 2 else if k == 3 then 3 else if k == 4 then 4
    else if k == 5 then 5 else if k == 6 then 6 else if k == 7 then 7 else 8
  }

  /** The value of a bit of a byte; bit 0 is the lowest. */
  predicate ByteBit(b: Byte, k: nat)
    requires k < 8
  {
    (b >> Amount(k)) & 1 == 1
  }

  /** The value of a bit of an identifier. */
  predicate Bit(id: Id, i: nat)
    requires i < NUM_BITS
  {
    ByteBit(id[i / BITS_PER_BYTE], i % BITS_PER_BYTE)
  }

  /** Only the low byte of a mask matters, as it meets a byte. */
  function StartMask(bit: nat): Byte
    requires bit < 8
  {
    0xFF << Amount(bit)
  }

  function StopMask(bit: nat): Byte
    requires bit < 8
  {
    (1 << Amount(bit + 1)) - 1
  }

  /** The index of the lowest bit set, as in the standard library. */
  function TrailingZeros8(b: Byte): nat {
    if b & 1 != 0 then 0 else if b & 2 != 0 then 1 else if b & 4 != 0 then 2 else if b & 8 != 0 then 3
    else if b & 16 != 0 then 4 else if b & 32 != 0 then 5 else if b & 64 != 0 then 6 else if b & 128 != 0 then 7 else 8
  }

  /** The lowest bit on which bytes differ. */
  function DifferenceAt(a: Byte, b: Byte): nat {
    TrailingZeros8(a ^ b)
  }

  // ---- Bytes and their bits ----

  predicate Differ(a: Byte, b: Byte, k: nat)
    requires k < 8
  {
    ByteBit(a, k) != ByteBit(b, k)
  }

  lemma MaskBits(bit: nat, k: nat)
    requires bit < 8 && k < 8
    ensures ByteBit(StartMask(bit), k) <==> bit <= k
    ensures ByteBit(StopMask(bit), k) <==> k <= bit
  {
  }

  lemma AndLess(a: Byte, b: Byte, k: Byte)
    requires k <= 8
    ensures ((a & b) >> k) & 1 == 1 ==> (a >> k) & 1 == 1
  {
  }

  lemma AndMore(a: Byte, b: Byte, k: Byte)
    requires k <= 8 && (a >> k) & 1 == 1 && (b >> k) & 1 == 1
    ensures ((a & b) >> k) & 1 == 1
  {
  }

  lemma Commutes(a: Byte, b: Byte)
    ensures a & b == b & a
  {
  }

  lemma AndBit(a: Byte, b: Byte, k: nat)
    requires k < 8
    ensures ByteBit(a & b, k) <==> ByteBit(a, k) && ByteBit(b, k)
  {
    AndLeft(a, b, k);
    AndLeft(b, a, k);
    Commutes(a, b);
    AndBoth(a, b, k);
    hide ByteBit;
  }

  lemma AndLeft(a: Byte, b: Byte, k: nat)
    requires k < 8
    ensures ByteBit(a & b, k) ==> ByteBit(a, k)
  {
    hide Amount;
    AndLess(a, b, Amount(k));
  }

  lemma AndBoth(a: Byte, b: Byte, k: nat)
    requires k < 8
    ensures ByteBit(a, k) && ByteBit(b, k) ==> ByteBit(a & b, k)
  {
    hide Amount;
    if ByteBit(a, k) && ByteBit(b, k) { AndMore(a, b, Amount(k)); }
  }

  lemma XorAt(a: Byte, b: Byte, k: Byte)
    requires k <= 8
    ensures ((a ^ b) >> k) & 1 == 1 <==> ((a >> k) & 1 == 1) != ((b >> k) & 1 == 1)
  {
  }

  lemma XorBit(a: Byte, b: Byte, k: nat)
    requires k < 8
    ensures ByteBit(a ^ b, k) <==> Differ(a, b, k)
  {
    hide Amount;
    XorAt(a, b, Amount(k));
  }

  lemma SameBits(a: Byte, b: Byte)
    requires forall k :: 0 <= k < 8 ==> !Differ(a, b, k)
    ensures a == b
  {
    assert !Differ(a, b, 0) && !Differ(a, b, 1) && !Differ(a, b, 2) && !Differ(a, b, 3);
    assert !Differ(a, b, 4) && !Differ(a, b, 5) && !Differ(a, b, 6) && !Differ(a, b, 7);
  }

  lemma LowestBit(x: Byte, k: nat)
    requires x != 0
    ensures TrailingZeros8(x) < 8 && ByteBit(x, TrailingZeros8(x))
    ensures k < TrailingZeros8(x) ==> !ByteBit(x, k)
  {
  }

  function Meet(mask: Byte, b: Byte): Byte {
    mask & b
  }

  predicate SameUnder(mask: Byte, a: Byte, b: Byte) {
    Meet(mask, a) == Meet(mask, b)
  }

  /** The lowest bit on which masked bytes differ. */
  function FirstUnder(mask: Byte, a: Byte, b: Byte): nat {
    DifferenceAt(Meet(mask, a), Meet(mask, b))
  }

  /**
   Masked bytes are equal iff the bits under the mask agree; else the lowest set bit of their XOR is the first to
   differ.
   */
  lemma Masked(mask: Byte, a: Byte, b: Byte)
    ensures SameUnder(mask, a, b) <==> forall k :: 0 <= k < 8 && ByteBit(mask, k) ==> !Differ(a, b, k)
    ensures !SameUnder(mask, a, b) ==>
              var first := FirstUnder(mask, a, b);
              && first < 8 && ByteBit(mask, first) && Differ(a, b, first)
              && forall k :: 0 <= k < first && ByteBit(mask, k) ==> !Differ(a, b, k)
  {
    hide ByteBit, Differ, Meet, DifferenceAt;
    Unequal(Meet(mask, a), Meet(mask, b));
    forall k | 0 <= k < 8 ensures Differ(Meet(mask, a), Meet(mask, b), k) <==> ByteBit(mask, k) && Differ(a, b, k) {
      DifferUnder(mask, a, b, k);
    }
    UnderMask(mask, a, b, Meet(mask, a), Meet(mask, b), SameUnder(mask, a, b), FirstUnder(mask, a, b));
  }

  lemma UnderMask(mask: Byte, a: Byte, b: Byte, x: Byte, y: Byte, same: bool, first: nat)
    requires forall k :: 0 <= k < 8 ==> (Differ(x, y, k) <==> ByteBit(mask, k) && Differ(a, b, k))
    requires same <==> forall k :: 0 <= k < 8 ==> !Differ(x, y, k)
    requires !same ==> first < 8 && Differ(x, y, first) && forall k :: 0 <= k < first ==> !Differ(x, y, k)
    ensures same <==> forall k :: 0 <= k < 8 && ByteBit(mask, k) ==> !Differ(a, b, k)
    ensures !same ==> && first < 8 && ByteBit(mask, first) && Differ(a, b, first)
                      && forall k :: 0 <= k < first && ByteBit(mask, k) ==> !Differ(a, b, k)
  {
    hide ByteBit, Differ;
  }

  lemma DifferUnder(mask: Byte, a: Byte, b: Byte, k: nat)
    requires k < 8
    ensures Differ(Meet(mask, a), Meet(mask, b), k) <==> ByteBit(mask, k) && Differ(a, b, k)
  {
    hide ByteBit;
    AndBit(mask, a, k);
    AndBit(mask, b, k);
  }

  /** Bytes are equal iff no bit differs; the lowest set bit of the XOR is the first that does. */
  lemma Unequal(x: Byte, y: Byte)
    ensures x == y <==> forall k :: 0 <= k < 8 ==> !Differ(x, y, k)
    ensures x != y ==> DifferenceAt(x, y) < 8 && Differ(x, y, DifferenceAt(x, y))
    ensures x != y ==> forall k :: 0 <= k < DifferenceAt(x, y) ==> !Differ(x, y, k)
  {
    if x != y {
      XorZero(x, y);
      var first := TrailingZeros8(x ^ y);
      LowestBit(x ^ y, 0);
      XorBit(x, y, first);
      forall k | 0 <= k < first ensures !Differ(x, y, k) {
        LowestBit(x ^ y, k);
        XorBit(x, y, k);
      }
    }
  }

  lemma XorZero(a: Byte, b: Byte)
    ensures a ^ b == 0 <==> a == b
  {
  }

  // ---- Ranges of bits ----

  /** The identifiers agree from bit start up to bit stop, exclusive. */
  ghost predicate Agree(a: Id, b: Id, start: nat, stop: int)
    requires stop <= NUM_BITS
  {
    forall i :: start <= i < stop ==> (Bit(a, i) <==> Bit(b, i))
  }

  /** The bits of byte n from lo to hi, inclusive, agree. */
  ghost predicate AgreeIn(a: Id, b: Id, n: nat, lo: nat, hi: nat)
    requires n < ID_LEN && hi < 8
  {
    forall k :: lo <= k <= hi ==> !Differ(a[n], b[n], k)
  }

  lemma Position(n: nat, k: nat)
    requires n < ID_LEN && k < 8
    ensures 8 * n + k < NUM_BITS && (8 * n + k) / 8 == n && (8 * n + k) % 8 == k
  {
  }

  lemma BitAt(a: Id, b: Id, n: nat, k: nat)
    requires n < ID_LEN && k < 8
    ensures (8 * n + k) < NUM_BITS
    ensures (Bit(a, 8 * n + k) <==> Bit(b, 8 * n + k)) <==> !Differ(a[n], b[n], k)
  {
    Position(n, k);
  }

  /** A range within one byte. */
  lemma AgreeByte(a: Id, b: Id, n: nat, lo: nat, hi: nat)
    requires n < ID_LEN && lo < 8 && hi < 8
    ensures 8 * n + hi + 1 <= NUM_BITS
    ensures Agree(a, b, 8 * n + lo, 8 * n + hi + 1) <==> AgreeIn(a, b, n, lo, hi)
  {
    hide ByteBit, Bit;
    Position(n, hi);
    if Agree(a, b, 8 * n + lo, 8 * n + hi + 1) {
      forall k | lo <= k <= hi ensures !Differ(a[n], b[n], k) {
        BitAt(a, b, n, k);
        assert Bit(a, 8 * n + k) <==> Bit(b, 8 * n + k);
      }
    }
    if AgreeIn(a, b, n, lo, hi) {
      forall i | 8 * n + lo <= i < 8 * n + hi + 1 ensures Bit(a, i) <==> Bit(b, i) {
        BitAt(a, b, n, i - 8 * n);
        assert !Differ(a[n], b[n], i - 8 * n);
      }
    }
  }

  lemma AgreeSplit(a: Id, b: Id, start: nat, mid: nat, stop: nat)
    requires start <= mid <= stop <= NUM_BITS
    ensures Agree(a, b, start, stop) <==> Agree(a, b, start, mid) && Agree(a, b, mid, stop)
  {
  }

  /** Whole bytes agree iff they are equal. */
  lemma {:induction false} AgreeBytes(a: Id, b: Id, from: nat, to: nat)
    requires from <= to <= ID_LEN
    ensures Agree(a, b, 8 * from, 8 * to) <==> a[from..to] == b[from..to]
  {
    hide Bit;
    if from < to {
      AgreeBytes(a, b, from, to - 1);
      AgreeSplit(a, b, 8 * from, 8 * (to - 1), 8 * to);
      AgreeByte(a, b, to - 1, 0, 7);
      WholeByte(a[to - 1], b[to - 1]);
      assert 8 * (to - 1) + 0 == 8 * (to - 1) && 8 * (to - 1) + 7 + 1 == 8 * to;
      hide Agree;
      OneMoreByte(a, b, from, to);
    }
  }

  lemma OneMoreByte(a: Id, b: Id, from: nat, to: nat)
    requires from < to <= ID_LEN
    ensures a[from..to] == b[from..to] <==> a[from..to - 1] == b[from..to - 1] && a[to - 1] == b[to - 1]
  {
    SliceEnds(a, from, to);
    SliceEnds(b, from, to);
    SameEnds(a[from..to - 1], b[from..to - 1], a[to - 1], b[to - 1]);
  }

  lemma SliceEnds(a: seq<Byte>, from: nat, to: nat)
    requires from < to <= |a|
    ensures a[from..to] == a[from..to - 1] + [a[to - 1]]
  {
  }

  lemma SameEnds(x: seq<Byte>, y: seq<Byte>, c: Byte, d: Byte)
    requires |x| == |y|
    ensures x + [c] == y + [d] <==> x == y && c == d
  {
    var u, v := x + [c], y + [d];
    assert u[..|x|] == x && v[..|x|] == y && u[|x|] == c && v[|x|] == d;
    if x == y && c == d {
      assert u == v;
    }
  }

  lemma WholeByte(a: Byte, b: Byte)
    ensures a == b <==> forall k :: 0 <= k <= 7 ==> !Differ(a, b, k)
  {
    if forall k :: 0 <= k <= 7 ==> !Differ(a, b, k) { SameBits(a, b); }
  }

  /** The mask has exactly the bits from lo to hi. */
  ghost predicate MaskIs(mask: Byte, lo: nat, hi: nat) {
    forall k :: 0 <= k < 8 ==> (ByteBit(mask, k) <==> lo <= k <= hi)
  }

  lemma MaskedIn(mask: Byte, a: Id, b: Id, n: nat, lo: nat, hi: nat)
    requires n < ID_LEN && lo < 8 && hi < 8 && MaskIs(mask, lo, hi)
    ensures SameUnder(mask, a[n], b[n]) <==> AgreeIn(a, b, n, lo, hi)
    ensures !SameUnder(mask, a[n], b[n]) ==>
              var first := FirstUnder(mask, a[n], b[n]);
              && lo <= first <= hi && Differ(a[n], b[n], first) && (first > 0 ==> AgreeIn(a, b, n, lo, first - 1))
  {
    hide ByteBit, SameUnder, FirstUnder, Differ;
    var x, y := a[n], b[n];
    Masked(mask, x, y);
    Restricted(mask, x, y, lo, hi, SameUnder(mask, x, y), FirstUnder(mask, x, y));
  }

  lemma Restricted(mask: Byte, x: Byte, y: Byte, lo: nat, hi: nat, same: bool, first: nat)
    requires lo < 8 && hi < 8 && MaskIs(mask, lo, hi)
    requires same <==> forall k :: 0 <= k < 8 && ByteBit(mask, k) ==> !Differ(x, y, k)
    requires !same ==> && first < 8 && ByteBit(mask, first) && Differ(x, y, first)
                       && forall k :: 0 <= k < first && ByteBit(mask, k) ==> !Differ(x, y, k)
    ensures same <==> forall k :: lo <= k <= hi ==> !Differ(x, y, k)
    ensures !same ==> lo <= first <= hi && Differ(x, y, first) && forall k :: lo <= k < first ==> !Differ(x, y, k)
  {
    hide ByteBit, Differ;
    forall k | lo <= k <= hi ensures ByteBit(mask, k) {}
  }

  /** Comparing a byte under a mask compares the bits under it. */
  lemma MaskedRange(mask: Byte, a: Id, b: Id, n: nat, lo: nat, hi: nat)
    requires n < ID_LEN && lo < 8 && hi < 8 && MaskIs(mask, lo, hi)
    ensures 8 * n + hi + 1 <= NUM_BITS
    ensures SameUnder(mask, a[n], b[n]) <==> Agree(a, b, 8 * n + lo, 8 * n + hi + 1)
    ensures !SameUnder(mask, a[n], b[n]) ==>
              First(a, b, 8 * n + lo, 8 * n + hi + 1, FirstUnder(mask, a[n], b[n]) + 8 * n)
  {
    AgreeByte(a, b, n, lo, hi);
    hide ByteBit, Bit, SameUnder, FirstUnder, MaskIs, AgreeIn;
    MaskedIn(mask, a, b, n, lo, hi);
    if !SameUnder(mask, a[n], b[n]) {
      var first := FirstUnder(mask, a[n], b[n]);
      BitAt(a, b, n, first);
      if first > 0 { AgreeByte(a, b, n, lo, first - 1); }
    }
  }

  /** The first bit of a range on which the identifiers differ. */
  ghost predicate First(a: Id, b: Id, start: nat, stop: nat, i: nat)
    requires stop <= NUM_BITS
  {
    start <= i < stop && Bit(a, i) != Bit(b, i) && Agree(a, b, start, i)
  }

  /** The two masks of a range leave the bits in it. */
  lemma RangeMasks(lo: nat, hi: nat)
    requires lo < 8 && hi < 8
    ensures MaskIs(StartMask(lo), lo, 7) && MaskIs(StopMask(hi), 0, hi) && MaskIs(0xFF, 0, 7)
    ensures MaskIs(StartMask(lo) & StopMask(hi), lo, hi)
  {
    forall k | 0 <= k < 8
      ensures ByteBit(StartMask(lo), k) <==> lo <= k
      ensures ByteBit(StopMask(hi), k) <==> k <= hi
      ensures ByteBit(StartMask(lo) & StopMask(hi), k) <==> lo <= k <= hi
      ensures ByteBit(0xFF, k)
    {
      MaskBits(lo, k);
      MaskBits(hi, k);
      MaskBits(0, k);
      AndBit(StartMask(lo), StopMask(hi), k);
    }
  }

  // ---- The operations ----

  /**
   Where the comparison begins. A start from -7 to -1 divides to byte 0 with a remainder that, as a shift
   amount, shifts the mask out of the word, so all of byte 0 is skipped.
   */
  function From(start: int): nat
    requires start > -BITS_PER_BYTE
  {
    if start < 0 then BITS_PER_BYTE else start
  }

  /** Division truncates toward zero. */
  function StartIndex(start: int): nat
    requires start > -BITS_PER_BYTE
  {
    if start < 0 then 0 else start / BITS_PER_BYTE
  }

  function FirstMask(start: int): Byte
    requires start > -BITS_PER_BYTE
  {
    if start < 0 then 0 else StartMask(start % BITS_PER_BYTE)
  }

  /** Whether the identifiers are equal from bit start to bit stop; a range past the last bit is never equal. */
  method EqualSubset(start: int, stop: int, a: Id, b: Id) returns (equal: bool)
    requires start > -BITS_PER_BYTE
    ensures stop <= NUM_BITS ==> (equal <==> Agree(a, b, From(start), stop))
    ensures stop > NUM_BITS ==> (equal <==> start >= stop)
    ensures 0 <= start && stop <= NUM_BITS ==>
              (equal <==> forall i :: start <= i < stop ==> (Bit(a, i) <==> Bit(b, i)))
  {
    var last := stop - 1;
    if start > last || last < 0 { return true; }
    if last >= NUM_BITS { return false; }
    var startIndex, stopIndex := StartIndex(start), last / BITS_PER_BYTE;
    var startMask, stopMask := FirstMask(start), StopMask(last % BITS_PER_BYTE);
    Whole(a, b, start, last);
    hide SameUnder, Agree, FirstMask, StopMask;
    if startIndex + 1 < stopIndex && a[startIndex + 1..stopIndex] != b[startIndex + 1..stopIndex] { return false; }
    if startIndex == stopIndex {
      var mask := startMask & stopMask;
      return SameUnder(mask, a[startIndex], b[startIndex]);
    }
    return SameUnder(startMask, a[startIndex], b[startIndex]) && SameUnder(stopMask, a[stopIndex], b[stopIndex]);
  }

  /** The comparison of a range: first byte, interior and last byte. */
  lemma Whole(a: Id, b: Id, start: int, last: nat)
    requires -BITS_PER_BYTE < start <= last < NUM_BITS
    ensures var n, m := StartIndex(start), last / BITS_PER_BYTE;
            var startMask, stopMask := FirstMask(start), StopMask(last % BITS_PER_BYTE);
            && n <= m < ID_LEN
            && (n == m ==> (Agree(a, b, From(start), last + 1) <==> SameUnder(startMask & stopMask, a[n], b[n])))
            && (n < m ==> (Agree(a, b, From(start), last + 1) <==>
                           && SameUnder(startMask, a[n], b[n])
                           && a[n + 1..m] == b[n + 1..m]
                           && SameUnder(stopMask, a[m], b[m])))
  {
    hide SameUnder, Agree, FirstMask, StopMask, Covers, First;
    MasksCover(start, last);
    var n, m := StartIndex(start), last / BITS_PER_BYTE;
    var startMask, stopMask := FirstMask(start), StopMask(last % BITS_PER_BYTE);
    if n == m {
      UnderCover(startMask & stopMask, a, b, n, From(start), last + 1);
    } else {
      UnderCover(startMask, a, b, n, From(start), 8 * (n + 1));
      AgreeBytes(a, b, n + 1, m);
      UnderCover(stopMask, a, b, m, 8 * m, last + 1);
      AgreeSplit(a, b, From(start), 8 * (n + 1), last + 1);
      AgreeSplit(a, b, 8 * (n + 1), 8 * m, last + 1);
    }
  }

  /** An empty mask compares nothing. */
  lemma Blank(mask: Byte, a: Byte, b: Byte)
    requires mask == 0
    ensures SameUnder(mask, a, b)
  {
  }

  /** The first bit from start to stop on which the identifiers differ. */
  method FirstDifferenceSubset(start: int, stop: int, a: Id, b: Id) returns (index: nat, found: bool)
    requires start > -BITS_PER_BYTE
    ensures stop > NUM_BITS ==> !found
    ensures stop <= NUM_BITS ==> (found <==> !Agree(a, b, From(start), stop))
    ensures found ==> stop <= NUM_BITS && First(a, b, From(start), stop, index)
    ensures !found ==> index == 0
    ensures 0 <= start && stop <= NUM_BITS ==>
              (found <==> exists i :: start <= i < stop && Bit(a, i) != Bit(b, i))
    ensures 0 <= start && found ==>
              start <= index < stop && Bit(a, index) != Bit(b, index) &&
              forall i :: start <= i < index ==> (Bit(a, i) <==> Bit(b, i))
  {
    var last := stop - 1;
    if start > last || last < 0 || last >= NUM_BITS { return 0, false; }
    var startIndex, stopIndex := StartIndex(start), last / BITS_PER_BYTE;
    var startMask, stopMask := FirstMask(start), StopMask(last % BITS_PER_BYTE);
    MasksCover(start, last);
    hide Agree, First, FirstMask, StopMask, Covers;
    if startIndex == stopIndex {
      index, found := InByte(startMask & stopMask, a, b, startIndex, From(start), stop);
    } else {
      index, found := Across(a, b, startIndex, startMask, From(start), stopIndex, stopMask, stop);
    }
  }

  /** The mask leaves, of byte n, the bits from one index up to another; an empty range leaves none. */
  ghost predicate Covers(mask: Byte, n: nat, from: nat, to: nat) {
    if from >= to then mask == 0 else 8 * n <= from && to <= 8 * (n + 1) && MaskIs(mask, from - 8 * n, to - 1 - 8 * n)
  }

  lemma MasksCover(start: int, last: nat)
    requires -BITS_PER_BYTE < start <= last < NUM_BITS
    ensures var n, m := StartIndex(start), last / BITS_PER_BYTE;
            var startMask, stopMask := FirstMask(start), StopMask(last % BITS_PER_BYTE);
            && n <= m < ID_LEN
            && (n == m ==> Covers(startMask & stopMask, n, From(start), last + 1))
            && (n < m ==> Covers(startMask, n, From(start), 8 * (n + 1)) && Covers(stopMask, m, 8 * m, last + 1))
  {
    var m, hi := last / BITS_PER_BYTE, last % BITS_PER_BYTE;
    assert last == 8 * m + hi;
    if start >= 0 {
      RangeMasks(start % BITS_PER_BYTE, hi);
      hide MaskIs, StartMask, StopMask;
    } else {
      RangeMasks(0, hi);
      Nothing(StopMask(hi));
      hide MaskIs, StopMask;
    }
  }

  lemma Nothing(mask: Byte)
    ensures 0 & mask == 0
  {
  }

  /** The first difference under a mask that covers some bits of one byte, or none. */
  method InByte(mask: Byte, a: Id, b: Id, n: nat, ghost from: nat, ghost to: nat) returns (index: nat, found: bool)
    requires n < ID_LEN && to <= NUM_BITS && Covers(mask, n, from, to)
    ensures found <==> !Agree(a, b, from, to)
    ensures found ==> First(a, b, from, to, index)
    ensures !found ==> index == 0
  {
    UnderCover(mask, a, b, n, from, to);
    hide Agree, First, Covers;
    if mask & a[n] == mask & b[n] { return 0, false; }
    return TrailingZeros8((mask & a[n]) ^ (mask & b[n])) + n * BITS_PER_BYTE, true;
  }

  lemma UnderCover(mask: Byte, a: Id, b: Id, n: nat, from: nat, to: nat)
    requires n < ID_LEN && to <= NUM_BITS && Covers(mask, n, from, to)
    ensures SameUnder(mask, a[n], b[n]) <==> Agree(a, b, from, to)
    ensures !SameUnder(mask, a[n], b[n]) ==> First(a, b, from, to, FirstUnder(mask, a[n], b[n]) + 8 * n)
  {
    if from >= to {
      Blank(mask, a[n], b[n]);
    } else {
      hide SameUnder, FirstUnder, Agree, First, MaskIs;
      MaskedRange(mask, a, b, n, from - 8 * n, to - 1 - 8 * n);
    }
  }

  /** The first difference in a range that spans bytes: first byte, interior, last byte. */
  method Across(a: Id, b: Id, n: nat, startMask: Byte, ghost from: nat, m: nat, stopMask: Byte, ghost to: nat)
    returns (index: nat, found: bool)
    requires n < m < ID_LEN && from <= 8 * (n + 1) && 8 * m < to <= NUM_BITS
    requires Covers(startMask, n, from, 8 * (n + 1)) && Covers(stopMask, m, 8 * m, to)
    ensures found <==> !Agree(a, b, from, to)
    ensures found ==> First(a, b, from, to, index)
    ensures !found ==> index == 0
  {
    hide Agree, First, Covers;
    AgreeSplit(a, b, from, 8 * (n + 1), to);
    AgreeSplit(a, b, 8 * (n + 1), 8 * m, to);
    index, found := InByte(startMask, a, b, n, from, 8 * (n + 1));
    if found {
      FirstEarlier(a, b, from, from, 8 * (n + 1), to, index);
      return;
    }
    index, found := Interior(a, b, n, m);
    if found {
      FirstEarlier(a, b, from, 8 * (n + 1), 8 * m, to, index);
      return;
    }
    index, found := InByte(stopMask, a, b, m, 8 * m, to);
    if found {
      AgreeSplit(a, b, from, 8 * (n + 1), 8 * m);
      FirstEarlier(a, b, from, 8 * m, to, to, index);
    }
  }

  /** The bytes strictly between the first and the last. */
  method Interior(a: Id, b: Id, startIndex: nat, stopIndex: nat) returns (index: nat, found: bool)
    requires startIndex < stopIndex < ID_LEN
    ensures found <==> !Agree(a, b, 8 * (startIndex + 1), 8 * stopIndex)
    ensures found ==> First(a, b, 8 * (startIndex + 1), 8 * stopIndex, index)
    ensures !found ==> index == 0
  {
    RangeMasks(0, 7);
    hide DifferenceAt, MaskIs, Bit, Agree, First;
    AgreeBytes(a, b, startIndex + 1, startIndex + 1);
    for i := startIndex + 1 to stopIndex
      invariant Agree(a, b, 8 * (startIndex + 1), 8 * i)
    {
      WholeRange(a, b, i);
      AgreeSplit(a, b, 8 * (startIndex + 1), 8 * i, 8 * (i + 1));
      if a[i] != b[i] {
        index, found := DifferenceAt(a[i], b[i]) + i * BITS_PER_BYTE, true;
        FirstEarlier(a, b, 8 * (startIndex + 1), 8 * i, 8 * (i + 1), 8 * stopIndex, index);
        return;
      }
    }
    return 0, false;
  }

  lemma WholeRange(a: Id, b: Id, n: nat)
    requires n < ID_LEN
    ensures 8 * (n + 1) <= NUM_BITS
    ensures a[n] == b[n] <==> Agree(a, b, 8 * n, 8 * (n + 1))
    ensures a[n] != b[n] ==> First(a, b, 8 * n, 8 * (n + 1), DifferenceAt(a[n], b[n]) + 8 * n)
  {
    RangeMasks(0, 7);
    FullMask(a[n], b[n]);
    hide SameUnder, FirstUnder, DifferenceAt, MaskIs, Agree, First;
    MaskedRange(0xFF, a, b, n, 0, 7);
    assert 8 * n + 0 == 8 * n && 8 * n + 7 + 1 == 8 * (n + 1);
  }

  lemma FullMask(a: Byte, b: Byte)
    ensures SameUnder(0xFF, a, b) <==> a == b
    ensures FirstUnder(0xFF, a, b) == DifferenceAt(a, b)
  {
  }

  /** The first difference of a part is that of the whole if all before the part agrees. */
  lemma FirstEarlier(a: Id, b: Id, start: nat, from: nat, to: nat, stop: nat, i: nat)
    requires start <= from <= to <= stop <= NUM_BITS && (start == from || Agree(a, b, start, from))
    requires First(a, b, from, to, i)
    ensures First(a, b, start, stop, i) && !Agree(a, b, start, stop)
  {
    hide Bit;
  }
}

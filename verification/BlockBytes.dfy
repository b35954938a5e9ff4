/** The bytes a block's identifier is computed from: height, parents and number of transactions. */
module BlockBytes {

  type Byte = x: int | 0 <= x < 256

  const ID_LEN := 32

  type Id = s: seq<Byte> | |s| == ID_LEN witness seq(ID_LEN, _ => 0)

  /** Big-endian digits of a number. */
  function Big(x: nat, n: nat): (r: seq<Byte>)
    ensures |r| == n
  {
    if n == 0 then [] else Big(x / 256, n - 1) + [x % 256]
  }

  function Power(n: nat): nat {
    if n == 0 then 1 else 256 * Power(n - 1)
  }

  /** The digits determine a number that fits. */
  lemma {:induction false} BigInjective(x: nat, y: nat, n: nat)
    requires x < Power(n) && y < Power(n) && Big(x, n) == Big(y, n)
    ensures x == y
  {
    if n > 0 {
      var a, b := Big(x / 256, n - 1), Big(y / 256, n - 1);
      assert Big(x, n)[..n - 1] == a && Big(y, n)[..n - 1] == b;
      assert Big(x, n)[n - 1] == x % 256 && Big(y, n)[n - 1] == y % 256;
      BigInjective(x / 256, y / 256, n - 1);
    }
  }

  /** The number a reader makes of bytes, the first one weighing most. */
  function Value(bytes: seq<Byte>): nat {
    if bytes == [] then 0 else 256 * Value(bytes[..|bytes| - 1]) + bytes[|bytes| - 1]
  }

  lemma {:induction false} BigValue(x: nat, n: nat)
    requires x < Power(n)
    ensures Value(Big(x, n)) == x
  {
    if n > 0 {
      BigValue(x / 256, n - 1);
      assert Big(x, n)[..n - 1] == Big(x / 256, n - 1);
    }
  }

  const LIMIT: nat := 0x1_0000_0000_0000_0000

  lemma PowerEight()
    ensures Power(8) == LIMIT
  {
    assert Power(4) == 0x1_0000_0000;
  }

  /** The parent identifiers, one after the other. */
  function Joined(parents: seq<Id>): (r: seq<Byte>)
    ensures |r| == ID_LEN * |parents|
  {
    if parents == [] then [] else Joined(parents[..|parents| - 1]) + parents[|parents| - 1]
  }

  lemma JoinedAppend(parents: seq<Id>, p: Id)
    ensures Joined(parents + [p]) == Joined(parents) + p
  {
    assert (parents + [p])[..|parents|] == parents;
  }

  lemma {:induction false} JoinedAt(parents: seq<Id>, k: nat)
    requires k < |parents|
    ensures Joined(parents)[ID_LEN * k..ID_LEN * k + ID_LEN] == parents[k]
  {
    var n, lo := |parents| - 1, ID_LEN * k;
    var rest, all := Joined(parents[..n]), Joined(parents);
    assert all == rest + parents[n] && |rest| == ID_LEN * n;
    hide Joined;
    if k < n {
      JoinedAt(parents[..n], k);
      assert lo + ID_LEN <= |rest|;
      assert all[lo..lo + ID_LEN] == rest[lo..lo + ID_LEN];
    } else {
      assert all[|rest|..|rest| + ID_LEN] == parents[n];
    }
  }

  lemma {:induction false} JoinedInjective(p: seq<Id>, q: seq<Id>)
    requires |p| == |q| && Joined(p) == Joined(q)
    ensures p == q
  {
    if p != [] {
      var n := |p| - 1;
      assert Joined(p)[..ID_LEN * n] == Joined(p[..n]) && Joined(q)[..ID_LEN * n] == Joined(q[..n]);
      assert Joined(p)[ID_LEN * n..] == p[n] && Joined(q)[ID_LEN * n..] == q[n];
      JoinedInjective(p[..n], q[..n]);
      assert p == p[..n] + [p[n]] && q == q[..n] + [q[n]];
    }
  }

  /** Everything an identifier covers: neither the transactions themselves nor the time. */
  function Material(height: nat, parents: seq<Id>, txs: nat): seq<Byte> {
    Big(height, 8) + Big(|parents|, 8) + Joined(parents) + Big(txs, 8)
  }

  /** Where a reader finds what in the bytes. */
  lemma MaterialLayout(height: nat, parents: seq<Id>, txs: nat)
    requires height < LIMIT && |parents| < LIMIT && txs < LIMIT
    ensures var m, end := Material(height, parents, txs), 16 + ID_LEN * |parents|;
            && |m| == end + 8
            && Value(m[..8]) == height && Value(m[8..16]) == |parents| && Value(m[end..]) == txs
            && forall k :: 0 <= k < |parents| ==> m[16 + ID_LEN * k..16 + ID_LEN * k + ID_LEN] == parents[k]
  {
    var m, end := Material(height, parents, txs), 16 + ID_LEN * |parents|;
    PowerEight();
    BigValue(height, 8);
    BigValue(|parents|, 8);
    BigValue(txs, 8);
    assert m[..8] == Big(height, 8) && m[8..16] == Big(|parents|, 8) && m[end..] == Big(txs, 8);
    assert m[16..end] == Joined(parents);
    forall k | 0 <= k < |parents| ensures m[16 + ID_LEN * k..16 + ID_LEN * k + ID_LEN] == parents[k] {
      JoinedAt(parents, k);
      assert m[16 + ID_LEN * k..16 + ID_LEN * k + ID_LEN] == m[16..end][ID_LEN * k..ID_LEN * k + ID_LEN];
    }
  }

  /** Equal bytes mean equal height, parents and number of transactions. */
  lemma MaterialInjective(height: nat, parents: seq<Id>, txs: nat, height': nat, parents': seq<Id>, txs': nat)
    requires height < LIMIT && height' < LIMIT && |parents| < LIMIT && |parents'| < LIMIT && txs < LIMIT && txs' < LIMIT
    requires Material(height, parents, txs) == Material(height', parents', txs')
    ensures height == height' && parents == parents' && txs == txs'
  {
    var m, m' := Material(height, parents, txs), Material(height', parents', txs');
    assert m[..8] == Big(height, 8) && m'[..8] == Big(height', 8);
    assert m[8..16] == Big(|parents|, 8) && m'[8..16] == Big(|parents'|, 8);
    PowerEight();
    BigInjective(height, height', 8);
    BigInjective(|parents|, |parents'|, 8);
    var k := 16 + ID_LEN * |parents|;
    assert m[16..k] == Joined(parents) && m'[16..k] == Joined(parents');
    assert m[k..] == Big(txs, 8) && m'[k..] == Big(txs', 8);
    JoinedInjective(parents, parents');
    BigInjective(txs, txs', 8);
  }

  /** Writes a number, big-endian, at an offset of the buffer. */
  method PutUint64(buffer: array<Byte>, offset: nat, x: nat)
    requires offset + 8 <= buffer.Length && x < LIMIT
    modifies buffer
    ensures buffer[offset..offset + 8] == Big(x, 8)
    ensures forall i :: 0 <= i < buffer.Length && !(offset <= i < offset + 8) ==> buffer[i] == old(buffer[i])
  {
    var rest := x;
    for k := 0 to 8
      invariant 0 <= rest
      invariant Big(x, 8) == Big(rest, 8 - k) + buffer[offset + 8 - k..offset + 8]
      invariant forall i :: 0 <= i < buffer.Length && !(offset <= i < offset + 8) ==> buffer[i] == old(buffer[i])
    {
      ghost var tail := buffer[offset + 8 - k..offset + 8];
      buffer[offset + 7 - k] := rest % 256;
      assert buffer[offset + 7 - k..offset + 8] == [rest % 256] + tail;
      rest := rest / 256;
    }
  }

  /** Copies an identifier to an offset of the buffer. */
  method Copy(buffer: array<Byte>, offset: nat, id: Id)
    requires offset + ID_LEN <= buffer.Length
    modifies buffer
    ensures buffer[offset..offset + ID_LEN] == id
    ensures forall i :: 0 <= i < buffer.Length && !(offset <= i < offset + ID_LEN) ==> buffer[i] == old(buffer[i])
  {
    for k := 0 to ID_LEN
      invariant buffer[offset..offset + k] == id[..k]
      invariant forall i :: 0 <= i < buffer.Length && !(offset <= i < offset + ID_LEN) ==> buffer[i] == old(buffer[i])
    {
      buffer[offset + k] := id[k];
    }
  }

  /** Copies the parents after the first 16 bytes. */
  method CopyParents(buffer: array<Byte>, parents: seq<Id>)
    requires 16 + ID_LEN * |parents| <= buffer.Length
    modifies buffer
    ensures buffer[..16 + ID_LEN * |parents|] == old(buffer[..16]) + Joined(parents)
  {
    var offset := 16;
    assert Joined(parents[..0]) == [];
    hide Joined;
    for k := 0 to |parents|
      invariant offset == 16 + ID_LEN * k
      invariant buffer[..offset] == old(buffer[..16]) + Joined(parents[..k])
    {
      ghost var before := buffer[..offset];
      Copy(buffer, offset, parents[k]);
      assert parents[..k + 1] == parents[..k] + [parents[k]];
      JoinedAppend(parents[..k], parents[k]);
      assert buffer[..offset + ID_LEN] == before + parents[k];
      offset := offset + ID_LEN;
    }
    assert parents[..|parents|] == parents;
  }

  /** Fills a buffer of the exact size, piece by piece. */
  method GenerateBytes(height: nat, parents: seq<Id>, txs: nat) returns (bytes: seq<Byte>)
    requires height < LIMIT && |parents| < LIMIT && txs < LIMIT
    ensures bytes == Material(height, parents, txs) && |bytes| == 24 + ID_LEN * |parents|
    ensures Value(bytes[..8]) == height && Value(bytes[8..16]) == |parents| && Value(bytes[|bytes| - 8..]) == txs
    ensures forall k :: 0 <= k < |parents| ==> bytes[16 + ID_LEN * k..16 + ID_LEN * k + ID_LEN] == parents[k]
  {
    MaterialLayout(height, parents, txs);
    var size := 8 + 8 + |parents| * ID_LEN + 8;
    var buffer := new Byte[size](_ => 0);
    PutUint64(buffer, 0, height);
    PutUint64(buffer, 8, |parents|);
    assert buffer[..16] == Big(height, 8) + Big(|parents|, 8);
    ghost var head := buffer[..16];
    CopyParents(buffer, parents);
    var offset := 16 + |parents| * ID_LEN;
    hide Big, Joined, Value;
    ghost var before := buffer[..offset];
    PutUint64(buffer, offset, txs);
    assert buffer[..] == before + Big(txs, 8);
    return buffer[..];
  }
}

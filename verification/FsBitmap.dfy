/** The free map as bytes: block b is bit b % 8 of byte b / 8. */
module FsBitmap {

  function Mask(k: nat): bv8
    requires k < 8
  {
    1 << k
  }

  // one byte

  predicate Has(x: bv8, k: nat)
    requires k < 8
  {
    x & Mask(k) != 0
  }

  function Set(x: bv8, k: nat): bv8
    requires k < 8
  {
    x | Mask(k)
  }

  function Clear(x: bv8, k: nat): bv8
    requires k < 8
  {
    x & !Mask(k)
  }

  // the whole map

  predicate Bit(bytes: seq<bv8>, b: nat)
    requires b / 8 < |bytes|
  {
    Has(bytes[b / 8], b % 8)
  }

  function SetBit(bytes: seq<bv8>, b: nat): seq<bv8>
    requires b / 8 < |bytes|
  {
    bytes[b / 8 := Set(bytes[b / 8], b % 8)]
  }

  function ClearBit(bytes: seq<bv8>, b: nat): seq<bv8>
    requires b / 8 < |bytes|
  {
    bytes[b / 8 := Clear(bytes[b / 8], b % 8)]
  }

  lemma MaskValue(k: nat)
    requires k < 8
    ensures Mask(k) == [1 as bv8, 2, 4, 8, 16, 32, 64, 128][k]
  {
    assert (1 as bv8) << 0 == 1 && (1 as bv8) << 1 == 2 && (1 as bv8) << 2 == 4 && (1 as bv8) << 3 == 8;
    assert (1 as bv8) << 4 == 16 && (1 as bv8) << 5 == 32 && (1 as bv8) << 6 == 64 && (1 as bv8) << 7 == 128;
  }

  lemma MasksApart(j: nat, k: nat)
    requires j < 8 && k < 8
    ensures Mask(j) != 0 && (j != k ==> Mask(j) & Mask(k) == 0)
  {
    MaskValue(j);
    MaskValue(k);
  }

  lemma SetByte(x: bv8, j: nat, k: nat)
    requires j < 8 && k < 8
    ensures Has(Set(x, j), k) == (j == k || Has(x, k))
  {
    hide Mask;
    MasksApart(j, k);
    SetByteMasks(x, Mask(j), Mask(k));
  }

  lemma SetByteMasks(x: bv8, m: bv8, n: bv8)
    ensures (x | m) & m == m && (m & n == 0 ==> (x | m) & n == x & n)
  {
  }

  lemma ClearByte(x: bv8, j: nat, k: nat)
    requires j < 8 && k < 8
    ensures Has(Clear(x, j), k) == (j != k && Has(x, k))
  {
    hide Mask;
    MasksApart(j, k);
    ClearByteMasks(x, Mask(j), Mask(k));
  }

  lemma ClearByteMasks(x: bv8, m: bv8, n: bv8)
    ensures (x & !m) & m == 0 && (m & n == 0 ==> (x & !m) & n == x & n)
  {
  }

  lemma SamePlace(b: nat, c: nat)
    ensures b == c <==> b / 8 == c / 8 && b % 8 == c % 8
  {
  }

  /** Setting a bit sets that bit and no other. */
  lemma SetBitAt(bytes: seq<bv8>, b: nat, c: nat)
    requires b / 8 < |bytes| && c / 8 < |bytes|
    ensures Bit(SetBit(bytes, b), c) == (c == b || Bit(bytes, c))
  {
    hide Has, Set, Clear;
    SamePlace(b, c);
    if b / 8 == c / 8 {
      SetByte(bytes[b / 8], b % 8, c % 8);
    }
  }

  lemma ClearBitAt(bytes: seq<bv8>, b: nat, c: nat)
    requires b / 8 < |bytes| && c / 8 < |bytes|
    ensures Bit(ClearBit(bytes, b), c) == (c != b && Bit(bytes, c))
  {
    hide Has, Set, Clear;
    SamePlace(b, c);
    if b / 8 == c / 8 {
      ClearByte(bytes[b / 8], b % 8, c % 8);
    }
  }

  function Bits(bytes: seq<bv8>, n: nat): (r: seq<bool>)
    requires n <= 8 * |bytes|
    ensures |r| == n && forall b | 0 <= b < n :: r[b] == Bit(bytes, b)
  {
    seq(n, b requires 0 <= b < n => Bit(bytes, b))
  }

  lemma BitsSet(bytes: seq<bv8>, n: nat, b: nat)
    requires b < n <= 8 * |bytes|
    ensures Bits(SetBit(bytes, b), n) == Bits(bytes, n)[b := true]
  {
    hide Bit, SetBit;
    assert |SetBit(bytes, b)| == |bytes| by { SetLength(bytes, b); }
    forall c | 0 <= c < n
      ensures Bits(SetBit(bytes, b), n)[c] == Bits(bytes, n)[b := true][c]
    {
      SetBitAt(bytes, b, c);
    }
  }

  lemma SetLength(bytes: seq<bv8>, b: nat)
    requires b / 8 < |bytes|
    ensures |SetBit(bytes, b)| == |ClearBit(bytes, b)| == |bytes|
  {
  }

  lemma BitsClear(bytes: seq<bv8>, n: nat, b: nat)
    requires b < n <= 8 * |bytes|
    ensures Bits(ClearBit(bytes, b), n) == Bits(bytes, n)[b := false]
  {
    hide Bit, ClearBit;
    assert |ClearBit(bytes, b)| == |bytes| by { SetLength(bytes, b); }
    forall c | 0 <= c < n
      ensures Bits(ClearBit(bytes, b), n)[c] == Bits(bytes, n)[b := false][c]
    {
      ClearBitAt(bytes, b, c);
    }
  }
}

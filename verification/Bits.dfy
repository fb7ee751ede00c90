/** Machine words as sequences of bits, least significant first, and the find-first-set of kservice.c. */
module Bits {

  type Word = w: seq<bool> | |w| == 32 witness seq(32, _ => false)

  predicate IsZero(w: Word) { forall i :: 0 <= i < 32 ==> !w[i] }

  /** 1 << p */
  function OneHot(p: int): Word { seq(32, i => i == p) }

  function Or(a: Word, b: Word): Word { seq(32, i requires 0 <= i < 32 => a[i] || b[i]) }

  /** a & ~b */
  function AndNot(a: Word, b: Word): Word { seq(32, i requires 0 <= i < 32 => a[i] && !b[i]) }

  /** The value of the four bits from `i` on. */
  function Nibble(w: Word, i: nat): (r: nat)
    requires i + 4 <= 32
    ensures r < 16
  {
    (if w[i] then 1 else 0) + (if w[i + 1] then 2 else 0) + (if w[i + 2] then 4 else 0) + (if w[i + 3] then 8 else 0)
  }

  /** (w >> i) & 0xff */
  function Byte(w: Word, i: nat): (r: nat)
    requires i + 8 <= 32
    ensures r < 256
  {
    Nibble(w, i) + 16 * Nibble(w, i + 4)
  }

  /** One row of __lowest_bit_bitmap: only its first entry differs from row to row. */
  function Row(first: nat): (r: seq<nat>)
    ensures |r| == 16
  {
    [first, 0, 1, 0, 2, 0, 1, 0, 3, 0, 1, 0, 2, 0, 1, 0]
  }

  const FIRST_OF_ROW: seq<nat> := [0, 4, 5, 4, 6, 4, 5, 4, 7, 4, 5, 4, 6, 4, 5, 4]

  function LowestBit(b: nat): nat
    requires b < 256
  {
    Row(FIRST_OF_ROW[b / 16])[b % 16]
  }

  /** __rt_ffs */
  function Ffs(w: Word): nat {
    if Byte(w, 0) != 0 then LowestBit(Byte(w, 0)) + 1
    else if Byte(w, 8) != 0 then LowestBit(Byte(w, 8)) + 9
    else if Byte(w, 16) != 0 then LowestBit(Byte(w, 16)) + 17
    else if Byte(w, 24) != 0 then LowestBit(Byte(w, 24)) + 25
    else 0
  }

  lemma NibbleBits(w: Word, i: nat)
    requires i + 4 <= 32
    ensures Nibble(w, i) == 0 <==> !w[i] && !w[i + 1] && !w[i + 2] && !w[i + 3]
    ensures Nibble(w, i) != 0 ==>
              var k := Row(0)[Nibble(w, i)];
              k < 4 && w[i + k] && forall j :: i <= j < i + k ==> !w[j]
    ensures FIRST_OF_ROW[Nibble(w, i)] == if Nibble(w, i) == 0 then 0 else 4 + Row(0)[Nibble(w, i)]
  {
  }

  /** The table entry of a byte is the position of its lowest set bit. */
  lemma ByteBits(w: Word, i: nat)
    requires i + 8 <= 32
    ensures Byte(w, i) == 0 <==> forall j :: i <= j < i + 8 ==> !w[j]
    ensures Byte(w, i) != 0 ==>
              var k := LowestBit(Byte(w, i));
              k < 8 && w[i + k] && forall j :: i <= j < i + k ==> !w[j]
  {
    var lo, hi := Nibble(w, i), Nibble(w, i + 4);
    NibbleBits(w, i);
    NibbleBits(w, i + 4);
    assert Byte(w, i) % 16 == lo && Byte(w, i) / 16 == hi;
    assert Row(FIRST_OF_ROW[hi])[lo] == if lo == 0 then FIRST_OF_ROW[hi] else Row(0)[lo];
  }

  /** __rt_ffs is 0 exactly for the zero word, and else one more than the lowest set bit. */
  lemma FfsFindsLowest(w: Word)
    ensures Ffs(w) <= 32
    ensures Ffs(w) == 0 <==> IsZero(w)
    ensures Ffs(w) != 0 ==> w[Ffs(w) - 1] && forall j :: 0 <= j < Ffs(w) - 1 ==> !w[j]
  {
    ByteBits(w, 0);
    ByteBits(w, 8);
    ByteBits(w, 16);
    ByteBits(w, 24);
  }
}

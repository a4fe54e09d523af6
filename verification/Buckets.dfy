/** The size of a coverage map, hit-count classes, and single-bit arithmetic on bytes. */
module Buckets {

  const MAP_SIZE: nat := 65536

  /** The bucket of an 8-bit hit count: one bit per class, none for a count of zero. */
  function CountClass(count: nat): (c: bv8)
    requires count < 256
    ensures count > 0 <==> IsBit(c)
    ensures count == 0 <==> c == 0
  {
    if count == 0 then 0
    else if count == 1 then 1
    else if count == 2 then 2
    else if count == 3 then 4
    else if count < 8 then 8
    else if count < 16 then 16
    else if count < 32 then 32
    else if count < 128 then 64
    else 128
  }

  /** Two hit counts lie in the same of the ranges 0, 1, 2, 3, 4-7, 8-15, 16-31, 32-127 and 128-255. */
  predicate SameRange(a: nat, b: nat) {
    && (a < 1 <==> b < 1) && (a < 2 <==> b < 2) && (a < 3 <==> b < 3) && (a < 4 <==> b < 4) && (a < 8 <==> b < 8)
    && (a < 16 <==> b < 16) && (a < 32 <==> b < 32) && (a < 128 <==> b < 128)
  }

  /** The classes are exactly the ranges, and a higher range has a higher bit. */
  lemma ClassesSplit(a: nat, b: nat)
    requires a < 256 && b < 256
    ensures CountClass(a) == CountClass(b) <==> SameRange(a, b)
    ensures a <= b ==> CountClass(a) <= CountClass(b)
  {
  }

  predicate IsBit(c: bv8) {
    c == 1 || c == 2 || c == 4 || c == 8 || c == 16 || c == 32 || c == 64 || c == 128
  }

  predicate HasBit(v: bv8, c: bv8) {
    v & c != 0
  }

  /** What an atomic fetch-and with the complement of c leaves behind. */
  function Clear(v: bv8, c: bv8): bv8 {
    v & !c
  }

  lemma ClearOneBit(v: bv8, c: bv8, d: bv8)
    requires IsBit(c) && IsBit(d)
    ensures HasBit(Clear(v, c), d) <==> HasBit(v, d) && d != c
  {
  }

  lemma ClearOnlyClears(v: bv8, c: bv8, d: bv8)
    requires HasBit(Clear(v, c), d)
    ensures HasBit(v, d)
  {
  }

  lemma AllBitsSet(d: bv8)
    requires IsBit(d)
    ensures HasBit(0xFF, d)
  {
  }

  /** A byte other than 0xFF has lost some bit. */
  lemma LostBit(v: bv8) returns (d: bv8)
    requires v != 0xFF
    ensures IsBit(d) && !HasBit(v, d)
  {
    if v & 1 == 0 { d := 1; }
    else if v & 2 == 0 { d := 2; }
    else if v & 4 == 0 { d := 4; }
    else if v & 8 == 0 { d := 8; }
    else if v & 16 == 0 { d := 16; }
    else if v & 32 == 0 { d := 32; }
    else if v & 64 == 0 { d := 64; }
    else { d := 128; }
  }
}

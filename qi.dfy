/**
 * A piece ("qi") packed into one byte.
 *
 *   bit 0  moves by one only (Goong, Xut)
 *   bit 1  variant of a qi (Xut, Paow, Jerng)
 *   bit 2  straight, sliding qi (Goo, Paow)
 *   bit 3  moves diagonally (T, Jerng)
 *   bit 4  Ma
 *   bit 5  Red
 *   bit 6  Green
 *   bit 7  discarded
 */
module Qi {

  const None: bv8 := 0x00

  const Goong: bv8 := 0x01
  const Xut: bv8 := 0x03
  const XutOrGoongMask: bv8 := Xut & Goong

  const Goo: bv8 := 0x04
  const Paow: bv8 := 0x06
  const GooOrPaowMask: bv8 := Goo & Paow

  const Ma: bv8 := 0x10

  const T: bv8 := 0x08
  const Jerng: bv8 := 0x0A
  const TOrJerngMask: bv8 := T & Jerng

  const R: bv8 := 0x20
  const G: bv8 := 0x40

  const ColourMask: bv8 := 0x60
  const TypeMask: bv8 := 0x1F

  /** The seven piece types the source declares. */
  predicate IsTypeConstant(t: bv8) {
    t == Goong || t == Xut || t == Goo || t == Paow || t == Ma || t == T || t == Jerng
  }

  /** A colour a piece may carry, or none at all. */
  predicate IsColourOrNone(c: bv8) {
    c == None || c == R || c == G
  }

  /** The low five bits: the type of the piece. */
  function Type(x: bv8): (t: bv8)
    ensures t as int == x as int % 32
  {
    x & TypeMask
  }

  /** Bits 5 and 6: the colour of the piece; bit 7 is dropped. */
  function Colour(x: bv8): (c: bv8)
    ensures c as int == (x as int / 32 % 4) * 32
  {
    x & ColourMask
  }

  /** Bit 0 is set: a qi that moves by one only. */
  predicate IsXutOrGoong(x: bv8)
    ensures IsXutOrGoong(x) <==> x as int % 2 == 1
  {
    (!x & XutOrGoongMask) == 0
  }

  /** Bit 2 is set. */
  predicate IsSlidingQi(x: bv8)
    ensures IsSlidingQi(x) <==> x as int / 4 % 2 == 1
  {
    (x & GooOrPaowMask) == GooOrPaowMask
  }

  /** Bit 3 is set. */
  predicate IsDiagonalQi(x: bv8)
    ensures IsDiagonalQi(x) <==> x as int / 8 % 2 == 1
  {
    (x & TOrJerngMask) == TOrJerngMask
  }

  /** Bit 4 is set. */
  predicate IsMa(x: bv8)
    ensures IsMa(x) <==> x as int / 16 % 2 == 1
  {
    (x & Ma) == Ma
  }

  /** The masks split a byte into disjoint parts, and together they cover all but bit 7. */
  lemma TypeAndColourPartition(x: bv8)
    ensures Type(x) & Colour(x) == 0
    ensures Type(x) | Colour(x) == x & 0x7F
    ensures x < 128 ==> Type(x) | Colour(x) == x
  {
  }

  /** Extraction is idempotent, and each mask removes what the other one keeps. */
  lemma ExtractionIdempotentAndOrthogonal(x: bv8)
    ensures Type(Type(x)) == Type(x)
    ensures Colour(Colour(x)) == Colour(x)
    ensures Type(Colour(x)) == None
    ensures Colour(Type(x)) == None
  {
  }

  /** Combining a type constant with a colour (or none) can be taken apart again. */
  lemma ComposeDecompose(t: bv8, c: bv8)
    requires IsTypeConstant(t) && IsColourOrNone(c)
    ensures Type(t | c) == t
    ensures Colour(t | c) == c
  {
  }

  /** Which type constants each predicate picks out, whatever colour they carry. */
  lemma PredicatesOnTypes(t: bv8, c: bv8)
    requires IsTypeConstant(t) && IsColourOrNone(c)
    ensures IsXutOrGoong(t | c) <==> t == Goong || t == Xut
    ensures IsSlidingQi(t | c) <==> t == Goo || t == Paow
    ensures IsDiagonalQi(t | c) <==> t == T || t == Jerng
    ensures IsMa(t | c) <==> t == Ma
  {
  }

  /** The empty cell has neither type nor colour and satisfies no predicate. */
  lemma NoneIsEmpty()
    ensures Type(None) == None && Colour(None) == None
    ensures !IsXutOrGoong(None) && !IsSlidingQi(None) && !IsDiagonalQi(None) && !IsMa(None)
  {
  }
}

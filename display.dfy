/** The framebuffer behind the emulator's window: 64 x 32 booleans,
    row-major, true for a white pixel. */
module Chip8Display {
  import opened Exceptions

  const Width := 64
  const Height := 32
  const PixelCount := Width * Height

  /** Java's int. */
  newtype int32 = v: int | -0x8000_0000 <= v < 0x8000_0000

  const Modulus := 0x1_0000_0000

  /** A mathematical integer reduced to a 32-bit two's-complement value,
      as Java's int multiplication and addition do. */
  function Wrap32(v: int): (w: int)
    ensures -0x8000_0000 <= w < 0x8000_0000
    ensures (w - v) % Modulus == 0
    ensures -0x8000_0000 <= v < 0x8000_0000 ==> w == v
  {
    (v + 0x8000_0000) % Modulus - 0x8000_0000
  }

  /** Values that differ by a multiple of 2^32 wrap to the same int. */
  lemma Wrap32Congruent(a: int, b: int, q: int)
    requires a == b + q * Modulus
    ensures Wrap32(a) == Wrap32(b)
  {
    var ra, rb := (a + 0x8000_0000) % Modulus, (b + 0x8000_0000) % Modulus;
    var da, db := (a + 0x8000_0000) / Modulus, (b + 0x8000_0000) / Modulus;
    assert ra - rb == (db - da + q) * Modulus;
  }

  /** The index setPixel writes: (y * 64) + x, each step in int arithmetic. */
  function PixelIndex(x: int32, y: int32): (r: int) {
    Wrap32(Wrap32(y as int * Width) + x as int)
  }

  /** Wrapping once at the end gives the same index; with no wrap-around
      it is plain row-major y * 64 + x. */
  lemma PixelIndexRowMajor(x: int32, y: int32)
    ensures PixelIndex(x, y) == Wrap32(y as int * Width + x as int)
    ensures 0 <= y as int * Width + x as int < PixelCount ==> PixelIndex(x, y) == y as int * Width + x as int
  {
    var p := y as int * Width;
    var w := Wrap32(p);
    Wrap32Congruent(w, p, (w - p) / Modulus);
    Wrap32Congruent(w + x as int, p + x as int, (w - p) / Modulus);
  }

  /** x is not checked against the width: x + 64 in row y is x in row y + 1. */
  lemma PixelIndexWrapsIntoNextRow(x: int32, y: int32)
    requires x as int + Width < 0x8000_0000 && y as int + 1 < 0x8000_0000
    ensures PixelIndex((x as int + Width) as int32, y) == PixelIndex(x, (y as int + 1) as int32)
  {
    PixelIndexRowMajor((x as int + Width) as int32, y);
    PixelIndexRowMajor(x, (y as int + 1) as int32);
    assert y as int * Width + (x as int + Width) == (y as int + 1) * Width + x as int;
  }

  /** The buffer after clear: every pixel false, length kept. */
  function Cleared(p: seq<bool>): (r: seq<bool>)
    ensures |r| == |p| && forall k :: 0 <= k < |r| ==> !r[k]
  {
    seq(|p|, _ => false)
  }

  lemma ClearIdempotent(p: seq<bool>)
    ensures Cleared(Cleared(p)) == Cleared(p)
  {
  }

  /** The buffer after setPixel(x, y, white), or the exception it throws. */
  function Painted(p: seq<bool>, x: int32, y: int32, white: bool): (r: (Outcome, seq<bool>))
    ensures |r.1| == |p|
    ensures var k := PixelIndex(x, y);
            if 0 <= k < |p| then
              r.0 == Normal && r.1[k] == white && forall j :: 0 <= j < |p| && j != k ==> r.1[j] == p[j]
            else
              r == (ArrayIndexOutOfBounds(k), p)
  {
    var k := PixelIndex(x, y);
    if 0 <= k < |p| then (Normal, p[k := white]) else (ArrayIndexOutOfBounds(k), p)
  }

  /** On the 2048-entry buffer, any (x, y) with 0 <= y * 64 + x < 2048 is
      accepted, x of 64 or more included, and writes entry y * 64 + x. */
  lemma PaintedRowMajor(p: seq<bool>, x: int32, y: int32, white: bool)
    requires |p| == PixelCount && 0 <= y as int * Width + x as int < PixelCount
    ensures Painted(p, x, y, white) == (Normal, p[y as int * Width + x as int := white])
  {
    PixelIndexRowMajor(x, y);
  }

  /** A second write to the same pixel replaces the first. */
  lemma PaintedLastWins(p: seq<bool>, x: int32, y: int32, first: bool, second: bool)
    ensures Painted(Painted(p, x, y, first).1, x, y, second) == Painted(p, x, y, second)
  {
    var k := PixelIndex(x, y);
    if 0 <= k < |p| {
      assert p[k := first][k := second] == p[k := second];
    }
  }

  class Display {
    var pixels: array<bool>

    ghost predicate Valid()
      reads this
    {
      pixels.Length == PixelCount
    }

    /** The pixel buffer as allocated: 2048 false entries. */
    constructor ()
      ensures Valid() && fresh(pixels)
      ensures forall k :: 0 <= k < PixelCount ==> !pixels[k]
    {
      pixels := new bool[PixelCount](_ => false);
    }

    method Clear()
      requires Valid()
      modifies pixels
      ensures Valid()
      ensures pixels[..] == Cleared(old(pixels[..]))
    {
      for index := 0 to pixels.Length
        invariant forall k :: 0 <= k < index ==> !pixels[k]
      {
        pixels[index] := false;
      }
    }

    method SetPixel(x: int32, y: int32, white: bool) returns (outcome: Outcome)
      requires Valid()
      modifies pixels
      ensures Valid()
      ensures (outcome, pixels[..]) == Painted(old(pixels[..]), x, y, white)
    {
      var index := Wrap32(Wrap32(y as int * Width) + x as int);
      if index < 0 || index >= pixels.Length {
        outcome := ArrayIndexOutOfBounds(index);
        return;
      }
      pixels[index] := white;
      outcome := Normal;
    }
  }
}

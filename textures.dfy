/** The texture buffer of src/texture.c: a width × height image of 32-bit
    words, a bounds-checked pixel fetch and the checkerboard fill. */
module Textures {
  import opened Geom

  /** The outcome of get_pixel: the word, or the fatal Assert. */
  datatype Fetch = Texel(word: u32) | Fatal

  /** The word index of pixel (x, y): row-major, one row of `width` words. */
  function PixelIndex(width: nat, x: nat, y: nat): nat
  {
    x + y * width
  }

  /** Inside a width × height image every pixel has its own index below
      width·height, and every such index is exactly one pixel. */
  lemma PixelIndexBijective(width: nat, height: nat, x: nat, y: nat, k: nat)
    requires x < width && y < height
    ensures PixelIndex(width, x, y) < width * height
    ensures k < width * height ==>
      (k % width < width && k / width < height && PixelIndex(width, k % width, k / width) == k)
    ensures forall x2: nat, y2: nat :: x2 < width && PixelIndex(width, x2, y2) == PixelIndex(width, x, y) ==> x2 == x && y2 == y
  {
    GridOffset(width, height, x, y);
    if k < width * height {
      GridCell(width, height, k);
    }
    forall x2: nat, y2: nat | x2 < width && PixelIndex(width, x2, y2) == PixelIndex(width, x, y)
      ensures x2 == x && y2 == y
    {
      DivModUnique(PixelIndex(width, x, y), width, y2, x2);
      DivModUnique(PixelIndex(width, x, y), width, y, x);
    }
  }

  /** The contents of a texture as a value: what a sampler reads. */
  datatype Image = Image(width: u32, height: u32, words: seq<u32>)

  /** wg_texture_t: width and height in pixels, `len` in bytes, and the
      pixel storage read as 32-bit words. */
  class Texture {
    var width: u32
    var height: u32
    var len: nat
    var buffer: array<u32>

    /** The storage holds one word per pixel. */
    predicate Fits()
      reads this
    {
      buffer.Length == width as int * height as int
    }

    /** The texture's current size and pixel words. */
    function Snapshot(): (img: Image)
      reads this, buffer
    {
      Image(width, height, buffer[..])
    }

    /** get_empty_texture. The byte count `width * height * 4` is computed in
        32-bit unsigned arithmetic before the cast to size_t, so it wraps; the
        storage is exactly one word per pixel whenever it does not. */
    constructor (w: u32, h: u32)
      ensures width == w && height == h
      ensures len == (w as int * h as int * 4) % 0x1_0000_0000
      ensures buffer.Length == len / 4 && fresh(buffer)
      ensures w as int * h as int * 4 < 0x1_0000_0000 ==> Fits() && len == 4 * buffer.Length
    {
      var n := w as int * h as int;
      var bytes := (n * 4) % 0x1_0000_0000;
      ByteCount(n);
      width, height := w, h;
      len := bytes;
      buffer := new u32[bytes / 4];
    }

    /** get_pixel: the word of pixel (x, y), or the fatal Assert when (x, y)
        is outside the image. */
    function GetPixel(x: u32, y: u32): (r: Fetch)
      requires Fits()
      reads this, buffer
      ensures r.Texel? <==> x < width && y < height
      ensures r.Texel? ==>
        (PixelIndex(width as int, x as int, y as int) < buffer.Length
         && r.word == buffer[PixelIndex(width as int, x as int, y as int)])
    {
      if x < width && y < height then
        PixelIndexBijective(width as int, height as int, x as int, y as int, 0);
        Texel(buffer[PixelIndex(width as int, x as int, y as int)])
      else
        Fatal
    }

    /** set_checkboard_texture: every pixel gets its checkerboard colour. */
    method SetCheckboardTexture(u: int, v: int, c1: u32, c2: u32)
      requires Fits() && u > 0 && v > 0
      modifies buffer
      ensures forall y: nat, x: nat :: y < height as int && x < width as int ==>
        PixelIndex(width as int, x, y) < buffer.Length
        && buffer[PixelIndex(width as int, x, y)] == Checker(u, v, c1, c2, x, y)
    {
      var w, h := width as int, height as int;
      for y := 0 to h
        invariant forall yy: nat, xx: nat :: yy < y && xx < w ==>
          PixelIndex(w, xx, yy) < buffer.Length && buffer[PixelIndex(w, xx, yy)] == Checker(u, v, c1, c2, xx, yy)
      {
        for x := 0 to w
          invariant forall yy: nat, xx: nat :: yy < y && xx < w ==>
            PixelIndex(w, xx, yy) < buffer.Length && buffer[PixelIndex(w, xx, yy)] == Checker(u, v, c1, c2, xx, yy)
          invariant forall xx: nat :: xx < x ==>
            PixelIndex(w, xx, y) < buffer.Length && buffer[PixelIndex(w, xx, y)] == Checker(u, v, c1, c2, xx, y)
        {
          PixelIndexBijective(w, h, x, y, 0);
          forall yy: nat, xx: nat | yy < y && xx < w
            ensures PixelIndex(w, xx, yy) < PixelIndex(w, x, y)
          {
            EarlierRow(w, xx, yy, y);
          }
          if (y / v + x / u) % 2 == 1 {
            buffer[PixelIndex(w, x, y)] := c1;
          } else {
            buffer[PixelIndex(w, x, y)] := c2;
          }
        }
      }
    }
  }

  /** A byte count of four bytes per pixel that does not wrap holds exactly
      one word per pixel. */
  lemma ByteCount(n: nat)
    ensures n * 4 < 0x1_0000_0000 ==> (n * 4) % 0x1_0000_0000 == n * 4 && (n * 4) / 4 == n
  {
  }

  /** A pixel of an earlier row comes earlier in the buffer. */
  lemma EarlierRow(w: nat, xx: nat, yy: nat, y: nat)
    requires xx < w && yy < y
    ensures PixelIndex(w, xx, yy) < PixelIndex(w, 0, y)
  {
    MulAtLeast(y - yy, w);
    assert y * w - yy * w == (y - yy) * w;
  }

  /** The colour of pixel (x, y) of a u × v checkerboard: c1 on the blocks
      whose column and row numbers add up to an odd number, c2 on the others. */
  function Checker(u: int, v: int, c1: u32, c2: u32, x: int, y: int): u32
    requires u > 0 && v > 0
  {
    if (y / v + x / u) % 2 == 1 then c1 else c2
  }

  /** The fill uses two colours only; pixels of one u × v block share a
      colour; blocks side by side have different colours when c1 != c2. */
  lemma CheckerBlocks(u: int, v: int, c1: u32, c2: u32, x: nat, y: nat, x2: nat, y2: nat)
    requires u > 0 && v > 0
    ensures Checker(u, v, c1, c2, x, y) == c1 || Checker(u, v, c1, c2, x, y) == c2
    ensures x / u == x2 / u && y / v == y2 / v ==> Checker(u, v, c1, c2, x, y) == Checker(u, v, c1, c2, x2, y2)
    ensures c1 != c2 ==> Checker(u, v, c1, c2, x, y) != Checker(u, v, c1, c2, x + u, y)
  {
    NextBlock(x, u);
    var s := y / v + x / u;
    assert y / v + (x + u) / u == s + 1;
    assert (s + 1) % 2 != s % 2;
  }

  lemma NextBlock(x: nat, u: int)
    requires u > 0
    ensures (x + u) / u == x / u + 1
  {
    DivModUnique(x, u, x / u, x % u);
    DivModUnique(x + u, u, x / u + 1, x % u);
  }
}

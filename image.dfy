/** The frame buffer of the ray tracer (`Image` in src/raytracingscene.h):
    width times height colours in one array, row after row. */
module Images {
  import opened RealMath
  import opened Basic

  class Image {
    const width: nat
    const height: nat
    /** `m_pixels`: the pointer is fixed, the colours behind it change. */
    const pixels: array<Color>

    predicate Valid()
      reads this
    {
      pixels.Length == width * height
    }

    /** `Image(width, height)`: `new Color[width * height]` runs the default
        constructor of every element, so every pixel starts black. */
    constructor (width: nat, height: nat)
      ensures this.width == width && this.height == height && Valid()
      ensures fresh(pixels)
      ensures forall i :: 0 <= i < pixels.Length ==> pixels[i] == Black
    {
      this.width := width;
      this.height := height;
      pixels := new Color[width * height](_ => Black);
    }

    /** The slot `pixel(x, y)` refers to: `y * m_width + x`. Inside the
        image it is a slot of the array (the source does not check the
        bounds). */
    function Index(x: nat, y: nat): (i: nat)
      requires x < width && y < height
      ensures i < width * height
    {
      IndexInRange(width, height, x, y);
      y * width + x
    }

    /** The colour `pixel(x, y)` reads. */
    function Pixel(x: nat, y: nat): Color
      reads this, pixels
      requires Valid() && x < width && y < height
    {
      pixels[Index(x, y)]
    }

    /** `pixel(x, y) = color`: that pixel changes and no other. */
    method SetPixel(x: nat, y: nat, color: Color)
      requires Valid() && x < width && y < height
      modifies pixels
      ensures pixels[..] == old(pixels[..])[Index(x, y) := color]
      ensures Pixel(x, y) == color
      ensures forall x2: nat, y2: nat :: x2 < width && y2 < height && (x2, y2) != (x, y) ==>
        Pixel(x2, y2) == old(Pixel(x2, y2))
    {
      pixels[Index(x, y)] := color;
      forall x2: nat, y2: nat | x2 < width && y2 < height && (x2, y2) != (x, y)
        ensures Pixel(x2, y2) == old(Pixel(x2, y2))
      {
        IndexInjective(width, height, x, y, x2, y2);
      }
    }
  }

  lemma IndexInRange(width: nat, height: nat, x: nat, y: nat)
    requires x < width && y < height
    ensures y * width + x < width * height
  {
    assert y * width + x < (y + 1) * width;
    MulLe(y + 1, height, width);
  }

  /** Distinct pixels have distinct slots: the slot gives back the row, as
      its quotient by the width, and the column, as the remainder. */
  lemma IndexInjective(width: nat, height: nat, x: nat, y: nat, x2: nat, y2: nat)
    requires x < width && y < height && x2 < width && y2 < height
    ensures y * width + x == y2 * width + x2 ==> x == x2 && y == y2
  {
    DivUnique(y * width + x, width, y);
    DivUnique(y2 * width + x2, width, y2);
  }

  /** Every slot of the array is the slot of one pixel. */
  lemma IndexOnto(width: nat, height: nat, i: nat)
    requires i < width * height
    ensures 0 < width && i % width < width && i / width < height
    ensures (i / width) * width + i % width == i
  {
    DivBounds(i, width);
    if height <= i / width {
      MulLe(height, i / width, width);
      assert false;
    }
  }
}

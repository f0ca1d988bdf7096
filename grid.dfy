/** The row-major pixel layout shared by every texture operation: the pixel at
    column x and row y of a texture `width` pixels wide lives at flat index
    y * width + x (the layout Texture2D.GetPixels and SetPixels use). */
module Grid {

  /** Flat index of pixel (x, y) in a buffer `width` pixels wide. */
  function Idx(width: nat, x: nat, y: nat): nat {
    y * width + x
  }

  /** a <= b implies a * c <= b * c for a non-negative factor c. */
  lemma {:induction false} MulMonotone(a: nat, b: nat, c: nat)
    requires a <= b
    ensures a * c <= b * c
  {
    if c > 0 {
      MulMonotone(a, b, c - 1);
      assert a * c == a * (c - 1) + a;
      assert b * c == b * (c - 1) + b;
    }
  }

  /** Every coordinate inside a width x height grid has an index inside the buffer. */
  lemma IdxInRange(width: nat, height: nat, x: nat, y: nat)
    requires x < width && y < height
    ensures Idx(width, x, y) < width * height
  {
    MulMonotone(y + 1, height, width);
    assert (y + 1) * width == y * width + width;
    assert height * width == width * height;
  }

  /** Every index of a width x height buffer is the index of exactly the
      coordinate (i % width, i / width), which lies inside the grid. */
  lemma Decompose(width: nat, height: nat, i: nat)
    requires i < width * height
    ensures width > 0
    ensures i % width < width && i / width < height
    ensures Idx(width, i % width, i / width) == i
  {
    if width == 0 {
      assert false;
    }
    if i / width >= height {
      MulMonotone(height, i / width, width);
      assert false;
    }
  }

  /** The coordinate of an index is recovered by division and remainder. */
  lemma Coordinates(width: nat, x: nat, y: nat)
    requires x < width
    ensures Idx(width, x, y) / width == y
    ensures Idx(width, x, y) % width == x
  {
    var i := Idx(width, x, y);
    var q, r := i / width, i % width;
    assert i == q * width + r && 0 <= r < width;
    assert (q + 1) * width == q * width + width;
    assert (y + 1) * width == y * width + width;
    if q < y {
      MulMonotone(q + 1, y, width);
      assert false;
    } else if q > y {
      MulMonotone(y + 1, q, width);
      assert false;
    }
  }

  /** Distinct coordinates inside the grid have distinct indices. */
  lemma IdxInjective(width: nat, x1: nat, y1: nat, x2: nat, y2: nat)
    requires x1 < width && x2 < width
    requires Idx(width, x1, y1) == Idx(width, x2, y2)
    ensures x1 == x2 && y1 == y2
  {
    Coordinates(width, x1, y1);
    Coordinates(width, x2, y2);
  }

  /** The last pixel of a width x height buffer is the top-right corner
      (width - 1, height - 1). */
  lemma LastIsCorner(width: nat, height: nat)
    requires width > 0 && height > 0
    ensures Idx(width, width - 1, height - 1) == height * width - 1
  {
    assert (height - 1) * width == height * width - width;
  }
}

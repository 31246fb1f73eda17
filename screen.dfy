/**
 * Conversions between viewport pixels and the signed unit square that
 * three.js uses for pointer rays and projected positions. All arithmetic is
 * over `real`.
 */
module Screen {

  /** A point or vector in three-dimensional space (a three.js `Vector3`). */
  datatype Vec3 = Vec3(x: real, y: real, z: real)

  /** Map a pointer's pixel column to the horizontal unit coordinate. */
  function PointerX(clientX: real, width: real): (nx: real)
    requires width > 0.0
    ensures 0.0 <= clientX <= width ==> -1.0 <= nx <= 1.0
    ensures clientX == 0.0 ==> nx == -1.0
    ensures clientX == width ==> nx == 1.0
    ensures clientX == width / 2.0 ==> nx == 0.0
  {
    UnitRatio(clientX, width);
    (clientX / width) * 2.0 - 1.0
  }

  /** Map a pointer's pixel row to the vertical unit coordinate; screen rows
      grow downwards while the unit coordinate grows upwards. */
  function PointerY(clientY: real, height: real): (ny: real)
    requires height > 0.0
    ensures 0.0 <= clientY <= height ==> -1.0 <= ny <= 1.0
    ensures clientY == 0.0 ==> ny == 1.0
    ensures clientY == height ==> ny == -1.0
    ensures clientY == height / 2.0 ==> ny == 0.0
  {
    UnitRatio(clientY, height);
    -(clientY / height) * 2.0 + 1.0
  }

  /** Map a projected horizontal coordinate back to a pixel column. */
  function NdcToScreenX(ndcX: real, width: real): (px: real)
    ensures width >= 0.0 && -1.0 <= ndcX <= 1.0 ==> 0.0 <= px <= width
    ensures ndcX == 0.0 ==> px == width / 2.0
    ensures ndcX == -1.0 ==> px == 0.0
    ensures ndcX == 1.0 ==> px == width
  {
    var fraction := ndcX * 0.5 + 0.5;
    UnitScale(fraction, width);
    fraction * width
  }

  /** Map a projected vertical coordinate back to a pixel row. */
  function NdcToScreenY(ndcY: real, height: real): (py: real)
    ensures height >= 0.0 && -1.0 <= ndcY <= 1.0 ==> 0.0 <= py <= height
    ensures ndcY == 0.0 ==> py == height / 2.0
    ensures ndcY == 1.0 ==> py == 0.0
    ensures ndcY == -1.0 ==> py == height
  {
    var fraction := -ndcY * 0.5 + 0.5;
    UnitScale(fraction, height);
    fraction * height
  }

  /** Moving the pointer right moves the ray right. */
  lemma PointerXIncreasing(a: real, b: real, width: real)
    requires width > 0.0 && a < b
    ensures PointerX(a, width) < PointerX(b, width)
  {
    assert a / width < b / width;
  }

  /** Moving the pointer down moves the ray down: the y axis is inverted. */
  lemma PointerYInverted(a: real, b: real, height: real)
    requires height > 0.0 && a < b
    ensures PointerY(a, height) > PointerY(b, height)
  {
    assert a / height < b / height;
  }

  /** A pointer placed on the pixel a projected point maps to recovers that
      point's normalized coordinates. */
  lemma ScreenThenPointer(ndcX: real, ndcY: real, width: real, height: real)
    requires width > 0.0 && height > 0.0
    ensures PointerX(NdcToScreenX(ndcX, width), width) == ndcX
    ensures PointerY(NdcToScreenY(ndcY, height), height) == ndcY
  {
    ScaleThenDivide(ndcX * 0.5 + 0.5, width);
    ScaleThenDivide(-ndcY * 0.5 + 0.5, height);
  }

  /** Normalizing a pointer and projecting back lands on the same pixel. */
  lemma PointerThenScreen(clientX: real, clientY: real, width: real, height: real)
    requires width > 0.0 && height > 0.0
    ensures NdcToScreenX(PointerX(clientX, width), width) == clientX
    ensures NdcToScreenY(PointerY(clientY, height), height) == clientY
  {
    assert PointerX(clientX, width) * 0.5 + 0.5 == clientX / width;
    assert -PointerY(clientY, height) * 0.5 + 0.5 == clientY / height;
  }

  // Helpers for the non-linear steps above.

  lemma UnitRatio(x: real, w: real)
    requires w > 0.0
    ensures 0.0 <= x <= w ==> 0.0 <= x / w <= 1.0
  {
  }

  lemma UnitScale(a: real, w: real)
    ensures 0.0 <= a <= 1.0 && w >= 0.0 ==> 0.0 <= a * w <= w
  {
    if 0.0 <= a <= 1.0 && w >= 0.0 {
      assert 0.0 <= (1.0 - a) * w;
    }
  }

  lemma ScaleThenDivide(a: real, w: real)
    requires w != 0.0
    ensures (a * w) / w == a
  {
  }
}

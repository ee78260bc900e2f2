// Integer geometry of fuchsia-llui (public/rust/crates/fuchsia-llui/src/geometry.rs):
// sizes and points with componentwise arithmetic, and rectangles.
//
// Fields are Rust `i32`; arithmetic that leaves the `i32` range panics in
// a debug build, so the operations require their results to fit.

module LluiGeometry {
  import opened Base

  datatype Size = Size(width: int, height: int)
  {
    predicate Valid() { IsI32(width) && IsI32(height) }

    /** Size::_add: componentwise sum. */
    function Add(size: Size): Size
      requires IsI32(width + size.width) && IsI32(height + size.height)
    {
      Size(width + size.width, height + size.height)
    }

    /** Size::_subtract: componentwise difference. */
    function Subtract(size: Size): Size
      requires IsI32(width - size.width) && IsI32(height - size.height)
    {
      Size(width - size.width, height - size.height)
    }
  }

  datatype Point = Point(x: int, y: int)
  {
    predicate Valid() { IsI32(x) && IsI32(y) }

    /** Point::add: componentwise sum. */
    function Add(pt: Point): Point
      requires IsI32(x + pt.x) && IsI32(y + pt.y)
    {
      Point(x + pt.x, y + pt.y)
    }

    /** Point::subtract: componentwise difference. */
    function Subtract(pt: Point): Point
      requires IsI32(x - pt.x) && IsI32(y - pt.y)
    {
      Point(x - pt.x, y - pt.y)
    }

    /** Point::to_size: x becomes the width and y the height. */
    function ToSize(): Size
    {
      Size(x, y)
    }
  }

  datatype Rectangle = Rectangle(origin: Point, size: Size)
  {
    /** Rectangle::empty as written: only when neither dimension is positive. */
    predicate EmptyAsWritten()
    {
      size.width <= 0 && size.height <= 0
    }

    /** Emptiness as a zero-area test: when either dimension is not positive. */
    predicate IsEmpty()
    {
      size.width <= 0 || size.height <= 0
    }

    /** The points of the half-open area the rectangle covers. */
    predicate Contains(p: Point)
    {
      origin.x <= p.x < origin.x + size.width && origin.y <= p.y < origin.y + size.height
    }
  }

  /** Subtracting what was added gives the size back. */
  lemma SizeAddSubtract(a: Size, b: Size)
    requires a.Valid() && b.Valid()
    requires IsI32(a.width + b.width) && IsI32(a.height + b.height)
    ensures a.Add(b).Subtract(b) == a
    ensures a.Add(b) == b.Add(a)
  {
  }

  /** Adding what was subtracted gives the size back. */
  lemma SizeSubtractAdd(a: Size, b: Size)
    requires a.Valid() && b.Valid()
    requires IsI32(a.width - b.width) && IsI32(a.height - b.height)
    ensures a.Subtract(b).Add(b) == a
  {
  }

  /** Subtracting what was added gives the point back, and addition commutes. */
  lemma PointAddSubtract(p: Point, q: Point)
    requires p.Valid() && q.Valid()
    requires IsI32(p.x + q.x) && IsI32(p.y + q.y)
    ensures p.Add(q).Subtract(q) == p
    ensures p.Add(q) == q.Add(p)
  {
  }

  /** A point minus another is the offset that leads back to it. */
  lemma PointSubtractAdd(p: Point, q: Point)
    requires p.Valid() && q.Valid()
    requires IsI32(p.x - q.x) && IsI32(p.y - q.y)
    ensures p.Subtract(q).Add(q) == p
  {
  }

  /** to_size carries point arithmetic over to size arithmetic, component for component. */
  lemma ToSizeHomomorphic(p: Point, q: Point)
    requires IsI32(p.x + q.x) && IsI32(p.y + q.y)
    requires IsI32(p.x - q.x) && IsI32(p.y - q.y)
    ensures p.Add(q).ToSize() == p.ToSize().Add(q.ToSize())
    ensures p.Subtract(q).ToSize() == p.ToSize().Subtract(q.ToSize())
    ensures p.ToSize().width == p.x && p.ToSize().height == p.y
  {
  }

  /** The zero-area test holds exactly when the rectangle covers no point. */
  lemma IsEmptyIffNoPoint(r: Rectangle)
    ensures r.IsEmpty() <==> forall p: Point :: !r.Contains(p)
  {
    if !r.IsEmpty() {
      assert r.Contains(r.origin);
    }
  }

  /** What empty as written decides: both dimensions non-positive, and then no point is covered. */
  lemma EmptyAsWrittenFacts(r: Rectangle)
    ensures r.EmptyAsWritten() <==> r.size.width <= 0 && r.size.height <= 0
    ensures r.EmptyAsWritten() ==> r.IsEmpty()
  {
  }

  /** A rectangle of width 0 and height 10 covers no point, yet empty as written says it is not empty. */
  lemma EmptyAsWrittenMissesFlat()
    ensures var r := Rectangle(Point(0, 0), Size(0, 10));
      !r.EmptyAsWritten() && r.IsEmpty() && forall p: Point :: !r.Contains(p)
  {
    IsEmptyIffNoPoint(Rectangle(Point(0, 0), Size(0, 10)));
  }
}

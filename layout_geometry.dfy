/**
 * The geometry values the staggered layout produces: sizes, rectangles,
 * index paths and the per-element layout attributes
 * (`PinterestLayout2Attributes`), with the attribute equality rule.
 */
module LayoutGeometry {
  import opened Wrappers

  /** `CGSize`, with `CGFloat` as an exact real. */
  datatype Size = Size(width: real, height: real)

  const ZeroSize := Size(0.0, 0.0)

  /** `CGRect` given by its origin and size. */
  datatype Rect = Rect(x: real, y: real, width: real, height: real) {

    /** The rectangle's `size`. */
    function Extent(): Size {
      Size(width, height)
    }

    /** `maxY`: the bottom edge, also for a rectangle with a negative height. */
    function MaxY(): (bottom: real)
      ensures bottom >= y && bottom >= y + height
      ensures bottom == y || bottom == y + height
    {
      if height >= 0.0 then y + height else y
    }

    function MinX(): real { if width >= 0.0 then x else x + width }
    function MaxX(): real { if width >= 0.0 then x + width else x }
    function MinY(): real { if height >= 0.0 then y else y + height }

    /** `intersects`: the interiors overlap on both axes. */
    predicate Intersects(other: Rect) {
      MinX() < other.MaxX() && other.MinX() < MaxX() &&
      MinY() < other.MaxY() && other.MinY() < MaxY()
    }
  }

  datatype IndexPath = IndexPath(section: nat, item: nat)

  /** What an attributes record lays out: a cell or a supplementary view. */
  datatype ElementKind = Cell | SectionHeader | SectionFooter

  /**
   * `PinterestLayout2Attributes`: the kind, index path and frame a
   * `UICollectionViewLayoutAttributes` carries, plus `cellHeight`
   * (0 unless the layout sets it).
   */
  datatype Attributes = Attributes(kind: ElementKind, indexPath: IndexPath, frame: Rect, cellHeight: real)

  /** The inherited `isEqual`: same element, same place. */
  predicate BaseEqual(a: Attributes, b: Attributes) {
    a.kind == b.kind && a.indexPath == b.indexPath && a.frame == b.frame
  }

  /**
   * `PinterestLayout2Attributes.isEqual(_:)`; `None` stands for `nil` or an
   * object of another class.
   */
  predicate IsEqual(a: Attributes, candidate: Option<Attributes>) {
    match candidate
    case Some(b) => b.cellHeight == a.cellHeight && BaseEqual(a, b)
    case None => false
  }

  /** Two attributes records are equal exactly when every modelled field agrees. */
  lemma IsEqualIffSame(a: Attributes, b: Attributes)
    ensures IsEqual(a, Some(b)) <==> a == b
    ensures !IsEqual(a, None)
  {
  }

  /**
   * Intersection is symmetric, a rectangle with an area meets itself, and a
   * rectangle that ends where (or above where) another starts does not meet
   * it: cells stacked in one column never intersect.
   */
  lemma IntersectsLaws(a: Rect, b: Rect)
    ensures a.Intersects(b) <==> b.Intersects(a)
    ensures a.width != 0.0 && a.height != 0.0 ==> a.Intersects(a)
    ensures a.MaxY() <= b.MinY() ==> !a.Intersects(b)
  {
  }

  /** Records that differ only in `cellHeight` are not equal. */
  lemma CellHeightMatters(a: Attributes, h: real)
    requires h != a.cellHeight
    ensures BaseEqual(a, a.(cellHeight := h))
    ensures !IsEqual(a, Some(a.(cellHeight := h)))
  {
  }
}

/**
 * `PinterestLayout`, the staggered collection-view layout, as a class whose
 * fields are the layout's stored properties.  `Update` runs the layout pass
 * with the column, section and item loops and is proved to end in the state
 * `LayoutSpec.Rebuild` describes; the other methods are the layout's
 * invalidation, preparation and query entry points.
 *
 * The collection view and its delegate are not objects here: every method
 * that consults them takes a `Host` value (content width, item counts,
 * header/footer size methods, item height provider).
 */
module PinterestLayoutEngine {
  import opened Wrappers
  import opened LayoutGeometry
  import opened LayoutSpec

  /** `UICollectionViewUpdateItem.updateAction`; `Unknown` is any future case. */
  datatype UpdateAction = Insert | Delete | Reload | Move | NoUpdate | Unknown

  /** The number of `Delete` actions among `actions`: each one runs a pass of its own. */
  function DeleteCount(actions: seq<UpdateAction>): (k: nat)
    ensures k <= |actions|
    ensures k == 0 <==> Delete !in actions
  {
    if actions == [] then 0
    else DeleteCount(actions[..|actions| - 1]) + if actions[|actions| - 1] == Delete then 1 else 0
  }

  lemma DeleteCountStep(actions: seq<UpdateAction>, i: nat)
    requires i < |actions|
    ensures DeleteCount(actions[..i + 1]) == DeleteCount(actions[..i]) + if actions[i] == Delete then 1 else 0
  {
    assert actions[..i + 1][..i] == actions[..i];
  }

  /** `shouldInvalidateLayout(forBoundsChange:)`: only a change of size invalidates. */
  function ShouldInvalidateLayout(newBounds: Rect, bounds: Rect): (b: bool)
    ensures b <==> newBounds.width != bounds.width || newBounds.height != bounds.height
  {
    newBounds.Extent() != bounds.Extent()
  }

  /** Scrolling moves the bounds' origin and never invalidates the layout. */
  lemma ScrollingKeepsLayout(bounds: Rect, dx: real, dy: real)
    ensures !ShouldInvalidateLayout(bounds.(x := bounds.x + dx, y := bounds.y + dy), bounds)
  {
  }

  /** `update()`'s column loop: the x offset of every column. */
  method ColumnXOffsets(width: real, spacing: real, n: nat) returns (xs: seq<real>)
    ensures xs == XOffsets(width, spacing, n)
  {
    xs := [];
    for column := 0 to n
      invariant |xs| == column
      invariant forall c :: 0 <= c < column ==> xs[c] == (width + spacing) * c as real
    {
      xs := xs + [(width + spacing) * column as real];
    }
    assert forall c :: 0 <= c < n ==> xs[c] == XOffsets(width, spacing, n)[c];
  }

  /** The attributes of `cache` whose frames intersect `rect`, collected by one scan in cache order. */
  method FilterIntersecting(cache: seq<Attributes>, rect: Rect) returns (r: seq<Attributes>)
    ensures r == Intersecting(cache, rect)
  {
    r := [];
    for i := 0 to |cache|
      invariant r == Intersecting(cache[..i], rect)
    {
      assert cache[..i + 1][..i] == cache[..i];
      if cache[i].frame.Intersects(rect) {
        r := r + [cache[i]];
      }
    }
    assert cache[..|cache|] == cache;
  }

  class PinterestLayout {
    var numberOfColumns: int
    var columnSpacing: real
    var cellPadding: real
    var headerReferenceSize: Size
    var footerReferenceSize: Size
    var sectionPadding: real
    var cache: seq<Attributes>
    var contentHeight: real
    var cellHeightCacheArray: seq<Option<real>>
    var calculationIndex: int
    /** The index paths the height provider has been asked about, in call order. */
    ghost var providerCalls: seq<IndexPath>
    /** The `updating:` values sent to the delegate's optional progress callback. */
    ghost var updatingNotices: seq<bool>

    /** A layout with the declared defaults: one column, 12-point spacings, no header or footer. */
    constructor()
      ensures Config() == LayoutSpec.Config(1, 12.0, 12.0, 12.0, ZeroSize, ZeroSize)
      ensures State() == LayoutState([], 0.0, [], 0, [])
      ensures updatingNotices == []
    {
      numberOfColumns := 1;
      columnSpacing := 12.0;
      cellPadding := 12.0;
      headerReferenceSize := ZeroSize;
      footerReferenceSize := ZeroSize;
      sectionPadding := 12.0;
      cache := [];
      contentHeight := 0.0;
      cellHeightCacheArray := [];
      calculationIndex := 0;
      providerCalls := [];
      updatingNotices := [];
    }

    function Config(): LayoutSpec.Config
      reads this
    {
      LayoutSpec.Config(numberOfColumns, columnSpacing, cellPadding, sectionPadding,
                        headerReferenceSize, footerReferenceSize)
    }

    ghost function State(): LayoutState
      reads this
    {
      LayoutState(cache, contentHeight, cellHeightCacheArray, calculationIndex, providerCalls)
    }

    /** `collectionViewContentSize`. */
    function ContentSize(host: Host): (size: Size)
      reads this
      ensures size.width == host.contentWidth && size.height == contentHeight
    {
      Size(host.contentWidth, contentHeight)
    }

    /** `invalidateLayout()`: drops the geometry, keeps the height cache and the pass count. */
    method InvalidateLayout()
      modifies this
      ensures State() == old(State()).(cache := [], contentHeight := 0.0)
      ensures Config() == old(Config()) && updatingNotices == old(updatingNotices)
    {
      cache := [];
      contentHeight := 0.0;
    }

    /** `update()`: one complete layout pass. */
    method Update(host: Host)
      requires numberOfColumns >= 1
      modifies this
      ensures State() == Rebuild(old(Config()), host, old(State()))
      ensures Config() == old(Config())
      ensures updatingNotices == old(updatingNotices) + [true, false]
    {
      updatingNotices := updatingNotices + [true];
      cache := [];
      contentHeight := 0.0;
      ghost var cfg := Config();
      ghost var cleared := State();

      var columnWidth := (host.contentWidth - (numberOfColumns - 1) as real * columnSpacing) / numberOfColumns as real;
      var cellWidth := columnWidth;
      var xOffsets := ColumnXOffsets(columnWidth, columnSpacing, numberOfColumns);

      for section := 0 to |host.itemCounts|
        invariant Config() == cfg
        invariant State() == LayoutSections(cfg, host, xOffsets, cellWidth, cleared, section)
        invariant updatingNotices == old(updatingNotices) + [true]
      {
        LayOutSection(host, xOffsets, cellWidth, section);
      }

      updatingNotices := updatingNotices + [false];
    }

    /** One iteration of `update()`'s section loop: header, items, footer. */
    method LayOutSection(host: Host, xOffsets: seq<real>, cellWidth: real, section: nat)
      requires |xOffsets| == numberOfColumns >= 1 && section < |host.itemCounts|
      modifies this
      ensures State() == LayoutSection(old(Config()), host, xOffsets, cellWidth, section, old(State()))
      ensures Config() == old(Config()) && updatingNotices == old(updatingNotices)
    {
      ghost var cfg := Config();
      var numberOfItems := host.itemCounts[section];

      PlaceSectionHeader(host, section);

      var yOffsets := Repeat(contentHeight, numberOfColumns);

      calculationIndex := calculationIndex + 1;
      if calculationIndex >= 3 {
        cellHeightCacheArray := [];
      }
      ghost var start := SectionStart(cfg, host, xOffsets, section, old(State()));
      assert Columns(yOffsets, State()) == start;

      yOffsets := PlaceSectionItems(host, xOffsets, cellWidth, section, numberOfItems, yOffsets);
      ghost var placed := PlaceItems(cfg, host, xOffsets, cellWidth, section, start, numberOfItems);
      assert State() == placed.st;

      PlaceSectionFooter(host, section);
      assert State() == PlaceFooter(cfg, host, section, placed.st);
    }

    /** The header part of `update()`'s section loop. */
    method PlaceSectionHeader(host: Host, section: nat)
      modifies this
      ensures State() == PlaceHeader(old(Config()), host, section, old(State()))
      ensures Config() == old(Config()) && updatingNotices == old(updatingNotices)
    {
      var headerSize := HeaderSize(Config(), host, section);
      if headerSize != ZeroSize {
        if section != 0 {
          contentHeight := contentHeight + sectionPadding;
        }
        var headerX := (host.contentWidth - headerSize.width) / 2.0;
        var headerFrame := Rect(headerX, contentHeight, headerSize.width, headerSize.height);
        cache := cache + [Attributes(SectionHeader, IndexPath(section, 0), headerFrame, 0.0)];
        contentHeight := headerFrame.MaxY();
        contentHeight := contentHeight + sectionPadding;
      }
    }

    /** The footer part of `update()`'s section loop. */
    method PlaceSectionFooter(host: Host, section: nat)
      modifies this
      ensures State() == PlaceFooter(old(Config()), host, section, old(State()))
      ensures Config() == old(Config()) && updatingNotices == old(updatingNotices)
    {
      var footerSize := FooterSize(Config(), host, section);
      if footerSize != ZeroSize {
        contentHeight := contentHeight + sectionPadding;
        var footerX := (host.contentWidth - footerSize.width) / 2.0;
        var footerFrame := Rect(footerX, contentHeight, footerSize.width, footerSize.height);
        cache := cache + [Attributes(SectionFooter, IndexPath(section, 0), footerFrame, 0.0)];
        contentHeight := footerFrame.MaxY();
      }
    }

    /** `update()`'s item loop for one section, starting from the column offsets `yOffsets`. */
    method PlaceSectionItems(host: Host, xOffsets: seq<real>, cellWidth: real, section: nat, numberOfItems: nat,
                             yOffsets: seq<real>)
      returns (ys: seq<real>)
      requires |yOffsets| == |xOffsets| >= 1
      modifies this
      ensures Columns(ys, State())
              == PlaceItems(old(Config()), host, xOffsets, cellWidth, section, Columns(yOffsets, old(State())), numberOfItems)
      ensures Config() == old(Config()) && updatingNotices == old(updatingNotices)
    {
      ghost var cfg := Config();
      ghost var start := Columns(yOffsets, State());
      ys := yOffsets;
      for item := 0 to numberOfItems
        invariant Config() == cfg && updatingNotices == old(updatingNotices)
        invariant Columns(ys, State()) == PlaceItems(cfg, host, xOffsets, cellWidth, section, start, item)
      {
        ys := PlaceSectionItem(host, xOffsets, cellWidth, IndexPath(section, item), ys);
      }
    }

    /** The body of `update()`'s item loop: item `indexPath.item` goes to the top of the shortest column. */
    method PlaceSectionItem(host: Host, xOffsets: seq<real>, cellWidth: real, indexPath: IndexPath, yOffsets: seq<real>)
      returns (ys: seq<real>)
      requires |yOffsets| == |xOffsets| >= 1 && indexPath.item <= |cellHeightCacheArray|
      modifies this
      ensures Columns(ys, State())
              == PlaceItem(old(Config()), host, xOffsets, cellWidth, indexPath.section, indexPath.item, Columns(yOffsets, old(State())))
      ensures Config() == old(Config()) && updatingNotices == old(updatingNotices)
    {
      var item := indexPath.item;
      var column := ShortestColumn(yOffsets);
      if !(item < |cellHeightCacheArray|) {
        var cellHeight := host.heightFor(indexPath, cellWidth);
        cellHeightCacheArray := cellHeightCacheArray + [Some(cellHeight)];
        providerCalls := providerCalls + [indexPath];
      }
      assert State() == LookUpHeight(host, cellWidth, indexPath, old(State()));
      var height := cellHeightCacheArray[item].GetOr(0.0);
      var frame := Rect(xOffsets[column], yOffsets[column], cellWidth, height);
      cache := cache + [Attributes(Cell, indexPath, frame, height)];
      contentHeight := Max(contentHeight, frame.MaxY());
      ys := yOffsets[column := yOffsets[column] + height + cellPadding];
    }

    /** `prepare()`: a pass only when there is no geometry. */
    method Prepare(host: Host)
      requires numberOfColumns >= 1
      modifies this
      ensures old(cache) == [] ==> State() == Rebuild(old(Config()), host, old(State()))
                                   && updatingNotices == old(updatingNotices) + [true, false]
      ensures old(cache) != [] ==> State() == old(State()) && updatingNotices == old(updatingNotices)
      ensures Config() == old(Config())
    {
      if cache == [] {
        Update(host);
      }
    }

    /**
     * `prepare(forCollectionViewUpdates:)`: every action except `NoUpdate`
     * drops the geometry, a `Delete` also runs a pass at once, and a final
     * pass always follows.
     */
    method PrepareForCollectionViewUpdates(host: Host, actions: seq<UpdateAction>)
      requires numberOfColumns >= 1
      modifies this
      ensures State() == RebuildTimes(old(Config()), host, old(State()), DeleteCount(actions) + 1)
      ensures Config() == old(Config())
      ensures |updatingNotices| == |old(updatingNotices)| + 2 * (DeleteCount(actions) + 1)
    {
      ghost var cfg := Config();
      ghost var start := State();
      ghost var deletes := 0;
      for i := 0 to |actions|
        invariant deletes == DeleteCount(actions[..i])
        invariant Config() == cfg
        invariant SameHeightState(State(), RebuildTimes(cfg, host, start, deletes))
        invariant |updatingNotices| == |old(updatingNotices)| + 2 * deletes
      {
        DeleteCountStep(actions, i);
        ghost var done := RebuildTimes(cfg, host, start, deletes);
        ghost var before := State();
        ApplyUpdateAction(host, actions[i]);
        if actions[i] == Delete {
          RebuildIgnoresOldGeometry(cfg, host, before, done);
          deletes := deletes + 1;
        }
      }
      assert actions[..|actions|] == actions;
      RebuildIgnoresOldGeometry(cfg, host, State(), RebuildTimes(cfg, host, start, deletes));
      Update(host);
    }

    /** The `switch` on one update action: all but `none` drop the geometry, and `delete` runs a pass. */
    method ApplyUpdateAction(host: Host, action: UpdateAction)
      requires numberOfColumns >= 1
      modifies this
      ensures action == Delete ==> State() == Rebuild(old(Config()), host, old(State()))
      ensures action == NoUpdate ==> State() == old(State())
      ensures action != Delete && action != NoUpdate ==> State() == old(State()).(cache := [], contentHeight := 0.0)
      ensures Config() == old(Config())
      ensures |updatingNotices| == |old(updatingNotices)| + if action == Delete then 2 else 0
    {
      ghost var cfg := Config();
      ghost var start := State();
      match action
      case Insert =>
        cache := [];
        contentHeight := 0.0;
      case Delete =>
        cache := [];
        contentHeight := 0.0;
        RebuildIgnoresOldGeometry(cfg, host, State(), start);
        Update(host);
      case Reload =>
        cache := [];
        contentHeight := 0.0;
      case Move =>
        cache := [];
        contentHeight := 0.0;
      case NoUpdate =>
      case Unknown =>
        cache := [];
        contentHeight := 0.0;
    }

    /** `layoutAttributesForElements(in:)`: a pass if there is no geometry, then the cached attributes meeting `rect`. */
    method LayoutAttributesForElements(host: Host, rect: Rect) returns (r: seq<Attributes>)
      requires numberOfColumns >= 1
      modifies this
      ensures old(cache) == [] ==> State() == Rebuild(old(Config()), host, old(State()))
      ensures old(cache) != [] ==> State() == old(State())
      ensures Config() == old(Config())
      ensures r == Intersecting(cache, rect)
    {
      if cache == [] {
        Update(host);
      }
      r := FilterIntersecting(cache, rect);
    }
  }
}

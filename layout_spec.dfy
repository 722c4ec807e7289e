/**
 * What one pass of the staggered ("Pinterest") layout computes, as pure
 * functions over the values the pass reads and writes.  The class in
 * `PinterestLayoutEngine` runs the same pass with loops over its fields and
 * is proved to end in the state `Rebuild` describes; the lemmas here state
 * what that state is like.
 */
module LayoutSpec {
  import opened Wrappers
  import opened LayoutGeometry

  /** The layout's public configuration properties. */
  datatype Config = Config(
    numberOfColumns: int,
    columnSpacing: real,
    cellPadding: real,
    sectionPadding: real,
    headerReferenceSize: Size,
    footerReferenceSize: Size)

  /**
   * What a pass asks of its collection view and delegate: the content width
   * (bounds width minus the left and right insets), the item count of each
   * section, the delegate's optional header/footer size methods (`None` when
   * the delegate does not implement them) and its item height provider.
   */
  datatype Host = Host(
    contentWidth: real,
    itemCounts: seq<nat>,
    headerSizeFor: Option<(nat, real) -> Size>,
    footerSizeFor: Option<(nat, real) -> Size>,
    heightFor: (IndexPath, real) -> real)

  /**
   * The layout fields a pass reads and writes (`cache`, `contentHeight`,
   * `cellHeightCacheArray`, `calculationIndex`) and the log of the index
   * paths the height provider was asked about, in call order.
   */
  datatype LayoutState = LayoutState(
    cache: seq<Attributes>,
    contentHeight: real,
    heights: seq<Option<real>>,
    calculationIndex: int,
    calls: seq<IndexPath>)

  /** The running column offsets (`yOffsets`) of a section, with the layout state. */
  datatype Columns = Columns(ys: seq<real>, st: LayoutState)

  function Max(a: real, b: real): (m: real)
    ensures m >= a && m >= b && (m == a || m == b)
  {
    if a <= b then b else a
  }

  function MaxNat(a: nat, b: nat): nat {
    if a <= b then b else a
  }

  /** `[CGFloat](repeating: v, count: n)`. */
  function Repeat(v: real, n: nat): (r: seq<real>)
    ensures |r| == n && forall j :: 0 <= j < n ==> r[j] == v
  {
    seq(n, _ => v)
  }

  // ---------------------------------------------------------------- columns

  /** The width every column (and every cell) gets. */
  function ColumnWidth(contentWidth: real, n: int, spacing: real): (w: real)
    requires n >= 1
    ensures n as real * w + (n - 1) as real * spacing == contentWidth
  {
    (contentWidth - (n - 1) as real * spacing) / n as real
  }

  /** Column `c` starts `c` column widths and `c` spacings from the left edge. */
  function XOffsets(width: real, spacing: real, n: nat): (xs: seq<real>)
    ensures |xs| == n
  {
    seq(n, c => (width + spacing) * c as real)
  }

  /** `n` columns and the `n - 1` gaps between them fill the content width exactly. */
  lemma ColumnsTileContentWidth(contentWidth: real, n: int, spacing: real)
    requires n >= 1
    ensures var w := ColumnWidth(contentWidth, n, spacing);
      n as real * w + (n - 1) as real * spacing == contentWidth &&
      XOffsets(w, spacing, n)[0] == 0.0 &&
      XOffsets(w, spacing, n)[n - 1] + w == contentWidth
  {
    var w := ColumnWidth(contentWidth, n, spacing);
    var rest := contentWidth - (n - 1) as real * spacing;
    assert n as real * w == rest;
    calc {
      XOffsets(w, spacing, n)[n - 1] + w;
      (w + spacing) * (n - 1) as real + w;
      n as real * w + (n - 1) as real * spacing;
    }
  }

  /** Adjacent columns are one column width plus one spacing apart. */
  lemma AdjacentColumns(width: real, spacing: real, n: nat, c: nat)
    requires c + 1 < n
    ensures XOffsets(width, spacing, n)[c + 1] == XOffsets(width, spacing, n)[c] + width + spacing
  {
    var xs := XOffsets(width, spacing, n);
    calc {
      xs[c + 1];
      (width + spacing) * (c as real + 1.0);
      (width + spacing) * c as real + (width + spacing);
    }
  }

  /** `yOffsets.min()`: `None` for no columns, else the smallest offset. */
  function MinOffset(ys: seq<real>): (m: Option<real>)
    ensures m.None? <==> ys == []
  {
    if ys == [] then None
    else match MinOffset(ys[1..])
      case None => Some(ys[0])
      case Some(m) => Some(if ys[0] <= m then ys[0] else m)
  }

  /** The minimum is one of the offsets and no offset is below it. */
  lemma {:induction false} MinOffsetIsMinimum(ys: seq<real>)
    requires ys != []
    ensures MinOffset(ys).value in ys
    ensures forall j :: 0 <= j < |ys| ==> MinOffset(ys).value <= ys[j]
  {
    if |ys| > 1 {
      MinOffsetIsMinimum(ys[1..]);
      forall j | 1 <= j < |ys|
        ensures MinOffset(ys).value <= ys[j]
      {
        assert ys[j] == ys[1..][j - 1];
      }
    }
  }

  /** `yOffsets.firstIndex(of: v)`. */
  function FirstIndexOf(ys: seq<real>, v: real): (r: Option<nat>)
    ensures r.Some? ==> r.value < |ys|
  {
    if ys == [] then None
    else if ys[0] == v then Some(0)
    else match FirstIndexOf(ys[1..], v)
      case None => None
      case Some(k) => Some(k + 1)
  }

  /** `firstIndex(of:)` finds the first occurrence, and finds one whenever there is one. */
  lemma {:induction false} FirstIndexOfIsFirst(ys: seq<real>, v: real)
    ensures var r := FirstIndexOf(ys, v);
      && (r.Some? ==> ys[r.value] == v && forall j :: 0 <= j < r.value ==> ys[j] != v)
      && (r.None? <==> v !in ys)
  {
    if ys != [] && ys[0] != v {
      FirstIndexOfIsFirst(ys[1..], v);
      assert ys == [ys[0]] + ys[1..];
      var r := FirstIndexOf(ys, v);
      if r.Some? {
        forall j | 1 <= j < r.value
          ensures ys[j] != v
        {
          assert ys[j] == ys[1..][j - 1];
        }
      }
    }
  }

  /**
   * `yOffsets.firstIndex(of: yOffsets.min() ?? 0) ?? 0`: the leftmost of the
   * shortest columns.
   */
  function ShortestColumn(ys: seq<real>): (col: nat)
    ensures ys != [] ==> col < |ys|
    ensures ys == [] ==> col == 0
  {
    FirstIndexOf(ys, MinOffset(ys).GetOr(0.0)).GetOr(0)
  }

  /** No column is shorter than the chosen one, and every column left of it is taller. */
  lemma ShortestColumnIsLeftmostMinimum(ys: seq<real>)
    requires ys != []
    ensures var col := ShortestColumn(ys);
      && col < |ys|
      && (forall j :: 0 <= j < |ys| ==> ys[col] <= ys[j])
      && (forall j :: 0 <= j < col ==> ys[j] > ys[col])
  {
    var m := MinOffset(ys).value;
    MinOffsetIsMinimum(ys);
    FirstIndexOfIsFirst(ys, m);
    var col := ShortestColumn(ys);
    forall j | 0 <= j < col
      ensures ys[j] > ys[col]
    {
      assert ys[j] != m && ys[j] >= m;
    }
  }

  // ------------------------------------------------------------------ cells

  predicate ColumnsFit(xs: seq<real>, c: Columns) {
    |c.ys| == |xs| >= 1
  }

  /**
   * The height-cache lookup for one item: keep the cache when it has an entry
   * at the item's index, else ask the provider and append its answer.
   */
  function LookUpHeight(host: Host, width: real, path: IndexPath, st: LayoutState): LayoutState
    requires path.item <= |st.heights|
  {
    if path.item < |st.heights| then st
    else st.(heights := st.heights + [Some(host.heightFor(path, width))], calls := st.calls + [path])
  }

  /**
   * Puts the cell at the top of the leftmost shortest column, moves that
   * column down by the height plus `cellPadding` and raises `contentHeight` to
   * the cell's bottom if it is lower.
   */
  function PlaceCell(cfg: Config, xs: seq<real>, width: real, path: IndexPath, c: Columns): Columns
    requires ColumnsFit(xs, c) && path.item < |c.st.heights|
  {
    var col := ShortestColumn(c.ys);
    var h := c.st.heights[path.item].GetOr(0.0);
    var frame := Rect(xs[col], c.ys[col], width, h);
    Columns(c.ys[col := c.ys[col] + h + cfg.cellPadding],
            c.st.(cache := c.st.cache + [Attributes(Cell, path, frame, h)],
                  contentHeight := Max(c.st.contentHeight, frame.MaxY())))
  }

  /** Places item `item` of `section`. */
  function PlaceItem(cfg: Config, host: Host, xs: seq<real>, width: real, section: nat, item: nat, c: Columns): Columns
    requires ColumnsFit(xs, c) && item <= |c.st.heights|
  {
    var path := IndexPath(section, item);
    PlaceCell(cfg, xs, width, path, Columns(c.ys, LookUpHeight(host, width, path, c.st)))
  }

  /** Items `0 .. n - 1` of `section`, placed in order. */
  function PlaceItems(cfg: Config, host: Host, xs: seq<real>, width: real, section: nat, c: Columns, n: nat): (r: Columns)
    requires ColumnsFit(xs, c)
    ensures ColumnsFit(xs, r)
    ensures |r.st.heights| == MaxNat(|c.st.heights|, n)
    decreases n
  {
    if n == 0 then c
    else PlaceItem(cfg, host, xs, width, section, n - 1, PlaceItems(cfg, host, xs, width, section, c, n - 1))
  }

  /** The cell `PlaceItem` appends for item `item`, given the column it goes to and its height. */
  function CellAt(xs: seq<real>, ys: seq<real>, width: real, path: IndexPath, col: nat, h: real): Attributes
    requires col < |xs| && col < |ys|
  {
    Attributes(Cell, path, Rect(xs[col], ys[col], width, h), h)
  }

  /**
   * One placement step: the leftmost shortest column takes the cell, only
   * that column moves (by the height plus `cellPadding`), and `contentHeight`
   * becomes the larger of itself and the cell's bottom.
   */
  lemma PlaceItemStep(cfg: Config, host: Host, xs: seq<real>, width: real, section: nat, item: nat, c: Columns)
    requires ColumnsFit(xs, c) && item <= |c.st.heights|
    ensures var r := PlaceItem(cfg, host, xs, width, section, item, c);
      var col := ShortestColumn(c.ys);
      var h := r.st.heights[item].GetOr(0.0);
      var cell := CellAt(xs, c.ys, width, IndexPath(section, item), col, h);
      && col < |c.ys|
      && (forall j :: 0 <= j < |c.ys| ==> c.ys[col] <= c.ys[j])
      && (forall j :: 0 <= j < col ==> c.ys[j] > c.ys[col])
      && r.st.cache == c.st.cache + [cell]
      && |r.ys| == |c.ys|
      && r.ys[col] == c.ys[col] + h + cfg.cellPadding
      && (forall j :: 0 <= j < |c.ys| && j != col ==> r.ys[j] == c.ys[j])
      && r.st.contentHeight == Max(c.st.contentHeight, cell.frame.MaxY())
      && r.st.heights == (if item < |c.st.heights| then c.st.heights
                          else c.st.heights + [Some(host.heightFor(IndexPath(section, item), width))])
      && r.st.calls == (if item < |c.st.heights| then c.st.calls else c.st.calls + [IndexPath(section, item)])
      && r.st.calculationIndex == c.st.calculationIndex
  {
    ShortestColumnIsLeftmostMinimum(c.ys);
  }

  /** What the `n`-th item does to the height cache, the provider log and the pass count. */
  lemma LastItemLookUp(cfg: Config, host: Host, xs: seq<real>, width: real, section: nat, c: Columns, n: nat)
    requires ColumnsFit(xs, c) && n > 0
    ensures var p := PlaceItems(cfg, host, xs, width, section, c, n - 1);
      var r := PlaceItems(cfg, host, xs, width, section, c, n);
      var path := IndexPath(section, n - 1);
      && r.st.heights == (if n - 1 < |p.st.heights| then p.st.heights
                          else p.st.heights + [Some(host.heightFor(path, width))])
      && r.st.calls == (if n - 1 < |p.st.heights| then p.st.calls else p.st.calls + [path])
      && r.st.calculationIndex == p.st.calculationIndex
  {
  }

  /** The `n`-th item appends exactly one cell, placed as `PlaceItemStep` says. */
  lemma LastItemCell(cfg: Config, host: Host, xs: seq<real>, width: real, section: nat, c: Columns, n: nat)
    requires ColumnsFit(xs, c) && n > 0
    ensures var p := PlaceItems(cfg, host, xs, width, section, c, n - 1);
      var r := PlaceItems(cfg, host, xs, width, section, c, n);
      var col := ShortestColumn(p.ys);
      var cell := CellAt(xs, p.ys, width, IndexPath(section, n - 1), col, r.st.heights[n - 1].GetOr(0.0));
      && r.st.cache == p.st.cache + [cell]
      && r.st.contentHeight == Max(p.st.contentHeight, cell.frame.MaxY())
  {
  }

  /** The `n`-th item moves only its column, by its height plus `cellPadding`. */
  lemma LastItemColumns(cfg: Config, host: Host, xs: seq<real>, width: real, section: nat, c: Columns, n: nat)
    requires ColumnsFit(xs, c) && n > 0
    ensures var p := PlaceItems(cfg, host, xs, width, section, c, n - 1);
      var r := PlaceItems(cfg, host, xs, width, section, c, n);
      var col := ShortestColumn(p.ys);
      && r.ys == p.ys[col := p.ys[col] + r.st.heights[n - 1].GetOr(0.0) + cfg.cellPadding]
  {
  }

  /** Placing items never touches `calculationIndex`. */
  lemma {:induction false} PlaceItemsKeepsPassCount(cfg: Config, host: Host, xs: seq<real>, width: real, section: nat, c: Columns, n: nat)
    requires ColumnsFit(xs, c)
    ensures PlaceItems(cfg, host, xs, width, section, c, n).st.calculationIndex == c.st.calculationIndex
    decreases n
  {
    if n > 0 {
      PlaceItemsKeepsPassCount(cfg, host, xs, width, section, c, n - 1);
      LastItemLookUp(cfg, host, xs, width, section, c, n);
    }
  }

  /** Entries the height cache already had are never overwritten. */
  lemma {:induction false} HeightCacheKeepsEntries(cfg: Config, host: Host, xs: seq<real>, width: real, section: nat, c: Columns, n: nat)
    requires ColumnsFit(xs, c)
    ensures var r := PlaceItems(cfg, host, xs, width, section, c, n);
      forall i :: 0 <= i < |c.st.heights| ==> r.st.heights[i] == c.st.heights[i]
    decreases n
  {
    if n > 0 {
      HeightCacheKeepsEntries(cfg, host, xs, width, section, c, n - 1);
      LastItemLookUp(cfg, host, xs, width, section, c, n);
    }
  }

  /** Each missing index `i` is filled with the provider's answer for item `i`. */
  lemma {:induction false} HeightCacheFillsMisses(cfg: Config, host: Host, xs: seq<real>, width: real, section: nat, c: Columns, n: nat)
    requires ColumnsFit(xs, c)
    ensures var r := PlaceItems(cfg, host, xs, width, section, c, n);
      forall i :: |c.st.heights| <= i < n ==> r.st.heights[i] == Some(host.heightFor(IndexPath(section, i), width))
    decreases n
  {
    if n > 0 {
      HeightCacheFillsMisses(cfg, host, xs, width, section, c, n - 1);
      LastItemLookUp(cfg, host, xs, width, section, c, n);
    }
  }

  /** The provider calls of `PlaceItems`: items `cached .. n - 1`, once each, in order. */
  function CacheMisses(section: nat, cached: nat, n: nat): (paths: seq<IndexPath>)
    ensures |paths| == if n <= cached then 0 else n - cached
    ensures forall k :: 0 <= k < |paths| ==> paths[k] == IndexPath(section, cached + k)
    decreases n
  {
    if n <= cached then [] else CacheMisses(section, cached, n - 1) + [IndexPath(section, n - 1)]
  }

  /**
   * The provider is asked about an item exactly when the height cache has no
   * entry for it, and never twice for the same item within a section.
   */
  lemma {:induction false} ProviderCalledOnlyOnCacheMiss(cfg: Config, host: Host, xs: seq<real>, width: real, section: nat, c: Columns, n: nat)
    requires ColumnsFit(xs, c)
    ensures PlaceItems(cfg, host, xs, width, section, c, n).st.calls == c.st.calls + CacheMisses(section, |c.st.heights|, n)
    decreases n
  {
    if n > 0 {
      ProviderCalledOnlyOnCacheMiss(cfg, host, xs, width, section, c, n - 1);
      LastItemLookUp(cfg, host, xs, width, section, c, n);
    }
  }

  /** `PlaceItems` appends exactly one attributes record per item and keeps what was cached. */
  lemma {:induction false} OneCellPerItem(cfg: Config, host: Host, xs: seq<real>, width: real, section: nat, c: Columns, n: nat)
    requires ColumnsFit(xs, c)
    ensures var r := PlaceItems(cfg, host, xs, width, section, c, n);
      |r.st.cache| == |c.st.cache| + n && r.st.cache[..|c.st.cache|] == c.st.cache
    decreases n
  {
    if n > 0 {
      OneCellPerItem(cfg, host, xs, width, section, c, n - 1);
      LastItemGrowsCache(cfg, host, xs, width, section, c, n);
      PrefixChain(c.st.cache, PlaceItems(cfg, host, xs, width, section, c, n - 1).st.cache,
                  PlaceItems(cfg, host, xs, width, section, c, n).st.cache);
    }
  }

  /** The `n`-th item adds one record behind the earlier ones. */
  lemma LastItemGrowsCache(cfg: Config, host: Host, xs: seq<real>, width: real, section: nat, c: Columns, n: nat)
    requires ColumnsFit(xs, c) && n > 0
    ensures var p := PlaceItems(cfg, host, xs, width, section, c, n - 1);
      var r := PlaceItems(cfg, host, xs, width, section, c, n);
      |r.st.cache| == |p.st.cache| + 1 && r.st.cache[..|p.st.cache|] == p.st.cache
  {
    LastItemCell(cfg, host, xs, width, section, c, n);
    var p := PlaceItems(cfg, host, xs, width, section, c, n - 1);
    var r := PlaceItems(cfg, host, xs, width, section, c, n);
    PrefixOfAppend(p.st.cache, r.st.cache);
  }

  lemma PrefixOfAppend(a: seq<Attributes>, b: seq<Attributes>)
    requires |b| == |a| + 1 && b == a + [b[|a|]]
    ensures b[..|a|] == a
  {
  }

  lemma PrefixChain(a: seq<Attributes>, b: seq<Attributes>, c: seq<Attributes>)
    requires |a| <= |b| && b[..|a|] == a && |b| <= |c| && c[..|b|] == b
    ensures |a| <= |c| && c[..|a|] == a
  {
    assert c[..|a|] == c[..|b|][..|a|];
  }

  /** The height item `i` gets: its cache entry from before the section, else the provider's answer. */
  function ItemHeight(host: Host, width: real, section: nat, cached: seq<Option<real>>, i: nat): real {
    if i < |cached| then cached[i].GetOr(0.0) else host.heightFor(IndexPath(section, i), width)
  }

  /**
   * The record for item `i` is a cell in the leftmost shortest column of the
   * columns as they were after items `0 .. i - 1`, as tall as the item's height.
   */
  lemma ItemCell(cfg: Config, host: Host, xs: seq<real>, width: real, section: nat, c: Columns, n: nat, i: nat)
    requires ColumnsFit(xs, c) && i < n
    ensures var r := PlaceItems(cfg, host, xs, width, section, c, n);
      var q := PlaceItems(cfg, host, xs, width, section, c, i);
      && |c.st.cache| + i < |r.st.cache|
      && ShortestColumn(q.ys) < |xs|
      && r.st.cache[|c.st.cache| + i]
         == CellAt(xs, q.ys, width, IndexPath(section, i), ShortestColumn(q.ys), ItemHeight(host, width, section, c.st.heights, i))
  {
    PlaceItemsExtends(cfg, host, xs, width, section, c, i + 1, n);
    OneCellPerItem(cfg, host, xs, width, section, c, i);
    LastItemCell(cfg, host, xs, width, section, c, i + 1);
    LastItemHeight(cfg, host, xs, width, section, c, i);
  }

  /** Item `i` is placed with the height `ItemHeight` gives it. */
  lemma LastItemHeight(cfg: Config, host: Host, xs: seq<real>, width: real, section: nat, c: Columns, i: nat)
    requires ColumnsFit(xs, c)
    ensures PlaceItems(cfg, host, xs, width, section, c, i + 1).st.heights[i].GetOr(0.0)
            == ItemHeight(host, width, section, c.st.heights, i)
  {
    LastItemLookUp(cfg, host, xs, width, section, c, i + 1);
    HeightCacheKeepsEntries(cfg, host, xs, width, section, c, i);
  }

  /** `a` is the cell of item `i`: as wide as a column, at a column's x offset, `height` tall. */
  predicate IsItemCell(a: Attributes, xs: seq<real>, width: real, section: nat, i: nat, height: real) {
    && a.kind == Cell
    && a.indexPath == IndexPath(section, i)
    && a.frame.width == width
    && a.frame.x in xs
    && a.frame.height == height
    && a.cellHeight == height
  }

  /**
   * The records appended for items `0 .. n - 1` are their cells, in item
   * order, each as tall as the item's height (also recorded as `cellHeight`).
   */
  lemma CellsAppendedInOrder(cfg: Config, host: Host, xs: seq<real>, width: real, section: nat, c: Columns, n: nat)
    requires ColumnsFit(xs, c)
    ensures var r := PlaceItems(cfg, host, xs, width, section, c, n);
      |r.st.cache| == |c.st.cache| + n &&
      forall i :: 0 <= i < n ==>
        IsItemCell(r.st.cache[|c.st.cache| + i], xs, width, section, i, ItemHeight(host, width, section, c.st.heights, i))
  {
    OneCellPerItem(cfg, host, xs, width, section, c, n);
    var r := PlaceItems(cfg, host, xs, width, section, c, n);
    forall i | 0 <= i < n
      ensures IsItemCell(r.st.cache[|c.st.cache| + i], xs, width, section, i, ItemHeight(host, width, section, c.st.heights, i))
    {
      ItemCell(cfg, host, xs, width, section, c, n, i);
      var q := PlaceItems(cfg, host, xs, width, section, c, i);
      assert xs[ShortestColumn(q.ys)] in xs;
    }
  }

  /** The lowest bottom edge among `cells`, or `floor` if that is lower still. */
  function TallestBottom(cells: seq<Attributes>, floor: real): real {
    if cells == [] then floor
    else Max(TallestBottom(cells[..|cells| - 1], floor), cells[|cells| - 1].frame.MaxY())
  }

  /** `TallestBottom` is at least `floor` and every bottom edge, and it is `floor` or one of them. */
  lemma {:induction false} TallestBottomIsMaximum(cells: seq<Attributes>, floor: real)
    ensures var bottom := TallestBottom(cells, floor);
      && bottom >= floor
      && (forall i :: 0 <= i < |cells| ==> bottom >= cells[i].frame.MaxY())
      && (bottom == floor || exists i :: 0 <= i < |cells| && bottom == cells[i].frame.MaxY())
  {
    if cells != [] {
      var init := cells[..|cells| - 1];
      TallestBottomIsMaximum(init, floor);
      forall i | 0 <= i < |init|
        ensures cells[i] == init[i]
      {
      }
    }
  }

  /**
   * After the item loop `contentHeight` is the larger of its value before the
   * loop and the bottom of every cell the loop placed; the padding after the
   * last cell of a column does not count.
   */
  lemma {:induction false} ContentHeightIsTallestBottom(cfg: Config, host: Host, xs: seq<real>, width: real, section: nat, c: Columns, n: nat)
    requires ColumnsFit(xs, c)
    ensures var r := PlaceItems(cfg, host, xs, width, section, c, n);
      |c.st.cache| <= |r.st.cache| &&
      r.st.contentHeight == TallestBottom(r.st.cache[|c.st.cache|..], c.st.contentHeight)
    decreases n
  {
    if n == 0 {
      assert PlaceItems(cfg, host, xs, width, section, c, n).st.cache[|c.st.cache|..] == [];
    } else {
      ContentHeightIsTallestBottom(cfg, host, xs, width, section, c, n - 1);
      var p := PlaceItems(cfg, host, xs, width, section, c, n - 1);
      var r := PlaceItems(cfg, host, xs, width, section, c, n);
      LastItemCell(cfg, host, xs, width, section, c, n);
      var cell := CellAt(xs, p.ys, width, IndexPath(section, n - 1), ShortestColumn(p.ys), r.st.heights[n - 1].GetOr(0.0));
      TallestBottomStep(p.st.cache, p.st.contentHeight, r.st.cache, r.st.contentHeight, cell, |c.st.cache|, c.st.contentHeight);
    }
  }

  /** Appending a cell raises the tallest bottom of a cache suffix to that cell's bottom if it is lower. */
  lemma TallestBottomStep(before: seq<Attributes>, beforeHeight: real, after: seq<Attributes>, afterHeight: real,
                          cell: Attributes, from: nat, floor: real)
    requires from <= |before|
    requires beforeHeight == TallestBottom(before[from..], floor)
    requires after == before + [cell]
    requires afterHeight == Max(beforeHeight, cell.frame.MaxY())
    ensures from <= |after| && afterHeight == TallestBottom(after[from..], floor)
  {
    assert after[from..] == before[from..] + [cell];
    assert after[from..][..|before| - from] == before[from..];
  }

  /** Placing more items only appends to the cache. */
  lemma {:induction false} PlaceItemsExtends(cfg: Config, host: Host, xs: seq<real>, width: real, section: nat, c: Columns, m: nat, n: nat)
    requires ColumnsFit(xs, c) && m <= n
    ensures var p := PlaceItems(cfg, host, xs, width, section, c, m);
      var r := PlaceItems(cfg, host, xs, width, section, c, n);
      |p.st.cache| <= |r.st.cache| && r.st.cache[..|p.st.cache|] == p.st.cache
    decreases n
  {
    if m < n {
      PlaceItemsExtends(cfg, host, xs, width, section, c, m, n - 1);
      LastItemGrowsCache(cfg, host, xs, width, section, c, n);
      PrefixChain(PlaceItems(cfg, host, xs, width, section, c, m).st.cache,
                  PlaceItems(cfg, host, xs, width, section, c, n - 1).st.cache,
                  PlaceItems(cfg, host, xs, width, section, c, n).st.cache);
    }
  }

  lemma {:induction false} TallestBottomPrefix(lo: seq<Attributes>, hi: seq<Attributes>, floor: real)
    requires |lo| <= |hi| && lo == hi[..|lo|]
    ensures TallestBottom(lo, floor) <= TallestBottom(hi, floor)
  {
    TallestBottomIsMaximum(lo, floor);
    TallestBottomIsMaximum(hi, floor);
    var b := TallestBottom(lo, floor);
    if b != floor {
      var i :| 0 <= i < |lo| && b == lo[i].frame.MaxY();
      assert lo[i] == hi[i];
    }
  }

  /** `contentHeight` never decreases while items are placed. */
  lemma ContentHeightNeverDecreases(cfg: Config, host: Host, xs: seq<real>, width: real, section: nat, c: Columns, m: nat, n: nat)
    requires ColumnsFit(xs, c) && m <= n
    ensures c.st.contentHeight <= PlaceItems(cfg, host, xs, width, section, c, m).st.contentHeight
    ensures PlaceItems(cfg, host, xs, width, section, c, m).st.contentHeight
            <= PlaceItems(cfg, host, xs, width, section, c, n).st.contentHeight
  {
    var p := PlaceItems(cfg, host, xs, width, section, c, m);
    var r := PlaceItems(cfg, host, xs, width, section, c, n);
    ContentHeightIsTallestBottom(cfg, host, xs, width, section, c, m);
    ContentHeightIsTallestBottom(cfg, host, xs, width, section, c, n);
    PlaceItemsExtends(cfg, host, xs, width, section, c, m, n);
    var lo := p.st.cache[|c.st.cache|..];
    var hi := r.st.cache[|c.st.cache|..];
    assert lo == hi[..|lo|];
    TallestBottomPrefix(lo, hi, c.st.contentHeight);
  }

  /**
   * When every column starts no lower than `contentHeight`, every column's
   * next free offset stays within one `cellPadding` of `contentHeight`.
   */
  lemma {:induction false} ColumnsWithinContentHeight(cfg: Config, host: Host, xs: seq<real>, width: real, section: nat, c: Columns, n: nat)
    requires ColumnsFit(xs, c)
    requires forall j :: 0 <= j < |c.ys| ==> c.ys[j] <= c.st.contentHeight
    ensures var r := PlaceItems(cfg, host, xs, width, section, c, n);
      forall j :: 0 <= j < |r.ys| ==> r.ys[j] <= r.st.contentHeight + Max(cfg.cellPadding, 0.0)
    decreases n
  {
    if n > 0 {
      ColumnsWithinContentHeight(cfg, host, xs, width, section, c, n - 1);
      var p := PlaceItems(cfg, host, xs, width, section, c, n - 1);
      var r := PlaceItems(cfg, host, xs, width, section, c, n);
      LastItemCell(cfg, host, xs, width, section, c, n);
      LastItemColumns(cfg, host, xs, width, section, c, n);
      var col := ShortestColumn(p.ys);
      forall j | 0 <= j < |r.ys|
        ensures r.ys[j] <= r.st.contentHeight + Max(cfg.cellPadding, 0.0)
      {
        if j != col {
          assert r.ys[j] == p.ys[j];
        }
      }
    }
  }

  // --------------------------------------------------------------- sections

  /** The header size: the delegate's answer, else the reference height across the full width, else zero. */
  function HeaderSize(cfg: Config, host: Host, section: nat): Size {
    match host.headerSizeFor
    case Some(f) => f(section, host.contentWidth)
    case None =>
      if cfg.headerReferenceSize != ZeroSize then Size(host.contentWidth, cfg.headerReferenceSize.height)
      else ZeroSize
  }

  /** The footer size, chosen the same way as the header size. */
  function FooterSize(cfg: Config, host: Host, section: nat): Size {
    match host.footerSizeFor
    case Some(f) => f(section, host.contentWidth)
    case None =>
      if cfg.footerReferenceSize != ZeroSize then Size(host.contentWidth, cfg.footerReferenceSize.height)
      else ZeroSize
  }

  /**
   * A non-zero header is centred at the running content height (after one
   * `sectionPadding` when it is not the first section); `contentHeight` moves
   * to its bottom plus `sectionPadding`.
   */
  function PlaceHeader(cfg: Config, host: Host, section: nat, st: LayoutState): LayoutState {
    var size := HeaderSize(cfg, host, section);
    if size == ZeroSize then st
    else
      var top := if section != 0 then st.contentHeight + cfg.sectionPadding else st.contentHeight;
      var frame := Rect((host.contentWidth - size.width) / 2.0, top, size.width, size.height);
      st.(cache := st.cache + [Attributes(SectionHeader, IndexPath(section, 0), frame, 0.0)],
          contentHeight := frame.MaxY() + cfg.sectionPadding)
  }

  /** `calculationIndex += 1`, and from the third pass on the height cache is emptied. */
  function CountPass(st: LayoutState): LayoutState {
    var index := st.calculationIndex + 1;
    st.(calculationIndex := index, heights := if index >= 3 then [] else st.heights)
  }

  /** A non-zero footer is centred one `sectionPadding` below the content; `contentHeight` moves to its bottom. */
  function PlaceFooter(cfg: Config, host: Host, section: nat, st: LayoutState): LayoutState {
    var size := FooterSize(cfg, host, section);
    if size == ZeroSize then st
    else
      var frame := Rect((host.contentWidth - size.width) / 2.0, st.contentHeight + cfg.sectionPadding, size.width, size.height);
      st.(cache := st.cache + [Attributes(SectionFooter, IndexPath(section, 0), frame, 0.0)],
          contentHeight := frame.MaxY())
  }

  /** The columns a section's items start from: all at the content height after the header. */
  function SectionStart(cfg: Config, host: Host, xs: seq<real>, section: nat, st: LayoutState): (c: Columns)
    requires |xs| >= 1
    ensures ColumnsFit(xs, c)
  {
    var headed := PlaceHeader(cfg, host, section, st);
    Columns(Repeat(headed.contentHeight, |xs|), CountPass(headed))
  }

  /** Header, items and footer of one section. */
  function LayoutSection(cfg: Config, host: Host, xs: seq<real>, width: real, section: nat, st: LayoutState): LayoutState
    requires |xs| >= 1 && section < |host.itemCounts|
  {
    var start := SectionStart(cfg, host, xs, section, st);
    PlaceFooter(cfg, host, section, PlaceItems(cfg, host, xs, width, section, start, host.itemCounts[section]).st)
  }

  /** Sections `0 .. k - 1`, laid out in order. */
  function LayoutSections(cfg: Config, host: Host, xs: seq<real>, width: real, st: LayoutState, k: nat): LayoutState
    requires |xs| >= 1 && k <= |host.itemCounts|
    decreases k
  {
    if k == 0 then st
    else LayoutSection(cfg, host, xs, width, k - 1, LayoutSections(cfg, host, xs, width, st, k - 1))
  }

  /** One whole `update()`: clear the geometry, then lay out every section. */
  function Rebuild(cfg: Config, host: Host, st: LayoutState): LayoutState
    requires cfg.numberOfColumns >= 1
  {
    var width := ColumnWidth(host.contentWidth, cfg.numberOfColumns, cfg.columnSpacing);
    LayoutSections(cfg, host, XOffsets(width, cfg.columnSpacing, cfg.numberOfColumns), width,
                   st.(cache := [], contentHeight := 0.0), |host.itemCounts|)
  }

  /** The header lemma: where a non-zero header goes and where the columns start below it. */
  lemma HeaderPlacement(cfg: Config, host: Host, xs: seq<real>, section: nat, st: LayoutState)
    requires |xs| >= 1
    ensures var size := HeaderSize(cfg, host, section);
      var start := SectionStart(cfg, host, xs, section, st);
      var top := if section != 0 then st.contentHeight + cfg.sectionPadding else st.contentHeight;
      if size == ZeroSize then
        start.st.cache == st.cache && (forall j :: 0 <= j < |xs| ==> start.ys[j] == st.contentHeight)
      else
        && start.st.cache == st.cache + [Attributes(SectionHeader, IndexPath(section, 0),
                                          Rect((host.contentWidth - size.width) / 2.0, top, size.width, size.height), 0.0)]
        && (forall j :: 0 <= j < |xs| ==> start.ys[j] == top + Max(size.height, 0.0) + cfg.sectionPadding)
  {
  }

  /**
   * Per section: `calculationIndex` goes up by one, and the height cache
   * afterwards covers every item of the section.  From the third pass on the
   * cache is rebuilt from the provider; before that old entries are kept.
   */
  lemma SectionHeightCache(cfg: Config, host: Host, xs: seq<real>, width: real, section: nat, st: LayoutState)
    requires |xs| >= 1 && section < |host.itemCounts|
    ensures var r := LayoutSection(cfg, host, xs, width, section, st);
      var n := host.itemCounts[section];
      && r.calculationIndex == st.calculationIndex + 1
      && |r.heights| >= n
      && (st.calculationIndex + 1 >= 3 ==>
            |r.heights| == n &&
            forall i :: 0 <= i < n ==> r.heights[i] == Some(host.heightFor(IndexPath(section, i), width)))
      && (st.calculationIndex + 1 < 3 ==>
            forall i :: 0 <= i < |st.heights| ==> r.heights[i] == st.heights[i])
  {
    var start := SectionStart(cfg, host, xs, section, st);
    var n := host.itemCounts[section];
    assert start.st.calculationIndex == st.calculationIndex + 1;
    assert start.st.heights == if st.calculationIndex + 1 >= 3 then [] else st.heights;
    PlaceItemsKeepsPassCount(cfg, host, xs, width, section, start, n);
    HeightCacheKeepsEntries(cfg, host, xs, width, section, start, n);
    HeightCacheFillsMisses(cfg, host, xs, width, section, start, n);
    var placed := PlaceItems(cfg, host, xs, width, section, start, n).st;
    var r := PlaceFooter(cfg, host, section, placed);
    assert r.heights == placed.heights && r.calculationIndex == placed.calculationIndex;
  }

  /** Where a non-zero footer goes and what `contentHeight` becomes. */
  lemma FooterPlacement(cfg: Config, host: Host, section: nat, st: LayoutState)
    ensures var size := FooterSize(cfg, host, section);
      var r := PlaceFooter(cfg, host, section, st);
      if size == ZeroSize then r == st
      else
        var frame := Rect((host.contentWidth - size.width) / 2.0, st.contentHeight + cfg.sectionPadding, size.width, size.height);
        && r.cache == st.cache + [Attributes(SectionFooter, IndexPath(section, 0), frame, 0.0)]
        && r.contentHeight == st.contentHeight + cfg.sectionPadding + Max(size.height, 0.0)
  {
  }

  // ---------------------------------------------------------- whole passes

  /** Every section pass counts once in `calculationIndex`. */
  lemma {:induction false} PassesCounted(cfg: Config, host: Host, xs: seq<real>, width: real, st: LayoutState, k: nat)
    requires |xs| >= 1 && k <= |host.itemCounts|
    ensures LayoutSections(cfg, host, xs, width, st, k).calculationIndex == st.calculationIndex + k
    decreases k
  {
    if k > 0 {
      PassesCounted(cfg, host, xs, width, st, k - 1);
      SectionHeightCache(cfg, host, xs, width, k - 1, LayoutSections(cfg, host, xs, width, st, k - 1));
    }
  }

  /** Two states that agree on everything a pass reads: height cache, pass count and provider log. */
  predicate SameHeightState(a: LayoutState, b: LayoutState) {
    a.heights == b.heights && a.calculationIndex == b.calculationIndex && a.calls == b.calls
  }

  /** A pass does not depend on the geometry left over from an earlier one. */
  lemma RebuildIgnoresOldGeometry(cfg: Config, host: Host, a: LayoutState, b: LayoutState)
    requires cfg.numberOfColumns >= 1 && SameHeightState(a, b)
    ensures Rebuild(cfg, host, a) == Rebuild(cfg, host, b)
  {
    assert a.(cache := [], contentHeight := 0.0) == b.(cache := [], contentHeight := 0.0);
  }

  /** One `update()` advances `calculationIndex` by the number of sections. */
  lemma RebuildCountsPasses(cfg: Config, host: Host, st: LayoutState)
    requires cfg.numberOfColumns >= 1
    ensures Rebuild(cfg, host, st).calculationIndex == st.calculationIndex + |host.itemCounts|
  {
    var width := ColumnWidth(host.contentWidth, cfg.numberOfColumns, cfg.columnSpacing);
    PassesCounted(cfg, host, XOffsets(width, cfg.columnSpacing, cfg.numberOfColumns), width,
                  st.(cache := [], contentHeight := 0.0), |host.itemCounts|);
  }

  /** `k` passes in a row. */
  function RebuildTimes(cfg: Config, host: Host, st: LayoutState, k: nat): LayoutState
    requires cfg.numberOfColumns >= 1
    decreases k
  {
    if k == 0 then st else Rebuild(cfg, host, RebuildTimes(cfg, host, st, k - 1))
  }

  /** `k` passes advance `calculationIndex` by `k` times the number of sections. */
  lemma {:induction false} RebuildTimesCountsPasses(cfg: Config, host: Host, st: LayoutState, k: nat)
    requires cfg.numberOfColumns >= 1
    ensures RebuildTimes(cfg, host, st, k).calculationIndex == st.calculationIndex + k * |host.itemCounts|
    decreases k
  {
    if k > 0 {
      RebuildTimesCountsPasses(cfg, host, st, k - 1);
      RebuildCountsPasses(cfg, host, RebuildTimes(cfg, host, st, k - 1));
      assert (k - 1) * |host.itemCounts| + |host.itemCounts| == k * |host.itemCounts|;
    }
  }

  // ------------------------------------------------------------------ query

  /** The cached attributes whose frames intersect `rect`, in cache order. */
  function Intersecting(cache: seq<Attributes>, rect: Rect): (r: seq<Attributes>)
    ensures |r| <= |cache|
    ensures forall a :: a in r <==> a in cache && a.frame.Intersects(rect)
    ensures forall a :: multiset(r)[a] == if a.frame.Intersects(rect) then multiset(cache)[a] else 0
  {
    if cache == [] then []
    else
      var last := cache[|cache| - 1];
      assert cache == cache[..|cache| - 1] + [last];
      Intersecting(cache[..|cache| - 1], rect) + if last.frame.Intersects(rect) then [last] else []
  }
}

/**
 * A worked pass of the staggered layout: two columns, one section of three
 * items 100, 200 and 50 points tall, 10 points of spacing and padding.
 */
module LayoutExample {
  import opened Wrappers
  import opened LayoutGeometry
  import opened LayoutSpec

  const ExampleConfig: Config := Config(2, 10.0, 10.0, 0.0, ZeroSize, ZeroSize)

  function ExampleHeight(path: IndexPath, width: real): real {
    if path.item == 0 then 100.0 else if path.item == 1 then 200.0 else 50.0
  }

  const ExampleHost: Host := Host(210.0, [3], None, None, ExampleHeight)

  const Fresh: LayoutState := LayoutState([], 0.0, [], 0, [])

  function ExampleCell(item: nat, x: real, y: real, h: real): Attributes {
    Attributes(Cell, IndexPath(0, item), Rect(x, y, 100.0, h), h)
  }

  /**
   * Items 0 and 2 share the left column (the third item goes below the
   * first, after its 10 points of padding), item 1 takes the right column,
   * each height is asked for once, and the content is as tall as the
   * lowest cell bottom, 200: the padding after a column's last cell does
   * not count.
   */
  lemma ExamplePass()
    ensures var r := Rebuild(ExampleConfig, ExampleHost, Fresh);
      && r.cache == [ExampleCell(0, 0.0, 0.0, 100.0), ExampleCell(1, 110.0, 0.0, 200.0), ExampleCell(2, 0.0, 110.0, 50.0)]
      && r.contentHeight == 200.0
      && r.calls == [IndexPath(0, 0), IndexPath(0, 1), IndexPath(0, 2)]
      && r.calculationIndex == 1
  {
    var cfg, host := ExampleConfig, ExampleHost;
    var w := ColumnWidth(210.0, 2, 10.0);
    assert w == 100.0;
    var xs := XOffsets(w, 10.0, 2);
    assert xs == [0.0, 110.0];
    var start := SectionStart(cfg, host, xs, 0, Fresh);
    assert start == Columns([0.0, 0.0], Fresh.(calculationIndex := 1)) by {
      assert HeaderSize(cfg, host, 0) == ZeroSize;
      assert Repeat(0.0, 2) == [0.0, 0.0];
    }
    assert ShortestColumn([0.0, 0.0]) == 0;
    assert ShortestColumn([110.0, 0.0]) == 1;
    assert ShortestColumn([110.0, 210.0]) == 0;
    var c1 := PlaceItems(cfg, host, xs, w, 0, start, 1);
    assert c1 == Columns([110.0, 0.0], LayoutState([ExampleCell(0, 0.0, 0.0, 100.0)], 100.0, [Some(100.0)], 1,
                                                   [IndexPath(0, 0)]));
    var c2 := PlaceItems(cfg, host, xs, w, 0, start, 2);
    assert c2 == Columns([110.0, 210.0],
                         LayoutState([ExampleCell(0, 0.0, 0.0, 100.0), ExampleCell(1, 110.0, 0.0, 200.0)], 200.0,
                                     [Some(100.0), Some(200.0)], 1, [IndexPath(0, 0), IndexPath(0, 1)]));
    var c3 := PlaceItems(cfg, host, xs, w, 0, start, 3);
    assert c3.st == LayoutState([ExampleCell(0, 0.0, 0.0, 100.0), ExampleCell(1, 110.0, 0.0, 200.0), ExampleCell(2, 0.0, 110.0, 50.0)],
                                200.0, [Some(100.0), Some(200.0), Some(50.0)], 1,
                                [IndexPath(0, 0), IndexPath(0, 1), IndexPath(0, 2)]);
    assert FooterSize(cfg, host, 0) == ZeroSize;
    assert LayoutSections(cfg, host, xs, w, Fresh, 0) == Fresh;
  }

  /** Section 0's item is 100 points tall, section 1's would be 40. */
  function TwoSectionHeight(path: IndexPath, width: real): real {
    if path.section == 0 then 100.0 else 40.0
  }

  const TwoSectionHost: Host := Host(210.0, [1, 1], None, None, TwoSectionHeight)

  /**
   * The height cache is indexed by item only and kept across the sections
   * of the first two passes: on the first pass the only item of section 1
   * takes the height cached for item 0 of section 0, and the provider is
   * never asked about it.
   */
  lemma ExampleSharedHeightCache()
    ensures var r := Rebuild(ExampleConfig, TwoSectionHost, Fresh);
      && r.calls == [IndexPath(0, 0)]
      && r.cache == [ExampleCell(0, 0.0, 0.0, 100.0),
                     Attributes(Cell, IndexPath(1, 0), Rect(0.0, 100.0, 100.0, 100.0), 100.0)]
      && r.contentHeight == 200.0
  {
    var cfg, host := ExampleConfig, TwoSectionHost;
    var w := ColumnWidth(210.0, 2, 10.0);
    assert w == 100.0;
    var xs := XOffsets(w, 10.0, 2);
    assert xs == [0.0, 110.0];
    assert HeaderSize(cfg, host, 0) == ZeroSize && HeaderSize(cfg, host, 1) == ZeroSize;
    assert FooterSize(cfg, host, 0) == ZeroSize && FooterSize(cfg, host, 1) == ZeroSize;
    assert ShortestColumn([0.0, 0.0]) == 0;
    assert ShortestColumn([100.0, 100.0]) == 0;
    var start0 := SectionStart(cfg, host, xs, 0, Fresh);
    assert start0 == Columns([0.0, 0.0], Fresh.(calculationIndex := 1)) by {
      assert Repeat(0.0, 2) == [0.0, 0.0];
    }
    assert LayoutSections(cfg, host, xs, w, Fresh, 0) == Fresh;
    var first := LayoutSections(cfg, host, xs, w, Fresh, 1);
    assert first == LayoutState([ExampleCell(0, 0.0, 0.0, 100.0)], 100.0, [Some(100.0)], 1, [IndexPath(0, 0)]);
    var start1 := SectionStart(cfg, host, xs, 1, first);
    assert start1 == Columns([100.0, 100.0], first.(calculationIndex := 2)) by {
      assert Repeat(100.0, 2) == [100.0, 100.0];
    }
  }
}

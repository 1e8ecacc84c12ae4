/** The `List` widget of src/graphics.rs: a virtual scrolling window over a
    fixed collection of items, with a selection and an optional scrollbar.

    `ListModel` is the widget's state as a value; the pure functions below
    give the effect of each operation on it, and class `List` holds the same
    state in fields and is proved to follow those functions. */
module ListWidget {
  import opened Common
  import opened Graphics

  /** A list item, as the `ListItem` trait exposes it (text, height, font). */
  datatype Item = Item(text: string, height: nat, font: Font)

  const SCROLLBAR_WIDTH: nat := 20
  const ROW_MARGIN: nat := 10
  const SCROLLBAR_MARGIN: nat := 10
  /** The viewport height is cast to `u16` before the division in `new`. */
  const U16_MODULUS: nat := 0x1_0000

  datatype ListModel = ListModel(
    items: seq<Item>,
    pos: Point,
    size: Size,
    selected: nat,
    visibleLines: nat,
    windowStart: nat)

  /** One past the last index shown: the window clamped to the items. */
  function WindowEnd(m: ListModel): nat {
    Min(m.windowStart + m.visibleLines, |m.items|)
  }

  /** The number of rows `draw` emits. */
  function RowCount(m: ListModel): nat {
    if WindowEnd(m) >= m.windowStart then WindowEnd(m) - m.windowStart else 0
  }

  /** `show_scrollbar`: more items than visible lines. In a bounded window
      that is exactly when some item is not on screen. */
  function ShowScrollbar(m: ListModel): (b: bool)
    ensures WindowBounded(m) ==> (b <==> RowCount(m) < |m.items|)
  {
    |m.items| > m.visibleLines
  }

  /** The selection is a valid index and lies inside the visible window. */
  predicate WindowInvariant(m: ListModel) {
    |m.items| > 0 && m.visibleLines >= 1 &&
    m.windowStart <= m.selected < m.windowStart + m.visibleLines &&
    m.selected < |m.items|
  }

  /** The window never runs past the end of the list unless it starts at 0. */
  predicate WindowBounded(m: ListModel) {
    m.windowStart == 0 || m.windowStart + m.visibleLines <= |m.items|
  }

  /** The parts of the state that no operation but `new` sets. */
  predicate SameLayout(m: ListModel, m': ListModel) {
    m'.items == m.items && m'.pos == m.pos && m'.size == m.size &&
    m'.visibleLines == m.visibleLines
  }

  /** `List::new`: selection and window at the top; as many lines as rows of
      the first item's height fit into the (u16-truncated) viewport height, or
      one line for an empty list. A first item of height 0 divides by zero. */
  function NewList(items: seq<Item>, pos: Point, size: Size): (m: ListModel)
    requires items == [] || items[0].height > 0
    ensures m.items == items && m.pos == pos && m.size == size
    ensures m.selected == 0 && m.windowStart == 0
    ensures items == [] ==> m.visibleLines == 1
    ensures items != [] ==>
      m.visibleLines * items[0].height <= size.height % U16_MODULUS <
      (m.visibleLines + 1) * items[0].height
  {
    if |items| == 0 then ListModel(items, pos, size, 0, 1, 0)
    else ListModel(items, pos, size, 0, RowsThatFit(size.height % U16_MODULUS, items[0].height), 0)
  }

  /** The number of rows of height `rowHeight` that fit in `height`: the
      largest multiple that fits. */
  function RowsThatFit(height: nat, rowHeight: nat): (n: nat)
    requires rowHeight > 0
    ensures n * rowHeight <= height < (n + 1) * rowHeight
  {
    assert height == (height / rowHeight) * rowHeight + height % rowHeight;
    height / rowHeight
  }

  /** A new list satisfies the window invariant exactly when it has items and
      at least one row of the first item's height fits. */
  lemma NewListValid(items: seq<Item>, pos: Point, size: Size)
    requires items == [] || items[0].height > 0
    ensures WindowInvariant(NewList(items, pos, size)) <==>
      items != [] && items[0].height <= size.height % U16_MODULUS
    ensures WindowBounded(NewList(items, pos, size))
  {
  }

  /** `scroll_down`: the selection moves one item down unless it is on the
      last item; the window moves one line down exactly when the selection
      leaves it. An empty list, or a zero-line window at 0, underflows. */
  function ScrolledDown(m: ListModel): (r: ListModel)
    requires !ScrollDownPanics(m)
    ensures SameLayout(m, r)
    ensures m.selected < |m.items| - 1 ==> r.selected == m.selected + 1
    ensures m.selected >= |m.items| - 1 ==> r.selected == m.selected
    ensures r.windowStart == m.windowStart || r.windowStart == m.windowStart + 1
    ensures r.windowStart == m.windowStart + 1 <==> r.selected >= m.windowStart + m.visibleLines
    ensures WindowInvariant(m) ==> WindowInvariant(r)
    ensures WindowInvariant(m) && WindowBounded(m) ==> WindowBounded(r)
    ensures WindowInvariant(m) && m.selected == |m.items| - 1 ==> r == m
  {
    var sel := if m.selected < |m.items| - 1 then m.selected + 1 else m.selected;
    var start := if sel > m.windowStart + m.visibleLines - 1 then m.windowStart + 1 else m.windowStart;
    m.(selected := sel, windowStart := start)
  }

  /** The inputs on which `scroll_down` underflows: `len() - 1` on an empty
      list, or `window_start + visible_lines - 1` at zero. */
  predicate ScrollDownPanics(m: ListModel) {
    |m.items| == 0 || m.windowStart + m.visibleLines == 0
  }

  /** Under the window invariant `scroll_down` never panics. */
  lemma ScrollDownSafe(m: ListModel)
    requires WindowInvariant(m)
    ensures !ScrollDownPanics(m)
  {
  }

  /** `scroll_down` can panic on a list fresh from `new`: one item taller
      than the viewport gives zero lines. */
  lemma NewListScrollDownCanPanic()
    ensures exists items: seq<Item>, pos: Point, size: Size ::
      items != [] && items[0].height > 0 && ScrollDownPanics(NewList(items, pos, size))
  {
    var items := [Item("item", 20, Font(10, 20))];
    var m := NewList(items, Point(0, 0), Size(100, 10));
    assert m.visibleLines * 20 <= 10;
    assert ScrollDownPanics(m);
  }

  /** `scroll_up`: the selection moves one item up unless it is on the first;
      the window moves one line up exactly when the selection leaves it. */
  function ScrolledUp(m: ListModel): (r: ListModel)
    ensures SameLayout(m, r)
    ensures r.selected == if m.selected == 0 then 0 else m.selected - 1
    ensures r.windowStart == m.windowStart || r.windowStart + 1 == m.windowStart
    ensures r.windowStart + 1 == m.windowStart <==> r.selected < m.windowStart
    ensures WindowInvariant(m) ==> WindowInvariant(r)
    ensures WindowBounded(m) ==> WindowBounded(r)
    ensures m.selected == 0 && m.windowStart == 0 ==> r == m
  {
    var sel := if m.selected > 0 then m.selected - 1 else m.selected;
    var start := if sel < m.windowStart then m.windowStart - 1 else m.windowStart;
    m.(selected := sel, windowStart := start)
  }

  /** The y coordinate of the row showing item `i`; each row is offset by its
      own item's height times its position in the window. */
  function RowY(m: ListModel, i: nat): (y: int)
    requires m.windowStart <= i < |m.items|
    ensures y >= m.pos.y
    ensures i == m.windowStart ==> y == m.pos.y
  {
    m.pos.y + (i - m.windowStart) * m.items[i].height
  }

  /** The hit box of the row showing item `i`: the full widget width. */
  function RowBox(m: ListModel, i: nat): Rect
    requires m.windowStart <= i < |m.items|
  {
    Rect(Point(m.pos.x, RowY(m, i)), Size(m.size.width, m.items[i].height))
  }

  /** A point hits row `i` exactly when it lies in the widget's columns and
      in the band of that row's height starting at its y offset. */
  lemma RowBoxHit(m: ListModel, i: nat, p: Point)
    requires m.windowStart <= i < |m.items|
    ensures Contains(RowBox(m, i), p) <==>
      m.pos.x <= p.x < m.pos.x + m.size.width && RowY(m, i) <= p.y < RowY(m, i) + m.items[i].height
  {
  }

  /** The first row from `i` on, in window order, whose box contains `p`. */
  function FirstHit(m: ListModel, p: Point, i: nat): (r: Option<nat>)
    requires m.windowStart <= i
    decreases WindowEnd(m) - i
    ensures r.Some? ==>
      i <= r.value < WindowEnd(m) && Contains(RowBox(m, r.value), p) &&
      forall j :: i <= j < r.value ==> !Contains(RowBox(m, j), p)
    ensures r.None? ==> forall j :: i <= j < WindowEnd(m) ==> !Contains(RowBox(m, j), p)
  {
    if i >= WindowEnd(m) then None
    else if Contains(RowBox(m, i), p) then Some(i)
    else FirstHit(m, p, i + 1)
  }

  /** `select_at_pos`: the first visible row containing the point becomes the
      selection; when none contains it, nothing changes. */
  function SelectedAt(m: ListModel, p: Point): (r: ListModel)
    ensures SameLayout(m, r) && r.windowStart == m.windowStart
    ensures (forall j :: m.windowStart <= j < WindowEnd(m) ==> !Contains(RowBox(m, j), p)) ==> r == m
    ensures (exists j :: m.windowStart <= j < WindowEnd(m) && Contains(RowBox(m, j), p)) ==>
      m.windowStart <= r.selected < WindowEnd(m) &&
      Contains(RowBox(m, r.selected), p) &&
      forall j :: m.windowStart <= j < r.selected ==> !Contains(RowBox(m, j), p)
    ensures WindowInvariant(m) ==> WindowInvariant(r)
    ensures WindowBounded(m) ==> WindowBounded(r)
  {
    match FirstHit(m, p, m.windowStart)
    case Some(k) => m.(selected := k)
    case None => m
  }

  /** `set_selected_index`: an index past the end is ignored; the window is
      never moved. */
  function WithSelectedIndex(m: ListModel, index: nat): (r: ListModel)
    ensures SameLayout(m, r) && r.windowStart == m.windowStart
    ensures index >= |m.items| ==> r == m
    ensures index < |m.items| ==> r.selected == index && r == m.(selected := index)
    ensures m.selected < |m.items| ==> r.selected < |m.items|
    ensures WindowInvariant(m) ==>
      (WindowInvariant(r) <==> index >= |m.items| || m.windowStart <= index < m.windowStart + m.visibleLines)
  {
    if index < |m.items| then m.(selected := index) else m
  }

  /** `set_selected_index` can leave the selection outside the window: ten
      items, four lines, selection 0 at window 0, then index 9. */
  lemma WithSelectedIndexCanLeaveWindow()
    ensures exists m: ListModel, i: nat ::
      WindowInvariant(m) && !WindowInvariant(WithSelectedIndex(m, i))
  {
    var item := Item("item", 20, Font(10, 20));
    var m := ListModel(seq(10, _ => item), Point(0, 0), Size(240, 80), 0, 4, 0);
    assert WindowInvariant(m);
    assert !WindowInvariant(WithSelectedIndex(m, 9));
  }

  /** The operations the window invariant is preserved by. */
  datatype ListOp = ScrollDownOp | ScrollUpOp | SelectAtOp(p: Point)

  /** The state after a sequence of scroll and select operations. Starting
      from the window invariant, every operation can be applied and the
      invariant (and the window bound) holds after each one. */
  function ApplyOps(m: ListModel, ops: seq<ListOp>): (r: ListModel)
    requires WindowInvariant(m)
    decreases |ops|
    ensures WindowInvariant(r) && SameLayout(m, r)
    ensures WindowBounded(m) ==> WindowBounded(r)
  {
    if ops == [] then m
    else
      var next := match ops[0]
        case ScrollDownOp => ScrolledDown(m)
        case ScrollUpOp => ScrolledUp(m)
        case SelectAtOp(p) => SelectedAt(m, p);
      ApplyOps(next, ops[1..])
  }

  /** `get_visible_text`: the item's text truncated to the widget width less
      the scrollbar strip (a `u32` subtraction that panics below 20). */
  function VisibleText(m: ListModel, i: nat): (r: Fallible<string>)
    requires i < |m.items|
    ensures r.Ok? ==> m.size.width >= SCROLLBAR_WIDTH
    ensures r.Panic? <==>
      m.size.width < SCROLLBAR_WIDTH ||
      TextWithEllipsis(m.size.width - SCROLLBAR_WIDTH, m.items[i].text, m.items[i].font).Panic?
    ensures r.Ok? ==> r == TextWithEllipsis(m.size.width - SCROLLBAR_WIDTH, m.items[i].text, m.items[i].font)
  {
    if m.size.width < SCROLLBAR_WIDTH then Panic
    else TextWithEllipsis(m.size.width - SCROLLBAR_WIDTH, m.items[i].text, m.items[i].font)
  }

  /** The width of the background box behind each row. */
  function RowWidth(m: ListModel): (w: nat)
    requires m.size.width >= SCROLLBAR_WIDTH
    ensures w + ROW_MARGIN <= m.size.width
    ensures ShowScrollbar(m) ==> w + SCROLLBAR_WIDTH == m.size.width
    ensures !ShowScrollbar(m) ==> w + ROW_MARGIN == m.size.width
  {
    if ShowScrollbar(m) then m.size.width - SCROLLBAR_WIDTH else m.size.width - ROW_MARGIN
  }

  /** The command drawing row `i`. */
  function RowCmd(m: ListModel, i: nat): (r: Fallible<DrawCmd>)
    requires m.windowStart <= i < |m.items|
    ensures r.Panic? <==> VisibleText(m, i).Panic?
    ensures r.Ok? ==>
      r.value.Row? && r.value.index == i && r.value.y == RowY(m, i) &&
      (r.value.highlighted <==> i == m.selected) &&
      m.items[i].font.charWidth * |r.value.text| <= m.size.width - SCROLLBAR_WIDTH
  {
    match VisibleText(m, i)
    case Panic => Panic
    case Ok(t) => Ok(Row(i, m.pos.x, RowY(m, i), i == m.selected, RowWidth(m), t))
  }

  /** The rows for the items from the window start up to `k`, in order. */
  function Rows(m: ListModel, k: nat): (r: Fallible<seq<DrawCmd>>)
    requires k <= |m.items|
    decreases k
    ensures r.Ok? ==>
      |r.value| == (if k >= m.windowStart then k - m.windowStart else 0) &&
      forall j :: 0 <= j < |r.value| ==> RowCmd(m, m.windowStart + j) == Ok(r.value[j])
    ensures r.Panic? <==> exists j :: m.windowStart <= j < k && RowCmd(m, j).Panic?
  {
    if k <= m.windowStart then Ok([])
    else
      match Rows(m, k - 1)
      case Panic => Panic
      case Ok(rs) =>
        match RowCmd(m, k - 1)
        case Panic => Panic
        case Ok(c) => Ok(rs + [c])
  }

  /** The scrollbar track: the reserved strip at the right, 10 pixels shorter
      than the widget (a `u32` subtraction that panics below 10). */
  function TrackCmd(m: ListModel): (c: DrawCmd)
    requires m.size.width >= SCROLLBAR_WIDTH && m.size.height >= SCROLLBAR_MARGIN
    ensures c.ScrollbarTrack? && c.x + c.width == m.size.width && c.width == SCROLLBAR_WIDTH
    ensures c.y == m.pos.y && c.height + SCROLLBAR_MARGIN == m.size.height
  {
    ScrollbarTrack(m.size.width - SCROLLBAR_WIDTH, m.pos.y, SCROLLBAR_WIDTH, m.size.height - SCROLLBAR_MARGIN)
  }

  /** `List::draw`: one row per item of the window, then the scrollbar when
      there are more items than lines. It panics exactly when a visible row's
      text cannot be computed or the scrollbar strip does not fit. */
  function DrawList(m: ListModel): (r: Fallible<seq<DrawCmd>>)
    ensures r.Panic? <==>
      (exists i :: m.windowStart <= i < WindowEnd(m) && VisibleText(m, i).Panic?) ||
      (ShowScrollbar(m) && (m.size.width < SCROLLBAR_WIDTH || m.size.height < SCROLLBAR_MARGIN))
  {
    var rows := Rows(m, WindowEnd(m));
    assert rows.Panic? <==> exists i :: m.windowStart <= i < WindowEnd(m) && VisibleText(m, i).Panic? by {
      if rows.Panic? {
        var i :| m.windowStart <= i < WindowEnd(m) && RowCmd(m, i).Panic?;
        assert VisibleText(m, i).Panic?;
      }
      if exists i :: m.windowStart <= i < WindowEnd(m) && VisibleText(m, i).Panic? {
        var i :| m.windowStart <= i < WindowEnd(m) && VisibleText(m, i).Panic?;
        assert RowCmd(m, i).Panic?;
      }
    }
    match rows
    case Panic => Panic
    case Ok(rs) =>
      if !ShowScrollbar(m) then Ok(rs)
      else if m.size.width < SCROLLBAR_WIDTH || m.size.height < SCROLLBAR_MARGIN then Panic
      else Ok(rs + [TrackCmd(m), ScrollbarIndicator])
  }

  /** What `draw` emits: exactly the rows of the window, in order, at
      `pos.y + k * height`, only the selected one highlighted, then the
      scrollbar track and indicator if and only if there are more items than
      lines. */
  lemma DrawListCommands(m: ListModel)
    requires DrawList(m).Ok?
    ensures |DrawList(m).value| == RowCount(m) + (if ShowScrollbar(m) then 2 else 0)
    ensures forall k :: 0 <= k < RowCount(m) ==>
      m.windowStart + k < |m.items| && m.size.width >= SCROLLBAR_WIDTH &&
      DrawList(m).value[k] == Row(m.windowStart + k, m.pos.x, m.pos.y + k * m.items[m.windowStart + k].height,
                                  m.windowStart + k == m.selected, RowWidth(m),
                                  VisibleText(m, m.windowStart + k).value)
    ensures ShowScrollbar(m) ==>
      m.size.width >= SCROLLBAR_WIDTH && m.size.height >= SCROLLBAR_MARGIN &&
      DrawList(m).value[RowCount(m)] == TrackCmd(m) &&
      DrawList(m).value[RowCount(m) + 1] == ScrollbarIndicator
    ensures !ShowScrollbar(m) ==> forall c :: c in DrawList(m).value ==> c.Row?
  {
    var rs := Rows(m, WindowEnd(m)).value;
    assert |rs| == RowCount(m);
    forall k | 0 <= k < RowCount(m)
      ensures m.windowStart + k < |m.items| && m.size.width >= SCROLLBAR_WIDTH
      ensures DrawList(m).value[k] == rs[k]
      ensures rs[k] == Row(m.windowStart + k, m.pos.x, m.pos.y + k * m.items[m.windowStart + k].height,
                           m.windowStart + k == m.selected, RowWidth(m),
                           VisibleText(m, m.windowStart + k).value)
    {
      assert RowCmd(m, m.windowStart + k) == Ok(rs[k]);
    }
    if !ShowScrollbar(m) {
      forall c | c in DrawList(m).value ensures c.Row? {
        var k :| 0 <= k < |rs| && rs[k] == c;
        assert RowCmd(m, m.windowStart + k) == Ok(rs[k]);
      }
    }
  }

  /** In a drawn list, a row is highlighted exactly when it shows the
      selection. */
  lemma DrawHighlightsOnlySelection(m: ListModel)
    requires DrawList(m).Ok?
    ensures forall c :: c in DrawList(m).value && c.Row? ==> (c.highlighted <==> c.index == m.selected)
  {
    DrawListCommands(m);
  }

  /** The widget: `items`, `pos`, `size` and `visibleLines` are fixed at
      construction; the scroll and select operations update the selection and
      the window in place and then redraw. */
  class List {
    const items: seq<Item>
    const pos: Point
    const size: Size
    const visibleLines: nat
    var selectedIndex: nat
    var windowStart: nat

    function Model(): ListModel
      reads this
    {
      ListModel(items, pos, size, selectedIndex, visibleLines, windowStart)
    }

    constructor (items: seq<Item>, pos: Point, size: Size)
      requires items == [] || items[0].height > 0
      ensures Model() == NewList(items, pos, size)
    {
      this.items := items;
      this.pos := pos;
      this.size := size;
      this.visibleLines :=
        if |items| == 0 then 1 else (size.height % U16_MODULUS) / items[0].height;
      this.selectedIndex := 0;
      this.windowStart := 0;
    }

    /** `get_selected_index`. */
    function SelectedIndex(): (i: nat)
      reads this
      ensures WindowInvariant(Model()) ==> i < |items| && windowStart <= i < WindowEnd(Model())
    {
      selectedIndex
    }

    /** `draw`: loops over the window, stopping at the first panic. */
    method Draw() returns (r: Fallible<seq<DrawCmd>>)
      ensures r == DrawList(Model())
    {
      var end := Min(windowStart + visibleLines, |items|);
      var showScrollbar := |items| > visibleLines;
      var cmds: seq<DrawCmd> := [];
      var i := windowStart;
      while i < end
        invariant windowStart <= i
        invariant Rows(Model(), Min(i, end)) == Ok(cmds)
      {
        if size.width < SCROLLBAR_WIDTH {
          assert RowCmd(Model(), i).Panic?;
          return Panic;
        }
        var text := TextWithEllipsis(size.width - SCROLLBAR_WIDTH, items[i].text, items[i].font);
        if text.Panic? {
          assert RowCmd(Model(), i).Panic?;
          return Panic;
        }
        var width := if showScrollbar then size.width - SCROLLBAR_WIDTH else size.width - ROW_MARGIN;
        cmds := cmds + [Row(i, pos.x, pos.y + (i - windowStart) * items[i].height,
                            selectedIndex == i, width, text.value)];
        i := i + 1;
      }
      if showScrollbar {
        if size.height < SCROLLBAR_MARGIN || size.width < SCROLLBAR_WIDTH {
          return Panic;
        }
        cmds := cmds + [TrackCmd(Model()), ScrollbarIndicator];
      }
      r := Ok(cmds);
    }

    /** `scroll_down`, then a redraw. Each of its two subtractions panics
        when it underflows; the selection has already moved when the second
        one does. */
    method ScrollDown() returns (r: Fallible<seq<DrawCmd>>)
      modifies this
      ensures ScrollDownPanics(old(Model())) ==> r == Panic
      ensures |items| == 0 ==> Model() == old(Model())
      ensures |items| > 0 && ScrollDownPanics(old(Model())) ==>
        Model() == old(Model()).(selected :=
          if old(selectedIndex) < |items| - 1 then old(selectedIndex) + 1 else old(selectedIndex))
      ensures !ScrollDownPanics(old(Model())) ==>
        Model() == ScrolledDown(old(Model())) && r == DrawList(Model())
    {
      if |items| == 0 {
        return Panic;
      }
      if selectedIndex < |items| - 1 {
        selectedIndex := selectedIndex + 1;
      }
      if windowStart + visibleLines == 0 {
        return Panic;
      }
      if selectedIndex > windowStart + visibleLines - 1 {
        windowStart := windowStart + 1;
      }
      r := Draw();
    }

    /** `scroll_up`, then a redraw. */
    method ScrollUp() returns (r: Fallible<seq<DrawCmd>>)
      modifies this
      ensures Model() == ScrolledUp(old(Model()))
      ensures r == DrawList(Model())
    {
      if selectedIndex > 0 {
        selectedIndex := selectedIndex - 1;
      }
      if selectedIndex < windowStart {
        windowStart := windowStart - 1;
      }
      r := Draw();
    }

    /** `select_at_pos`: hit-tests the visible rows in order, stops at the
      first hit, redraws and returns the selection. */
    method SelectAtPos(p: Point) returns (r: Fallible<nat>)
      modifies this
      ensures Model() == SelectedAt(old(Model()), p)
      ensures r == if DrawList(Model()).Ok? then Ok(selectedIndex) else Panic
    {
      ghost var m := Model();
      var end := Min(windowStart + visibleLines, |items|);
      var i := windowStart;
      while i < end
        invariant windowStart <= i && Model() == m
        invariant FirstHit(m, p, i) == FirstHit(m, p, windowStart)
      {
        var box := Rect(Point(pos.x, pos.y + (i - windowStart) * items[i].height),
                        Size(size.width, items[i].height));
        if Contains(box, p) {
          assert box == RowBox(m, i);
          selectedIndex := i;
          break;
        }
        i := i + 1;
      }
      var cmds := Draw();
      if cmds.Panic? {
        return Panic;
      }
      r := Ok(selectedIndex);
    }

    /** `set_selected_index`. */
    method SetSelectedIndex(index: nat)
      modifies this
      ensures Model() == WithSelectedIndex(old(Model()), index)
    {
      if index < |items| {
        selectedIndex := index;
      }
    }
  }
}

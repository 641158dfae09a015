/** The taskbar client (src/app-panel/main.c): it lists the toplevels the
    compositor announces through wlr-foreign-toplevel-management, lays the
    finished ones out in equal-width slots across its window, and asks the
    compositor to activate the toplevel whose slot is clicked. Drawing
    itself (cairo) and the protocol requests are not modelled; the model
    keeps the window's buffer pool, the slot rectangles and the handle
    state. */
module Taskbar {
  import opened Common
  import opened WlmTypes
  import Buffers
  import Windows
  import Seats

  /** The size a dimension takes when the compositor leaves it to the
      client and none is set yet. */
  const DEFAULT_WIDTH: nat := 100
  const DEFAULT_HEIGHT: nat := 100

  /** enum zwlr_foreign_toplevel_handle_v1_state of
      wlr-foreign-toplevel-management-unstable-v1. */
  const ZWLR_FOREIGN_TOPLEVEL_HANDLE_V1_STATE_MAXIMIZED: nat := 0
  const ZWLR_FOREIGN_TOPLEVEL_HANDLE_V1_STATE_MINIMIZED: nat := 1
  const ZWLR_FOREIGN_TOPLEVEL_HANDLE_V1_STATE_ACTIVATED: nat := 2
  const ZWLR_FOREIGN_TOPLEVEL_HANDLE_V1_STATE_FULLSCREEN: nat := 3

  /** BTN_LEFT of linux/input-event-codes.h and the released state of
      enum wl_pointer_button_state. */
  const BTN_LEFT: nat := 0x110
  const WL_POINTER_BUTTON_STATE_RELEASED: nat := 0

  /** A cairo_rectangle_t; every value the taskbar stores in one is an
      integer. */
  datatype Rect = Rect(x: int, y: int, width: int, height: int)

  /** struct window of the taskbar: the pointer position in surface
      coordinates, the buffer pool, the size, and whether a frame callback
      is pending or a redraw is due. */
  class PanelWindow {
    var cursorX: real
    var cursorY: real
    var buffers: seq<Buffer>
    var width: nat
    var height: nat
    var frame: bool
    var needsDraw: bool

    /** The zero-initialised window of main. */
    constructor ()
      ensures buffers == [] && width == 0 && height == 0 && !frame && !needsDraw
    {
      cursorX := 0.0;
      cursorY := 0.0;
      buffers := [];
      width := 0;
      height := 0;
      frame := false;
      needsDraw := false;
    }
  }

  /** struct toplevel of the taskbar: one foreign toplevel handle and what
      the compositor has said about it. */
  class TaskToplevel {
    const handle: nat
    var done: bool
    var title: Option<string>
    var appId: Option<string>
    var minimized: bool
    var maximized: bool
    var activated: bool
    var fullscreen: bool
    var rect: Rect

    /** The calloc'ed record of toplevel_manager_toplevel. */
    constructor (handle: nat)
      ensures this.handle == handle && !done && title.None? && appId.None?
      ensures !minimized && !maximized && !activated && !fullscreen && rect == Rect(0, 0, 0, 0)
    {
      this.handle := handle;
      done := false;
      title := None;
      appId := None;
      minimized := false;
      maximized := false;
      activated := false;
      fullscreen := false;
      rect := Rect(0, 0, 0, 0);
    }
  }

  /** struct seat of the taskbar: whether it has a pointer and the window
      the pointer is in. */
  class PanelSeat {
    var hasPointer: bool
    var window: Option<PanelWindow>

    constructor ()
      ensures !hasPointer && window.None?
    {
      hasPointer := false;
      window := None;
    }
  }

  /** The taskbar's global lists: toplevel_list and window_list. */
  class Panel {
    var toplevels: seq<TaskToplevel>
    var windows: seq<PanelWindow>

    constructor ()
      ensures toplevels == [] && windows == []
    {
      toplevels := [];
      windows := [];
    }
  }

  /** Each list holds a record at most once and each window's buffer pool
      is duplicate-free. */
  predicate Valid(p: Panel)
    reads p, p.windows
  {
    Distinct(p.toplevels) && Distinct(p.windows) && forall w :: w in p.windows ==> Distinct(w.buffers)
  }

  // ---------------------------------------------------------------------
  // Sizing and handle events

  /** xdg_toplevel_configure: a non-zero dimension is taken as uint32_t, a
      zero one keeps the current value unless there is none, in which case
      the default is used; a redraw becomes due exactly when the size
      changes. */
  method Configure(w: PanelWindow, width: int, height: int)
    modifies w`width, w`height, w`needsDraw
    ensures width != 0 ==> w.width == ToU32(width)
    ensures width == 0 ==> w.width == (if old(w.width) == 0 then DEFAULT_WIDTH else old(w.width))
    ensures height != 0 ==> w.height == ToU32(height)
    ensures height == 0 ==> w.height == (if old(w.height) == 0 then DEFAULT_HEIGHT else old(w.height))
    ensures w.width != 0 || width != 0
    ensures w.needsDraw == (old(w.needsDraw) || w.width != old(w.width) || w.height != old(w.height))
  {
    if width != 0 {
      if w.width != ToU32(width) {
        w.width := ToU32(width);
        w.needsDraw := true;
      }
    } else if w.width == 0 {
      w.width := DEFAULT_WIDTH;
      w.needsDraw := true;
    }
    if height != 0 {
      if w.height != ToU32(height) {
        w.height := ToU32(height);
        w.needsDraw := true;
      }
    } else if w.height == 0 {
      w.height := DEFAULT_HEIGHT;
      w.needsDraw := true;
    }
  }

  /** toplevel_handle_state: the four flags are cleared, then each is set
      exactly when its state occurs in the array; unknown states are
      ignored. */
  method HandleState(t: TaskToplevel, states: seq<nat>)
    modifies t`minimized, t`maximized, t`activated, t`fullscreen
    ensures t.maximized <==> ZWLR_FOREIGN_TOPLEVEL_HANDLE_V1_STATE_MAXIMIZED in states
    ensures t.minimized <==> ZWLR_FOREIGN_TOPLEVEL_HANDLE_V1_STATE_MINIMIZED in states
    ensures t.activated <==> ZWLR_FOREIGN_TOPLEVEL_HANDLE_V1_STATE_ACTIVATED in states
    ensures t.fullscreen <==> ZWLR_FOREIGN_TOPLEVEL_HANDLE_V1_STATE_FULLSCREEN in states
  {
    t.minimized := false;
    t.maximized := false;
    t.activated := false;
    t.fullscreen := false;
    var i := 0;
    while i < |states|
      invariant 0 <= i <= |states|
      invariant t.maximized <==> ZWLR_FOREIGN_TOPLEVEL_HANDLE_V1_STATE_MAXIMIZED in states[..i]
      invariant t.minimized <==> ZWLR_FOREIGN_TOPLEVEL_HANDLE_V1_STATE_MINIMIZED in states[..i]
      invariant t.activated <==> ZWLR_FOREIGN_TOPLEVEL_HANDLE_V1_STATE_ACTIVATED in states[..i]
      invariant t.fullscreen <==> ZWLR_FOREIGN_TOPLEVEL_HANDLE_V1_STATE_FULLSCREEN in states[..i]
    {
      assert states[..i + 1] == states[..i] + [states[i]];
      var s := states[i];
      if s == ZWLR_FOREIGN_TOPLEVEL_HANDLE_V1_STATE_MAXIMIZED {
        t.maximized := true;
      } else if s == ZWLR_FOREIGN_TOPLEVEL_HANDLE_V1_STATE_MINIMIZED {
        t.minimized := true;
      } else if s == ZWLR_FOREIGN_TOPLEVEL_HANDLE_V1_STATE_ACTIVATED {
        t.activated := true;
      } else if s == ZWLR_FOREIGN_TOPLEVEL_HANDLE_V1_STATE_FULLSCREEN {
        t.fullscreen := true;
      }
      i := i + 1;
    }
    assert states[..i] == states;
  }

  /** toplevel_handle_title: the latest title replaces the previous one. */
  method HandleTitle(t: TaskToplevel, title: string)
    modifies t`title
    ensures t.title == Some(title)
  {
    t.title := Some(title);
  }

  /** toplevel_handle_app_id: the latest app id replaces the previous one. */
  method HandleAppId(t: TaskToplevel, appId: string)
    modifies t`appId
    ensures t.appId == Some(appId)
  {
    t.appId := Some(appId);
  }

  /** toplevel_manager_toplevel: a new handle is linked at the head of the
      list, not yet done and with an empty slot. */
  method ManagerToplevel(p: Panel, handle: nat) returns (t: TaskToplevel)
    requires Distinct(p.toplevels)
    modifies p`toplevels
    ensures fresh(t) && t.handle == handle && !t.done && t.rect == Rect(0, 0, 0, 0)
    ensures p.toplevels == [t] + old(p.toplevels) && Distinct(p.toplevels)
  {
    t := new TaskToplevel(handle);
    DistinctCons(t, p.toplevels);
    p.toplevels := [t] + p.toplevels;
  }

  // ---------------------------------------------------------------------
  // Slot layout

  /** The number of finished toplevels. */
  function CountDone(dones: seq<bool>): (n: nat)
    ensures n <= |dones|
    decreases |dones|
  {
    if dones == [] then 0
    else
      var m := |dones| - 1;
      CountDone(dones[..m]) + (if dones[m] then 1 else 0)
  }

  /** Counting a longer prefix never gives less, and passing a finished
      toplevel gives at least one more. */
  lemma {:induction false} CountDoneGrows(dones: seq<bool>, a: nat, b: nat)
    requires a <= b <= |dones|
    ensures CountDone(dones[..a]) <= CountDone(dones[..b])
    ensures a < b && dones[a] ==> CountDone(dones[..a]) + 1 <= CountDone(dones[..b])
    decreases b
  {
    if a < b {
      CountDoneGrows(dones, a, b - 1);
      assert dones[..b][..b - 1] == dones[..b - 1];
      if a == b - 1 {
        assert CountDone(dones[..b]) == CountDone(dones[..a]) + (if dones[a] then 1 else 0);
      }
    }
  }

  /** Every rank below the count belongs to some finished toplevel. */
  lemma {:induction false} RankExists(dones: seq<bool>, r: nat)
    requires r < CountDone(dones)
    ensures exists k :: 0 <= k < |dones| && dones[k] && CountDone(dones[..k]) == r
    decreases |dones|
  {
    var m := |dones| - 1;
    if r < CountDone(dones[..m]) {
      RankExists(dones[..m], r);
      var k :| 0 <= k < m && dones[..m][k] && CountDone(dones[..m][..k]) == r;
      assert dones[..m][..k] == dones[..k];
    } else {
      assert dones[..m] == dones[..m];
    }
  }

  /** item_width: the window width divided among the finished toplevels,
      as uint32_t division stored in an int. */
  function ItemWidth(width: nat, count: nat): int
  {
    if count == 0 then 0 else ToI32(width / count)
  }

  /** For a window narrower than 2^31, the slots fit side by side within
      the width. */
  lemma ItemWidthFits(width: nat, count: nat)
    requires count > 0 && width < I32_MODULUS
    ensures 0 <= ItemWidth(width, count) && count * ItemWidth(width, count) <= width
  {
    var q := width / count;
    assert q * count <= width;
    assert ToI32(q) == q;
  }

  /** The slot draw_window gives toplevel k, from the done flags and the
      current rectangles of all toplevels: with no finished toplevel
      nothing changes; otherwise the finished ones take consecutive slots
      of equal width and the window's height in list order, and the others
      get an empty rectangle (their position is left as it was). */
  function Slot(dones: seq<bool>, rects: seq<Rect>, itemWidth: int, height: nat, k: nat): Rect
    requires |dones| == |rects| && k < |rects|
  {
    if CountDone(dones) == 0 then rects[k]
    else if dones[k] then Rect(CountDone(dones[..k]) * itemWidth, 0, itemWidth, height)
    else rects[k].(width := 0, height := 0)
  }

  /** The slots of all toplevels after a layout, in list order. */
  function Layout(dones: seq<bool>, rects: seq<Rect>, width: nat, height: nat): (r: seq<Rect>)
    requires |dones| == |rects|
    ensures |r| == |rects| && forall k :: 0 <= k < |r| ==> r[k] == Slot(dones, rects, ItemWidth(width, CountDone(dones)), height, k)
  {
    seq(|rects|, k requires 0 <= k < |rects| => Slot(dones, rects, ItemWidth(width, CountDone(dones)), height, k))
  }

  /** A multiplication that keeps an order: used for slot positions. */
  lemma MulLeq(a: int, b: int, c: int)
    requires a <= b && 0 <= c
    ensures a * c <= b * c
  {
  }

  /** The slot a layout gives a finished toplevel, by its rank among the
      finished ones. */
  lemma SlotOf(dones: seq<bool>, rects: seq<Rect>, width: nat, height: nat, k: nat)
    requires |dones| == |rects| && k < |rects| && dones[k]
    ensures CountDone(dones[..k]) < CountDone(dones)
    ensures Slot(dones, rects, ItemWidth(width, CountDone(dones)), height, k)
      == Rect(CountDone(dones[..k]) * ItemWidth(width, CountDone(dones)), 0, ItemWidth(width, CountDone(dones)), height)
  {
    CountDoneGrows(dones, k, |dones|);
    assert dones[..|dones|] == dones;
  }

  /** The slot of rank r ends where the slot of rank r + 1 starts. */
  lemma SlotsApart(r: int, w: int)
    ensures r * w + w == (r + 1) * w
  {
  }

  /** Slot rank of count slots of width w, w * count at most width, ends
      within the width. */
  lemma SlotArith(rank: nat, count: nat, w: int, width: nat)
    requires rank < count && 0 <= w && count * w <= width
    ensures 0 <= rank * w && rank * w + w <= width
  {
    MulLeq(rank + 1, count, w);
    assert rank * w + w == (rank + 1) * w;
  }

  /** The slot of a finished toplevel lies within the window: it starts at
      or after 0, ends at or before the width, and spans the height. */
  lemma LayoutFits(dones: seq<bool>, rects: seq<Rect>, width: nat, height: nat, k: nat)
    requires |dones| == |rects| && width < I32_MODULUS && k < |rects| && dones[k]
    ensures var r := Slot(dones, rects, ItemWidth(width, CountDone(dones)), height, k);
      0 <= r.x && r.x + r.width <= width && r.y == 0 && r.height == height && r.width >= 0
  {
    SlotOf(dones, rects, width, height, k);
    ItemWidthFits(width, CountDone(dones));
    SlotArith(CountDone(dones[..k]), CountDone(dones), ItemWidth(width, CountDone(dones)), width);
  }

  /** The slots of two finished toplevels do not overlap: the earlier one
      in the list ends where or before the later one starts. */
  lemma LayoutDisjoint(dones: seq<bool>, rects: seq<Rect>, width: nat, height: nat, k1: nat, k2: nat)
    requires |dones| == |rects| && width < I32_MODULUS
    requires k1 < k2 < |rects| && dones[k1] && dones[k2]
    ensures Slot(dones, rects, ItemWidth(width, CountDone(dones)), height, k1).x + Slot(dones, rects, ItemWidth(width, CountDone(dones)), height, k1).width
      <= Slot(dones, rects, ItemWidth(width, CountDone(dones)), height, k2).x
  {
    SlotOf(dones, rects, width, height, k1);
    SlotOf(dones, rects, width, height, k2);
    CountDoneGrows(dones, k1, k2);
    ItemWidthFits(width, CountDone(dones));
    MulLeq(CountDone(dones[..k1]) + 1, CountDone(dones[..k2]), ItemWidth(width, CountDone(dones)));
    SlotsApart(CountDone(dones[..k1]), ItemWidth(width, CountDone(dones)));
  }

  /** An empty rectangle: both dimensions zero. */
  predicate Empty(r: Rect) {
    r.width == 0 && r.height == 0
  }

  /** Half-open containment of a point in a rectangle. */
  predicate Contains(r: Rect, x: real, y: real) {
    r.x as real <= x && r.y as real <= y && x < (r.x + r.width) as real && y < (r.y + r.height) as real
  }

  /** What pointer_button accepts as the clicked slot. */
  predicate Hit(r: Rect, x: real, y: real) {
    !Empty(r) && Contains(r, x, y)
  }

  /** The first slot, in list order, the point hits. */
  function FirstHit(rects: seq<Rect>, x: real, y: real): (r: Option<nat>)
    ensures r.Some? ==> r.value < |rects| && Hit(rects[r.value], x, y)
    ensures r.Some? ==> forall k :: 0 <= k < r.value ==> !Hit(rects[k], x, y)
    ensures r.None? <==> forall k :: 0 <= k < |rects| ==> !Hit(rects[k], x, y)
    decreases |rects|
  {
    if rects == [] then None
    else if Hit(rects[0], x, y) then Some(0)
    else
      match FirstHit(rects[1..], x, y)
      case None =>
        assert forall k :: 1 <= k < |rects| ==> rects[k] == rects[1..][k - 1];
        None
      case Some(k) =>
        assert forall j :: 1 <= j <= k ==> rects[j] == rects[1..][j - 1];
        Some(k + 1)
  }

  /** After a layout, a point hits at most one slot, and only the slot of a
      finished toplevel: so the click activates at most one toplevel, and
      never one that is not done. */
  lemma LayoutHitsOne(dones: seq<bool>, rects: seq<Rect>, width: nat, height: nat,
                      x: real, y: real, k1: nat, k2: nat)
    requires |dones| == |rects| && width < I32_MODULUS && CountDone(dones) > 0
    requires k1 < |rects| && k2 < |rects|
    requires Hit(Slot(dones, rects, ItemWidth(width, CountDone(dones)), height, k1), x, y)
    requires Hit(Slot(dones, rects, ItemWidth(width, CountDone(dones)), height, k2), x, y)
    ensures k1 == k2 && dones[k1]
  {
    if k1 < k2 {
      LayoutDisjoint(dones, rects, width, height, k1, k2);
    } else if k2 < k1 {
      LayoutDisjoint(dones, rects, width, height, k2, k1);
    }
  }

  /** The rank of the slot that holds column n of count slots of width
      w. */
  lemma CoverRank(n: int, count: nat, w: int) returns (rank: nat)
    requires 0 <= n < count * w && 0 <= w
    ensures rank < count && rank * w <= n < rank * w + w && w > 0
  {
    rank := n / w;
    if rank >= count {
      MulLeq(count, rank, w);
    }
  }

  /** After a layout, a click selects toplevel k exactly when the point
      hits its slot, and only a finished toplevel's slot can be hit. */
  lemma LayoutHit(dones: seq<bool>, rects: seq<Rect>, width: nat, height: nat, x: real, y: real, k: nat)
    requires |dones| == |rects| && width < I32_MODULUS && CountDone(dones) > 0 && k < |rects|
    ensures FirstHit(Layout(dones, rects, width, height), x, y) == Some(k)
      <==> Hit(Slot(dones, rects, ItemWidth(width, CountDone(dones)), height, k), x, y)
    ensures Hit(Slot(dones, rects, ItemWidth(width, CountDone(dones)), height, k), x, y) ==> dones[k]
  {
    var r := Layout(dones, rects, width, height);
    if Hit(r[k], x, y) {
      var j := FirstHit(r, x, y).value;
      LayoutHitsOne(dones, rects, width, height, x, y, j, k);
    }
  }

  /** After a layout, every point of the band the slots cover, from 0 to
      count * item_width across and over the window's height, hits a
      slot. */
  lemma LayoutCovers(dones: seq<bool>, rects: seq<Rect>, width: nat, height: nat, x: real, y: real)
    requires |dones| == |rects| && width < I32_MODULUS && CountDone(dones) > 0
    requires 0.0 <= x < (CountDone(dones) * ItemWidth(width, CountDone(dones))) as real
    requires 0.0 <= y < height as real
    ensures FirstHit(Layout(dones, rects, width, height), x, y).Some?
  {
    var count := CountDone(dones);
    var w := ItemWidth(width, count);
    var n := x.Floor;
    ItemWidthFits(width, count);
    var rank := CoverRank(n, count, w);
    RankExists(dones, rank);
    var k :| 0 <= k < |dones| && dones[k] && CountDone(dones[..k]) == rank;
    SlotOf(dones, rects, width, height, k);
    assert Hit(Slot(dones, rects, ItemWidth(width, CountDone(dones)), height, k), x, y);
  }

  /** The done flags of the toplevels, in list order. */
  function DonesOf(ts: seq<TaskToplevel>): (dones: seq<bool>)
    reads ts
    ensures |dones| == |ts| && forall k :: 0 <= k < |ts| ==> dones[k] == ts[k].done
  {
    seq(|ts|, k requires 0 <= k < |ts| reads ts => ts[k].done)
  }

  /** The slot rectangles of the toplevels, in list order. */
  function RectsOf(ts: seq<TaskToplevel>): (rects: seq<Rect>)
    reads ts
    ensures |rects| == |ts| && forall k :: 0 <= k < |ts| ==> rects[k] == ts[k].rect
  {
    seq(|ts|, k requires 0 <= k < |ts| reads ts => ts[k].rect)
  }

  /** The counting loop of draw_window: the number of finished
      toplevels. */
  method CountFinished(ts: seq<TaskToplevel>) returns (count: nat)
    ensures count == CountDone(DonesOf(ts))
  {
    ghost var dones := DonesOf(ts);
    count := 0;
    var i := 0;
    while i < |ts|
      invariant 0 <= i <= |ts|
      invariant count == CountDone(dones[..i])
    {
      assert dones[..i + 1][..i] == dones[..i];
      if ts[i].done {
        count := count + 1;
      }
      i := i + 1;
    }
    assert dones[..i] == dones;
  }

  /** One step of the placing loop: the slot of toplevel i, given the
      number of finished toplevels before it. */
  lemma SlotStep(dones: seq<bool>, rects: seq<Rect>, itemWidth: int, height: nat, i: nat, rank: nat)
    requires |dones| == |rects| && i < |rects| && CountDone(dones) > 0 && rank == CountDone(dones[..i])
    ensures CountDone(dones[..i + 1]) == rank + (if dones[i] then 1 else 0)
    ensures Slot(dones, rects, itemWidth, height, i)
      == if dones[i] then Rect(rank * itemWidth, 0, itemWidth, height) else rects[i].(width := 0, height := 0)
  {
    assert dones[..i + 1][..i] == dones[..i];
  }

  /** The placing loop of draw_window, once a finished toplevel exists:
      each toplevel gets its slot, in list order. */
  method PlaceSlots(ts: seq<TaskToplevel>, itemWidth: int, height: nat, ghost dones: seq<bool>, ghost rects: seq<Rect>)
    requires Distinct(ts) && |dones| == |ts| && |rects| == |ts| && CountDone(dones) > 0
    requires forall k :: 0 <= k < |ts| ==> ts[k].done == dones[k] && ts[k].rect == rects[k]
    modifies ts`rect
    ensures forall k :: 0 <= k < |ts| ==> ts[k].rect == Slot(dones, rects, itemWidth, height, k)
  {
    var rank := 0;
    var i := 0;
    while i < |ts|
      invariant 0 <= i <= |ts|
      invariant rank == CountDone(dones[..i])
      invariant forall k :: 0 <= k < i ==> ts[k].rect == Slot(dones, rects, itemWidth, height, k)
      invariant forall k :: i <= k < |ts| ==> ts[k].rect == rects[k]
    {
      SlotStep(dones, rects, itemWidth, height, i, rank);
      var t := ts[i];
      if !t.done {
        t.rect := t.rect.(width := 0, height := 0);
      } else {
        t.rect := Rect(rank * itemWidth, 0, itemWidth, height);
        rank := rank + 1;
      }
      i := i + 1;
    }
  }

  /** The layout part of draw_window: a loop counts the finished
      toplevels, and when there is one a second loop assigns every slot. */
  method LayoutToplevels(p: Panel, width: nat, height: nat)
    requires Distinct(p.toplevels)
    modifies p.toplevels`rect
    ensures forall k :: 0 <= k < |p.toplevels| ==>
      p.toplevels[k].rect == Slot(old(DonesOf(p.toplevels)), old(RectsOf(p.toplevels)), ItemWidth(width, CountDone(old(DonesOf(p.toplevels)))), height, k)
  {
    var ts := p.toplevels;
    ghost var dones := DonesOf(ts);
    ghost var rects := RectsOf(ts);
    var count := CountFinished(ts);
    if count == 0 {
      return;
    }
    PlaceSlots(ts, ItemWidth(width, count), height, dones, rects);
  }

  // ---------------------------------------------------------------------
  // Buffer pool and drawing

  /** The size test of draw_window: unlike the library, the taskbar does
      not compare the pixel format. */
  predicate Fits(b: Buffer, width: nat, height: nat) {
    b.width == width && b.height == height && b.stride == Windows.Stride(width)
  }

  /** The buffers the pruning loop of draw_window keeps, in list order,
      when `busy` are those the compositor holds. */
  function Retained(bs: seq<Buffer>, busy: set<Buffer>, width: nat, height: nat): (r: seq<Buffer>)
    ensures |r| <= |bs|
    decreases |bs|
  {
    if bs == [] then []
    else
      var n := |bs| - 1;
      Retained(bs[..n], busy, width, height) + (if bs[n] in busy || Fits(bs[n], width, height) then [bs[n]] else [])
  }

  /** A buffer survives the pruning exactly when it was in the pool and is
      busy or of the window's size. */
  lemma {:induction false} RetainedMembers(bs: seq<Buffer>, busy: set<Buffer>, width: nat, height: nat, b: Buffer)
    ensures b in Retained(bs, busy, width, height) <==> b in bs && (b in busy || Fits(b, width, height))
    decreases |bs|
  {
    if bs != [] {
      var n := |bs| - 1;
      assert bs == bs[..n] + [bs[n]];
      RetainedMembers(bs[..n], busy, width, height, b);
    }
  }

  /** Pruning a duplicate-free pool keeps it duplicate-free. */
  lemma {:induction false} RetainedDistinct(bs: seq<Buffer>, busy: set<Buffer>, width: nat, height: nat)
    requires Distinct(bs)
    ensures Distinct(Retained(bs, busy, width, height))
    decreases |bs|
  {
    if bs != [] {
      var n := |bs| - 1;
      assert bs == bs[..n] + [bs[n]];
      assert Distinct(bs[..n]);
      RetainedDistinct(bs[..n], busy, width, height);
      var r := Retained(bs[..n], busy, width, height);
      if bs[n] in busy || Fits(bs[n], width, height) {
        assert bs[n] !in bs[..n];
        RetainedMembers(bs[..n], busy, width, height, bs[n]);
        forall a, c | 0 <= a < c < |r + [bs[n]]| ensures (r + [bs[n]])[a] != (r + [bs[n]])[c] {
          assert (r + [bs[n]])[a] == r[a];
          if c < |r| {
            assert (r + [bs[n]])[c] == r[c];
          }
        }
      }
    }
  }

  /** One step of the pruning loop: with the first i buffers examined,
      freeing buffer i when it is idle and of the wrong size, and keeping
      it otherwise, gives the first i + 1 buffers examined. */
  lemma RetainStep(bs: seq<Buffer>, busy: set<Buffer>, i: nat, width: nat, height: nat)
    requires Distinct(bs) && i < |bs|
    ensures var b := bs[i]; var cur := Retained(bs[..i], busy, width, height) + bs[i..];
      if b !in busy && !Fits(b, width, height) then Without(cur, b) == Retained(bs[..i + 1], busy, width, height) + bs[i + 1..]
      else cur == Retained(bs[..i + 1], busy, width, height) + bs[i + 1..]
  {
    var b := bs[i];
    assert bs[..i + 1] == bs[..i] + [b];
    assert bs[..i + 1][..i] == bs[..i];
    assert bs[i..] == [b] + bs[i + 1..];
    if b !in busy && !Fits(b, width, height) {
      assert b !in bs[..i];
      assert b !in bs[i + 1..];
      RetainedMembers(bs[..i], busy, width, height, b);
      var k := Retained(bs[..i], busy, width, height);
      WithoutMiddle(k, b, bs[i + 1..]);
      assert k + bs[i..] == k + [b] + bs[i + 1..];
      assert Retained(bs[..i + 1], busy, width, height) == k;
    }
  }

  /** The index of the first idle buffer of the window's size. */
  function FirstFit(bs: seq<Buffer>, busy: set<Buffer>, width: nat, height: nat): (r: Option<nat>)
    ensures r.Some? ==> r.value < |bs| && bs[r.value] !in busy && Fits(bs[r.value], width, height)
    ensures r.Some? ==> forall k :: 0 <= k < r.value ==> bs[k] in busy || !Fits(bs[k], width, height)
    ensures r.None? <==> forall k :: 0 <= k < |bs| ==> bs[k] in busy || !Fits(bs[k], width, height)
    decreases |bs|
  {
    if bs == [] then None
    else if bs[0] !in busy && Fits(bs[0], width, height) then Some(0)
    else
      match FirstFit(bs[1..], busy, width, height)
      case None =>
        assert forall k :: 1 <= k < |bs| ==> bs[k] == bs[1..][k - 1];
        None
      case Some(k) =>
        assert forall j :: 1 <= j <= k ==> bs[j] == bs[1..][j - 1];
        Some(k + 1)
  }

  /** The pruning loop of draw_window: every idle buffer of the wrong size
      is unlinked and freed, the others stay in order. */
  method PruneBuffers(w: PanelWindow)
    requires Distinct(w.buffers)
    modifies w`buffers
    ensures w.buffers == Retained(old(w.buffers), old(Windows.Busy(w.buffers)), w.width, w.height)
    ensures Distinct(w.buffers)
  {
    var bs := w.buffers;
    ghost var busy := Windows.Busy(bs);
    var i := 0;
    while i < |bs|
      invariant 0 <= i <= |bs|
      invariant w.buffers == Retained(bs[..i], busy, w.width, w.height) + bs[i..]
    {
      var b := bs[i];
      RetainStep(bs, busy, i, w.width, w.height);
      ghost var next := Retained(bs[..i + 1], busy, w.width, w.height) + bs[i + 1..];
      Windows.BusyMembers(bs, b);
      if !b.busy && !Fits(b, w.width, w.height) {
        w.buffers := Without(w.buffers, b);
        assert w.buffers == next;
      } else {
        assert w.buffers == next;
      }
      i := i + 1;
    }
    assert bs[..i] == bs;
    RetainedDistinct(bs, busy, w.width, w.height);
  }

  /** The search loop of draw_window, when `busy` are the buffers the
      compositor holds. */
  method FindFit(w: PanelWindow, ghost busy: set<Buffer>) returns (found: Option<nat>)
    requires forall k :: 0 <= k < |w.buffers| ==> (w.buffers[k] in busy <==> w.buffers[k].busy)
    ensures found == FirstFit(w.buffers, busy, w.width, w.height)
  {
    var i := 0;
    while i < |w.buffers| && (w.buffers[i].busy || !Fits(w.buffers[i], w.width, w.height))
      invariant 0 <= i <= |w.buffers|
      invariant forall k :: 0 <= k < i ==> w.buffers[k] in busy || !Fits(w.buffers[k], w.width, w.height)
    {
      i := i + 1;
    }
    if i < |w.buffers| {
      found := Some(i);
    } else {
      found := None;
    }
  }

  /** The buffer draw_window draws into: the first idle one of the
      window's size, or a new XRGB8888 buffer linked at the head of the
      pool. */
  method AcquireBuffer(w: PanelWindow, ghost busy: set<Buffer>) returns (buffer: Buffer)
    requires Distinct(w.buffers)
    requires forall k :: 0 <= k < |w.buffers| ==> (w.buffers[k] in busy <==> w.buffers[k].busy)
    modifies w`buffers
    ensures match FirstFit(old(w.buffers), busy, w.width, w.height)
      case Some(k) => w.buffers == old(w.buffers) && buffer == old(w.buffers)[k]
      case None => w.buffers == [buffer] + old(w.buffers) && fresh(buffer) && !buffer.busy
    ensures Fits(buffer, w.width, w.height) && Distinct(w.buffers)
  {
    var found := FindFit(w, busy);
    if found.Some? {
      buffer := w.buffers[found.value];
    } else {
      var created := Buffers.Create(w.width, w.height, Windows.Stride(w.width), WL_SHM_FORMAT_XRGB8888, Buffers.Mapped);
      buffer := created.value;
      DistinctCons(buffer, w.buffers);
      w.buffers := [buffer] + w.buffers;
    }
  }

  /** The buffer part of draw_window, once drawing is possible: prune the
      pool, then reuse or create the buffer to draw into. */
  method PrepareBuffer(w: PanelWindow) returns (buffer: Buffer)
    requires Distinct(w.buffers)
    modifies w`buffers
    ensures var busy := old(Windows.Busy(w.buffers));
      var kept := Retained(old(w.buffers), busy, w.width, w.height);
      && (match FirstFit(kept, busy, w.width, w.height)
          case Some(k) => w.buffers == kept && buffer == kept[k]
          case None => w.buffers == [buffer] + kept && fresh(buffer) && !buffer.busy)
      && (forall k :: 0 <= k < |kept| ==> kept[k] in old(w.buffers))
    ensures Fits(buffer, w.width, w.height) && Distinct(w.buffers)
  {
    ghost var busy := Windows.Busy(w.buffers);
    ghost var bs := w.buffers;
    PruneBuffers(w);
    ghost var kept := w.buffers;
    forall k | 0 <= k < |kept| ensures kept[k] in bs && (kept[k] in busy <==> kept[k].busy) {
      RetainedMembers(bs, busy, w.width, w.height, kept[k]);
      Windows.BusyMembers(bs, kept[k]);
    }
    buffer := AcquireBuffer(w, busy);
  }

  /** The drawing part of draw_window, with no frame callback pending:
      the pool is pruned, a buffer is reused or created, the toplevels are
      laid out across the window, and the buffer is attached (and so busy)
      with a frame callback requested. The result is the attached
      buffer. */
  method Render(p: Panel, w: PanelWindow) returns (buffer: Buffer)
    requires Distinct(w.buffers) && Distinct(p.toplevels)
    modifies w`buffers, w`frame, w.buffers`busy, p.toplevels`rect
    ensures w.frame && Distinct(w.buffers)
    ensures var busy := old(Windows.Busy(w.buffers));
      var kept := Retained(old(w.buffers), busy, w.width, w.height);
      && buffer.busy && Fits(buffer, w.width, w.height)
      && (match FirstFit(kept, busy, w.width, w.height)
          case Some(k) => w.buffers == kept && buffer == kept[k]
          case None => w.buffers == [buffer] + kept && fresh(buffer))
      && (forall b :: b in old(w.buffers) && b != buffer ==> b.busy == old(b.busy))
    ensures forall k :: 0 <= k < |p.toplevels| ==>
      p.toplevels[k].rect == Slot(old(DonesOf(p.toplevels)), old(RectsOf(p.toplevels)), ItemWidth(w.width, CountDone(old(DonesOf(p.toplevels)))), w.height, k)
  {
    ghost var dones := DonesOf(p.toplevels);
    ghost var rects := RectsOf(p.toplevels);
    buffer := PrepareBuffer(w);
    ghost var pool := w.buffers;
    assert forall b :: b in old(w.buffers) && b != buffer ==> b.busy == old(b.busy);
    assert DonesOf(p.toplevels) == dones && RectsOf(p.toplevels) == rects;
    LayoutToplevels(p, w.width, w.height);
    ghost var laid := RectsOf(p.toplevels);
    assert w.buffers == pool && forall b :: b in old(w.buffers) && b != buffer ==> b.busy == old(b.busy);
    buffer.busy := true;
    w.frame := true;
    assert RectsOf(p.toplevels) == laid;
  }

  /** draw_window: while a frame callback is pending only a redraw is
      flagged and nothing else changes; otherwise the redraw is no longer
      due and the window is rendered. The result is the attached buffer, if
      any. */
  method Draw(p: Panel, w: PanelWindow) returns (drawn: Option<Buffer>)
    requires Distinct(w.buffers) && Distinct(p.toplevels)
    modifies w`needsDraw, w`buffers, w`frame, w.buffers`busy, p.toplevels`rect
    ensures w.frame && Distinct(w.buffers)
    ensures old(w.frame) ==>
      && w.needsDraw && drawn.None? && w.buffers == old(w.buffers)
      && (forall b :: b in w.buffers ==> b.busy == old(b.busy))
      && (forall k :: 0 <= k < |p.toplevels| ==> p.toplevels[k].rect == old(p.toplevels[k].rect))
    ensures !old(w.frame) ==>
      var busy := old(Windows.Busy(w.buffers));
      var kept := Retained(old(w.buffers), busy, w.width, w.height);
      && !w.needsDraw && drawn.Some? && drawn.value.busy && Fits(drawn.value, w.width, w.height)
      && (match FirstFit(kept, busy, w.width, w.height)
          case Some(k) => w.buffers == kept && drawn.value == kept[k]
          case None => w.buffers == [drawn.value] + kept && fresh(drawn.value))
      && (forall b :: b in old(w.buffers) && b != drawn.value ==> b.busy == old(b.busy))
    ensures !old(w.frame) ==>
      forall k :: 0 <= k < |p.toplevels| ==>
        p.toplevels[k].rect == Slot(old(DonesOf(p.toplevels)), old(RectsOf(p.toplevels)), ItemWidth(w.width, CountDone(old(DonesOf(p.toplevels)))), w.height, k)
  {
    if w.frame {
      w.needsDraw := true;
      return None;
    }
    w.needsDraw := false;
    var buffer := Render(p, w);
    drawn := Some(buffer);
  }

  /** The buffers of every window of `ws`. */
  ghost function Pool(ws: seq<PanelWindow>): set<Buffer>
    reads ws
  {
    set w, b | w in ws && b in w.buffers :: b
  }

  /** draw_all_windows: every window is drawn; afterwards each has a frame
      callback pending, and a redraw is due exactly for those that already
      had one pending. */
  method DrawAll(p: Panel)
    requires Valid(p)
    modifies p.windows`needsDraw, p.windows`buffers, p.windows`frame, Pool(p.windows)`busy, p.toplevels`rect
    ensures Valid(p)
    ensures forall w :: w in old(p.windows) ==> w.frame && (w.needsDraw <==> old(w.frame))
  {
    var ws := p.windows;
    var i := 0;
    while i < |ws|
      invariant 0 <= i <= |ws|
      invariant forall k :: 0 <= k < i ==> ws[k].frame && (ws[k].needsDraw <==> old(ws[k].frame)) && Distinct(ws[k].buffers)
      invariant forall k :: i <= k < |ws| ==> ws[k].buffers == old(ws[k].buffers) && ws[k].frame == old(ws[k].frame)
    {
      assert ws[i] in old(p.windows) && ws[i].buffers == old(ws[i].buffers);
      assert forall b :: b in ws[i].buffers ==> b in old(Pool(p.windows));
      DrawAt(p, ws, i, ws[i]);
      i := i + 1;
    }
  }

  /** One turn of the loop of draw_all_windows, on the i-th window of `ws`:
      it is drawn, and the other windows keep their pools and frame flags. */
  method DrawAt(p: Panel, ws: seq<PanelWindow>, i: nat, w: PanelWindow)
    requires i < |ws| && ws[i] == w && Distinct(ws)
    requires Distinct(w.buffers) && Distinct(p.toplevels)
    modifies w`needsDraw, w`buffers, w`frame, w.buffers`busy, p.toplevels`rect
    ensures w.frame && (w.needsDraw <==> old(w.frame)) && Distinct(w.buffers)
    ensures forall k :: 0 <= k < |ws| && k != i ==>
      ws[k].buffers == old(ws[k].buffers) && ws[k].frame == old(ws[k].frame)
  {
    var drawn := Draw(p, w);
  }

  /** toplevel_handle_done: the toplevel is finished and every window is
      redrawn. */
  method HandleDone(p: Panel, t: TaskToplevel)
    requires Valid(p)
    modifies t`done, p.windows`needsDraw, p.windows`buffers, p.windows`frame, Pool(p.windows)`busy, p.toplevels`rect
    ensures t.done && Valid(p)
    ensures forall w :: w in old(p.windows) ==> w.frame && (w.needsDraw <==> old(w.frame))
  {
    t.done := true;
    DrawAll(p);
  }

  /** toplevel_handle_closed: the toplevel is unlinked and every window is
      redrawn. */
  method HandleClosed(p: Panel, t: TaskToplevel)
    requires Valid(p)
    modifies p`toplevels, p.windows`needsDraw, p.windows`buffers, p.windows`frame, Pool(p.windows)`busy, p.toplevels`rect
    ensures p.toplevels == Without(old(p.toplevels), t) && t !in p.toplevels && Valid(p)
    ensures forall w :: w in old(p.windows) ==> w.frame && (w.needsDraw <==> old(w.frame))
  {
    ghost var before := p.toplevels;
    WithoutMembers(p.toplevels, t, t);
    WithoutDistinct(p.toplevels, t);
    p.toplevels := Without(p.toplevels, t);
    forall x | x in p.toplevels ensures x in before {
      WithoutMembers(before, t, x);
    }
    assert forall k :: 0 <= k < |p.toplevels| ==> p.toplevels[k] in before;
    DrawAll(p);
  }

  /** xdg_surface_configure: after the acknowledgement a due redraw is
      attempted. With no redraw due, or a frame still pending, the pool,
      its busy flags and the slot rectangles stay as they were; otherwise
      the window is redrawn as Draw does it. */
  method SurfaceConfigure(p: Panel, w: PanelWindow)
    requires Distinct(w.buffers) && Distinct(p.toplevels)
    modifies w`needsDraw, w`buffers, w`frame, w.buffers`busy, p.toplevels`rect
    ensures Distinct(w.buffers)
    ensures !old(w.needsDraw) ==> w.frame == old(w.frame) && !w.needsDraw
    ensures old(w.needsDraw) ==> w.frame && (w.needsDraw <==> old(w.frame))
    ensures !old(w.needsDraw) || old(w.frame) ==>
      && w.buffers == old(w.buffers) && (forall b :: b in w.buffers ==> b.busy == old(b.busy))
      && (forall k :: 0 <= k < |p.toplevels| ==> p.toplevels[k].rect == old(p.toplevels[k].rect))
    ensures old(w.needsDraw) && !old(w.frame) ==>
      var busy := old(Windows.Busy(w.buffers));
      var kept := Retained(old(w.buffers), busy, w.width, w.height);
      && w.frame && !w.needsDraw
      && (match FirstFit(kept, busy, w.width, w.height)
          case Some(k) => w.buffers == kept && kept[k].busy
          case None => |w.buffers| == |kept| + 1 && w.buffers[1..] == kept && fresh(w.buffers[0]) && w.buffers[0].busy)
      && (forall k :: 0 <= k < |p.toplevels| ==>
            p.toplevels[k].rect == Slot(old(DonesOf(p.toplevels)), old(RectsOf(p.toplevels)),
                                        ItemWidth(w.width, CountDone(old(DonesOf(p.toplevels)))), w.height, k))
  {
    if w.needsDraw {
      var drawn := Draw(p, w);
    }
  }

  /** window_frame_done: the frame callback is gone, and a redraw flagged
      meanwhile is done now, as Draw does it; with none flagged the pool,
      its busy flags and the slot rectangles stay as they were. */
  method FrameDone(p: Panel, w: PanelWindow)
    requires Distinct(w.buffers) && Distinct(p.toplevels)
    modifies w`needsDraw, w`buffers, w`frame, w.buffers`busy, p.toplevels`rect
    ensures Distinct(w.buffers) && !w.needsDraw
    ensures w.frame <==> old(w.needsDraw)
    ensures !old(w.needsDraw) ==>
      && w.buffers == old(w.buffers) && (forall b :: b in w.buffers ==> b.busy == old(b.busy))
      && (forall k :: 0 <= k < |p.toplevels| ==> p.toplevels[k].rect == old(p.toplevels[k].rect))
    ensures old(w.needsDraw) ==>
      var busy := old(Windows.Busy(w.buffers));
      var kept := Retained(old(w.buffers), busy, w.width, w.height);
      && w.frame && !w.needsDraw
      && (match FirstFit(kept, busy, w.width, w.height)
          case Some(k) => w.buffers == kept && kept[k].busy
          case None => |w.buffers| == |kept| + 1 && w.buffers[1..] == kept && fresh(w.buffers[0]) && w.buffers[0].busy)
      && (forall k :: 0 <= k < |p.toplevels| ==>
            p.toplevels[k].rect == Slot(old(DonesOf(p.toplevels)), old(RectsOf(p.toplevels)),
                                        ItemWidth(w.width, CountDone(old(DonesOf(p.toplevels)))), w.height, k))
  {
    w.frame := false;
    if w.needsDraw {
      assert DonesOf(p.toplevels) == old(DonesOf(p.toplevels)) && RectsOf(p.toplevels) == old(RectsOf(p.toplevels));
      var drawn := Draw(p, w);
    }
  }

  // ---------------------------------------------------------------------
  // Pointer

  /** pointer_enter: the seat tracks the window, the pointer position is
      recorded and the window is redrawn. */
  method PointerEnter(p: Panel, seat: PanelSeat, w: PanelWindow, x: real, y: real)
    requires Distinct(w.buffers) && Distinct(p.toplevels)
    modifies seat`window, w`cursorX, w`cursorY, w`needsDraw, w`buffers, w`frame, w.buffers`busy, p.toplevels`rect
    ensures seat.window == Some(w) && w.cursorX == x && w.cursorY == y
    ensures w.frame && (w.needsDraw <==> old(w.frame)) && Distinct(w.buffers)
  {
    seat.window := Some(w);
    w.cursorX := x;
    w.cursorY := y;
    var drawn := Draw(p, w);
  }

  /** pointer_leave: the pointer position becomes (-1, -1), the window is
      redrawn and the seat tracks no window. */
  method PointerLeave(p: Panel, seat: PanelSeat, w: PanelWindow)
    requires Distinct(w.buffers) && Distinct(p.toplevels)
    modifies seat`window, w`cursorX, w`cursorY, w`needsDraw, w`buffers, w`frame, w.buffers`busy, p.toplevels`rect
    ensures seat.window.None? && w.cursorX == -1.0 && w.cursorY == -1.0
    ensures w.frame && (w.needsDraw <==> old(w.frame)) && Distinct(w.buffers)
  {
    w.cursorX := -1.0;
    w.cursorY := -1.0;
    var drawn := Draw(p, w);
    seat.window := None;
  }

  /** The window the seat's pointer is over, as a set of at most one. */
  function Tracked(seat: PanelSeat): (r: set<PanelWindow>)
    reads seat
    ensures |r| <= 1
    ensures seat.window.Some? ==> seat.window.value in r
  {
    if seat.window.Some? then {seat.window.value} else {}
  }

  /** The buffers of the window the seat's pointer is over. */
  function TrackedBuffers(seat: PanelSeat): (r: seq<Buffer>)
    reads seat, Tracked(seat)
    ensures seat.window.None? ==> r == []
    ensures seat.window.Some? ==> r == seat.window.value.buffers
  {
    if seat.window.Some? then seat.window.value.buffers else []
  }

  /** pointer_motion: ignored when the seat tracks no window; otherwise the
      pointer position moves and the window is redrawn. */
  method PointerMotion(p: Panel, seat: PanelSeat, x: real, y: real)
    requires seat.window.Some? ==> Distinct(seat.window.value.buffers)
    requires Distinct(p.toplevels)
    modifies Tracked(seat)`cursorX, Tracked(seat)`cursorY, Tracked(seat)`needsDraw, Tracked(seat)`buffers,
      Tracked(seat)`frame, TrackedBuffers(seat)`busy, p.toplevels`rect
    ensures seat.window == old(seat.window)
    ensures seat.window.None? ==> forall k :: 0 <= k < |p.toplevels| ==> p.toplevels[k].rect == old(p.toplevels[k].rect)
    ensures seat.window.Some? ==>
      var w := seat.window.value;
      w.cursorX == x && w.cursorY == y && w.frame && (w.needsDraw <==> old(w.frame)) && Distinct(w.buffers)
  {
    if seat.window.None? {
      return;
    }
    var w := seat.window.value;
    w.cursorX := x;
    w.cursorY := y;
    var drawn := Draw(p, w);
  }

  /** pointer_button: only a release of the left button over a tracked
      window acts, and it activates the first toplevel, in list order,
      whose slot holds the pointer. The result is the toplevel activated. */
  method PointerButton(p: Panel, seat: PanelSeat, button: nat, state: nat) returns (activate: Option<TaskToplevel>)
    ensures seat.window.None? || button != BTN_LEFT || state != WL_POINTER_BUTTON_STATE_RELEASED ==> activate.None?
    ensures seat.window.Some? && button == BTN_LEFT && state == WL_POINTER_BUTTON_STATE_RELEASED ==>
      var w := seat.window.value;
      match FirstHit(RectsOf(p.toplevels), w.cursorX, w.cursorY)
      case None => activate.None?
      case Some(k) => activate == Some(p.toplevels[k])
  {
    if seat.window.None? {
      return None;
    }
    var w := seat.window.value;
    if button != BTN_LEFT || state != WL_POINTER_BUTTON_STATE_RELEASED {
      return None;
    }
    ghost var rects := RectsOf(p.toplevels);
    var i := 0;
    while i < |p.toplevels| && !Hit(p.toplevels[i].rect, w.cursorX, w.cursorY)
      invariant 0 <= i <= |p.toplevels|
      invariant forall k :: 0 <= k < i ==> !Hit(rects[k], w.cursorX, w.cursorY)
    {
      i := i + 1;
    }
    if i < |p.toplevels| {
      activate := Some(p.toplevels[i]);
    } else {
      activate := None;
    }
  }

  /** seat_capabilities: a seat announcing a pointer gets one and tracks no
      window yet; without the pointer bit nothing changes. */
  method SeatCapabilities(seat: PanelSeat, capabilities: bv32)
    modifies seat`hasPointer, seat`window
    ensures capabilities & Seats.WL_SEAT_CAPABILITY_POINTER != 0 ==> seat.hasPointer && seat.window.None?
    ensures capabilities & Seats.WL_SEAT_CAPABILITY_POINTER == 0 ==>
      seat.hasPointer == old(seat.hasPointer) && seat.window == old(seat.window)
  {
    if capabilities & Seats.WL_SEAT_CAPABILITY_POINTER != 0 {
      seat.hasPointer := true;
      seat.window := None;
    }
  }
}

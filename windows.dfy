/** Windows of the client library (src/libwlmatchapp/window.c): their
    shm buffer pool, the draw cycle driven by frame callbacks, and the
    bookkeeping for size, configuration, commits and outputs. */
module Windows {
  import opened Common
  import opened WlmTypes
  import Buffers

  /** (INT32_MAX - 7) / 32: the first width for which cairo refuses to
      compute a 32-bit-per-pixel stride. */
  const CAIRO_STRIDE_LIMIT: nat := 67108863

  /** cairo_format_stride_for_width(CAIRO_FORMAT_RGB24, width) stored in a
      uint32_t: four bytes per pixel, or the error value -1 wrapped to
      0xffffffff for widths cairo refuses. */
  function Stride(width: nat): (stride: nat)
    ensures width < CAIRO_STRIDE_LIMIT ==> stride == 4 * width
    ensures width >= CAIRO_STRIDE_LIMIT ==> stride == U32_MODULUS - 1
  {
    ToU32(if width < CAIRO_STRIDE_LIMIT then 4 * width else -1)
  }

  /** buffer_match against the XRGB8888 format and stride of a window of
      the given size. */
  predicate Matches(b: Buffer, width: nat, height: nat) {
    && b.format == WL_SHM_FORMAT_XRGB8888 && b.width == width
    && b.height == height && b.stride == Stride(width)
  }

  /** The guard of wlm_window_draw: no frame callback pending, configured
      at least once, a draw callback set, and a non-empty size. */
  predicate CanDraw(w: Window)
    reads w
  {
    !w.frame && w.configured && w.hasOnDraw && w.width != 0 && w.height != 0
  }

  /** The buffers of `bs` the compositor still holds (the busy ones). */
  function Busy(bs: seq<Buffer>): set<Buffer>
    reads bs
    decreases |bs|
  {
    if bs == [] then {}
    else
      var n := |bs| - 1;
      Busy(bs[..n]) + (if bs[n].busy then {bs[n]} else {})
  }

  lemma {:induction false} BusyMembers(bs: seq<Buffer>, b: Buffer)
    ensures b in Busy(bs) <==> b in bs && b.busy
    decreases |bs|
  {
    if bs != [] {
      var n := |bs| - 1;
      assert bs == bs[..n] + [bs[n]];
      BusyMembers(bs[..n], b);
    }
  }

  /** The busy buffers of `bs` stay the same while none of them changes. */
  twostate lemma {:induction false} BusyFramed(bs: seq<Buffer>)
    requires forall b :: b in bs ==> b.busy == old(b.busy)
    ensures Busy(bs) == old(Busy(bs))
    decreases |bs|
  {
    if bs != [] {
      var n := |bs| - 1;
      assert forall b :: b in bs[..n] ==> b in bs;
      BusyFramed(bs[..n]);
      assert bs[n] in bs;
      assert bs[n].busy == old(bs[n].busy);
    }
  }

  /** The buffers the pruning pass of wlm_window_draw keeps out of `bs`,
      in list order, when `busy` are those the compositor holds: the busy
      ones and those of the right size. */
  function Kept(bs: seq<Buffer>, busy: set<Buffer>, width: nat, height: nat): (r: seq<Buffer>)
    ensures |r| <= |bs|
    decreases |bs|
  {
    if bs == [] then []
    else
      var n := |bs| - 1;
      Kept(bs[..n], busy, width, height) + (if bs[n] in busy || Matches(bs[n], width, height) then [bs[n]] else [])
  }

  /** A buffer survives the pruning exactly when it was in the list and is
      busy or of the right size. */
  lemma {:induction false} KeptMembers(bs: seq<Buffer>, busy: set<Buffer>, width: nat, height: nat, b: Buffer)
    ensures b in Kept(bs, busy, width, height) <==> b in bs && (b in busy || Matches(b, width, height))
    decreases |bs|
  {
    if bs != [] {
      var n := |bs| - 1;
      assert bs == bs[..n] + [bs[n]];
      KeptMembers(bs[..n], busy, width, height, b);
    }
  }

  /** Pruning a duplicate-free list keeps it duplicate-free. */
  lemma {:induction false} KeptDistinct(bs: seq<Buffer>, busy: set<Buffer>, width: nat, height: nat)
    requires Distinct(bs)
    ensures Distinct(Kept(bs, busy, width, height))
    decreases |bs|
  {
    if bs != [] {
      var n := |bs| - 1;
      assert bs == bs[..n] + [bs[n]];
      assert Distinct(bs[..n]);
      KeptDistinct(bs[..n], busy, width, height);
      var r := Kept(bs[..n], busy, width, height);
      if bs[n] in busy || Matches(bs[n], width, height) {
        assert bs[n] !in bs[..n];
        KeptMembers(bs[..n], busy, width, height, bs[n]);
        forall a, c | 0 <= a < c < |r + [bs[n]]| ensures (r + [bs[n]])[a] != (r + [bs[n]])[c] {
          assert (r + [bs[n]])[a] == r[a];
          if c < |r| {
            assert (r + [bs[n]])[c] == r[c];
          }
        }
      }
    }
  }

  /** One step of the pruning pass: with the first i buffers pruned,
      freeing (unlinking) buffer i when it is idle and of the wrong size,
      and keeping it otherwise, gives the first i + 1 buffers pruned. */
  lemma PruneStep(bs: seq<Buffer>, busy: set<Buffer>, i: nat, width: nat, height: nat)
    requires Distinct(bs) && i < |bs|
    ensures var b := bs[i]; var cur := Kept(bs[..i], busy, width, height) + bs[i..];
      if b !in busy && !Matches(b, width, height) then Without(cur, b) == Kept(bs[..i + 1], busy, width, height) + bs[i + 1..]
      else cur == Kept(bs[..i + 1], busy, width, height) + bs[i + 1..]
  {
    var b := bs[i];
    assert bs[..i + 1] == bs[..i] + [b];
    assert bs[..i + 1][..i] == bs[..i];
    assert bs[i..] == [b] + bs[i + 1..];
    if b !in busy && !Matches(b, width, height) {
      assert b !in bs[..i];
      assert b !in bs[i + 1..];
      KeptMembers(bs[..i], busy, width, height, b);
      var k := Kept(bs[..i], busy, width, height);
      WithoutMiddle(k, b, bs[i + 1..]);
      assert k + bs[i..] == k + [b] + bs[i + 1..];
      assert Kept(bs[..i + 1], busy, width, height) == k;
    }
  }

  /** The index of the first buffer wlm_window_draw may draw into again:
      idle and of the right size. */
  function FirstReusable(bs: seq<Buffer>, busy: set<Buffer>, width: nat, height: nat): (r: Option<nat>)
    ensures r.Some? ==> r.value < |bs| && bs[r.value] !in busy && Matches(bs[r.value], width, height)
    ensures r.Some? ==> forall k :: 0 <= k < r.value ==> bs[k] in busy || !Matches(bs[k], width, height)
    ensures r.None? <==> forall k :: 0 <= k < |bs| ==> bs[k] in busy || !Matches(bs[k], width, height)
    decreases |bs|
  {
    if bs == [] then None
    else if bs[0] !in busy && Matches(bs[0], width, height) then Some(0)
    else
      match FirstReusable(bs[1..], busy, width, height)
      case None =>
        assert forall k :: 1 <= k < |bs| ==> bs[k] == bs[1..][k - 1];
        None
      case Some(k) =>
        assert forall j :: 1 <= j <= k ==> bs[j] == bs[1..][j - 1];
        Some(k + 1)
  }

  /** The pruning pass of wlm_window_draw: every idle buffer whose size
      differs from the window's is freed, the others stay in order. */
  method Prune(w: Window)
    requires Distinct(w.buffers)
    modifies w`buffers
    ensures w.buffers == Kept(old(w.buffers), old(Busy(w.buffers)), w.width, w.height)
    ensures Distinct(w.buffers)
  {
    var bs := w.buffers;
    ghost var busy := Busy(bs);
    var i := 0;
    while i < |bs|
      invariant 0 <= i <= |bs|
      invariant w.buffers == Kept(bs[..i], busy, w.width, w.height) + bs[i..]
    {
      var b := bs[i];
      PruneStep(bs, busy, i, w.width, w.height);
      ghost var next := Kept(bs[..i + 1], busy, w.width, w.height) + bs[i + 1..];
      BusyMembers(bs, b);
      if !b.busy && !Matches(b, w.width, w.height) {
        Buffers.Free(w, b);
        assert w.buffers == next;
      } else {
        assert w.buffers == next;
      }
      i := i + 1;
    }
    assert bs[..i] == bs;
    KeptDistinct(bs, busy, w.width, w.height);
  }

  /** The search of wlm_window_draw for a buffer to draw into again, when
      `busy` are the buffers the compositor holds. */
  method FindReusable(w: Window, ghost busy: set<Buffer>) returns (found: Option<nat>)
    requires forall k :: 0 <= k < |w.buffers| ==> (w.buffers[k] in busy <==> w.buffers[k].busy)
    ensures found == FirstReusable(w.buffers, busy, w.width, w.height)
  {
    var i := 0;
    while i < |w.buffers| && (w.buffers[i].busy || !Matches(w.buffers[i], w.width, w.height))
      invariant 0 <= i <= |w.buffers|
      invariant forall k :: 0 <= k < i ==> w.buffers[k] in busy || !Matches(w.buffers[k], w.width, w.height)
    {
      i := i + 1;
    }
    if i < |w.buffers| {
      found := Some(i);
    } else {
      found := None;
    }
  }

  /** The buffer wlm_window_draw draws into: the first reusable one, or a
      new buffer of the window's size linked at the head of the pool. */
  method Acquire(w: Window, ghost busy: set<Buffer>) returns (buffer: Buffer)
    requires Distinct(w.buffers)
    requires forall k :: 0 <= k < |w.buffers| ==> (w.buffers[k] in busy <==> w.buffers[k].busy)
    modifies w`buffers
    ensures match FirstReusable(old(w.buffers), busy, w.width, w.height)
      case Some(k) => w.buffers == old(w.buffers) && buffer == old(w.buffers)[k]
      case None => w.buffers == [buffer] + old(w.buffers) && fresh(buffer)
    ensures Matches(buffer, w.width, w.height) && Distinct(w.buffers)
  {
    var found := FindReusable(w, busy);
    if found.Some? {
      buffer := w.buffers[found.value];
    } else {
      var created := Buffers.Create(w.width, w.height, Stride(w.width), WL_SHM_FORMAT_XRGB8888, Buffers.Mapped);
      buffer := created.value;
      DistinctCons(buffer, w.buffers);
      w.buffers := [buffer] + w.buffers;
    }
  }

  /** What a done redraw leaves a window in, given the pool `bs` and the
      busy buffers `busy` it had before: no redraw flagged and a frame
      callback pending; the pool pruned to Kept, with the first reusable
      buffer attached or a new buffer (not of the old pool) linked at the
      head and attached; that buffer of the window's size and busy, and
      every other buffer busy exactly when it was. */
  predicate Redrawn(w: Window, bs: seq<Buffer>, busy: set<Buffer>)
    reads w, w.buffers
  {
    var kept := Kept(bs, busy, w.width, w.height);
    && !w.needsDraw && w.frame && w.attached.Some?
    && Matches(w.attached.value, w.width, w.height)
    && (match FirstReusable(kept, busy, w.width, w.height)
        case Some(k) => w.buffers == kept && w.attached.value == kept[k]
        case None => w.buffers == [w.attached.value] + kept && w.attached.value !in bs)
    && forall b :: b in w.buffers ==> (b.busy <==> b in busy || b == w.attached.value)
  }

  /** wlm_window_draw. A window that cannot be drawn only has a redraw
      flagged. Otherwise the window is left as Redrawn says: the idle
      buffers of the wrong size are freed, the first idle buffer of the
      right size is reused or a new one is linked at the head, and that
      buffer is attached and marked busy; a frame callback is requested
      and a commit is due, and no other buffer, freed or kept, changes its
      busy flag. Either way a redraw is never lost: it is done or still
      flagged. */
  method Draw(w: Window)
    requires Distinct(w.buffers)
    modifies w`needsDraw, w`buffers, w`attached, w`frame, w`needsCommit, w.buffers`busy
    ensures w.needsDraw || w.frame
    ensures !old(CanDraw(w)) ==>
      && w.needsDraw && w.buffers == old(w.buffers) && w.attached == old(w.attached)
      && w.frame == old(w.frame) && w.needsCommit == old(w.needsCommit)
      && forall b :: b in w.buffers ==> b.busy == old(b.busy)
    ensures old(CanDraw(w)) ==>
      && Redrawn(w, old(w.buffers), old(Busy(w.buffers))) && w.needsCommit
      && (w.attached.value !in old(w.buffers) ==> fresh(w.attached.value))
      && (forall b :: b in old(w.buffers) && b != w.attached.value ==> b.busy == old(b.busy))
      && (forall b :: b in w.buffers && !b.busy ==> Matches(b, w.width, w.height))
    ensures forall b :: b in w.buffers ==> b in old(w.buffers) || fresh(b)
    ensures Distinct(w.buffers)
  {
    if w.frame || !w.configured || !w.hasOnDraw || w.width == 0 || w.height == 0 {
      w.needsDraw := true;
      return;
    }
    ghost var busy := Busy(w.buffers);
    ghost var bs := w.buffers;
    forall b | b in busy ensures b in bs {
      BusyMembers(bs, b);
    }
    Prune(w);
    w.needsDraw := false;
    ghost var kept := w.buffers;
    assert kept == Kept(bs, busy, w.width, w.height);
    forall k | 0 <= k < |kept|
      ensures kept[k] in bs && (kept[k] in busy <==> kept[k].busy) && (kept[k].busy || Matches(kept[k], w.width, w.height))
    {
      KeptMembers(bs, busy, w.width, w.height, kept[k]);
      BusyMembers(bs, kept[k]);
    }
    Refill(w, busy);
  }

  /** The end of wlm_window_draw, on the pruned pool: the buffer Acquire
      picks is attached and marked busy, a frame callback is requested and
      a commit is due. */
  method Refill(w: Window, ghost busy: set<Buffer>)
    requires Distinct(w.buffers)
    requires forall k :: 0 <= k < |w.buffers| ==> (w.buffers[k] in busy <==> w.buffers[k].busy)
    modifies w`buffers, w`attached, w`frame, w`needsCommit, w.buffers`busy
    ensures w.attached.Some? && w.frame && w.needsCommit
    ensures match FirstReusable(old(w.buffers), busy, w.width, w.height)
      case Some(k) => w.buffers == old(w.buffers) && w.attached.value == old(w.buffers)[k]
      case None => w.buffers == [w.attached.value] + old(w.buffers) && fresh(w.attached.value)
    ensures Matches(w.attached.value, w.width, w.height) && Distinct(w.buffers)
    ensures forall b :: b in w.buffers ==> (b.busy <==> b in busy || b == w.attached.value)
    ensures forall b :: b in old(w.buffers) && b != w.attached.value ==> b.busy == old(b.busy)
  {
    var buffer := Acquire(w, busy);
    assert forall b :: b in w.buffers && b != buffer ==> (b.busy <==> b in busy);
    w.attached := Some(buffer);
    buffer.busy := true;
    w.frame := true;
    w.needsCommit := true;
  }

  /** wlm_window_schedule_redraw. */
  method ScheduleRedraw(w: Window)
    modifies w`needsDraw
    ensures w.needsDraw
  {
    w.needsDraw := true;
  }

  /** wlm_window_set_size: the window takes the new size, and a redraw is
      scheduled exactly when the size changed. */
  method SetSize(w: Window, width: nat, height: nat)
    modifies w`width, w`height, w`needsDraw
    ensures w.width == width && w.height == height
    ensures w.needsDraw == (old(w.needsDraw) || old(w.width) != width || old(w.height) != height)
  {
    if w.width != width || w.height != height {
      w.width := width;
      w.height := height;
      ScheduleRedraw(w);
    }
  }

  /** frame_done: the pending frame callback fired and is cleared. A
      redraw flagged in the meantime is done now when the window is
      configured, has a draw callback and a non-empty size (the callback
      being cleared, nothing else stops it), and then leaves the window as
      Redrawn says with a commit due; otherwise the redraw stays flagged
      and the pool, the attached buffer and the busy flags stay. */
  method FrameDone(w: Window)
    requires Distinct(w.buffers)
    modifies w`needsDraw, w`buffers, w`attached, w`frame, w`needsCommit, w.buffers`busy
    ensures !old(w.needsDraw) ==>
      && !w.frame && !w.needsDraw && w.buffers == old(w.buffers) && w.attached == old(w.attached)
      && w.needsCommit == old(w.needsCommit) && forall b :: b in w.buffers ==> b.busy == old(b.busy)
    ensures old(w.needsDraw) ==> (w.frame <==> !w.needsDraw)
    ensures old(w.needsDraw) ==>
      (w.frame <==> old(w.configured && w.hasOnDraw && w.width != 0 && w.height != 0))
    ensures old(w.needsDraw) && !w.frame ==>
      && w.needsDraw && w.buffers == old(w.buffers) && w.attached == old(w.attached)
      && w.needsCommit == old(w.needsCommit) && forall b :: b in w.buffers ==> b.busy == old(b.busy)
    ensures old(w.needsDraw) && w.frame ==>
      && Redrawn(w, old(w.buffers), old(Busy(w.buffers))) && w.needsCommit
      && (w.attached.value !in old(w.buffers) ==> fresh(w.attached.value))
    ensures old(w.needsDraw) && w.frame ==>
      w.needsCommit && w.attached.Some? && w.attached.value.busy && w.attached.value in w.buffers
    ensures Distinct(w.buffers)
  {
    w.frame := false;
    if w.needsDraw {
      Draw(w);
    }
  }

  /** surface_enter_output: the output the surface entered. */
  method EnterOutput(w: Window, output: OutputRef)
    modifies w`output
    ensures w.output == Some(output)
  {
    w.output := Some(output);
  }

  /** surface_leave_output: leaving any output forgets the window's output,
      whichever output was left. */
  method LeaveOutput(w: Window, output: OutputRef)
    modifies w`output
    ensures w.output.None?
  {
    w.output := None;
  }

  /** xdg_surface_configure: after the acknowledgement the window counts as
      configured and may be drawn. */
  method SurfaceConfigure(w: Window)
    modifies w`configured
    ensures w.configured
  {
    w.configured := true;
  }

  /** wlm_window_commit: the pending state is committed. */
  method Commit(w: Window)
    modifies w`needsCommit
    ensures !w.needsCommit
  {
    w.needsCommit := false;
  }

  /** wlm_window_init: the window is linked at the head of the display's
      window list with an empty buffer pool and a redraw flagged, to be
      drawn after the first configure. */
  method Init(d: Display, w: Window)
    requires Distinct(d.windows) && w !in d.windows
    modifies d`windows, w`buffers, w`needsDraw
    ensures d.windows == [w] + old(d.windows) && Distinct(d.windows)
    ensures w.buffers == [] && w.needsDraw
  {
    w.buffers := [];
    DistinctCons(w, d.windows);
    d.windows := [w] + d.windows;
    ScheduleRedraw(w);
  }

  /** wlm_window_deinit: every buffer of the pool is freed and the window
      is unlinked from the display's window list. */
  method Deinit(d: Display, w: Window)
    requires Distinct(d.windows)
    modifies d`windows, w`buffers
    ensures w.buffers == []
    ensures d.windows == Without(old(d.windows), w) && w !in d.windows && Distinct(d.windows)
  {
    var bs := w.buffers;
    var i := 0;
    while i < |bs|
      invariant 0 <= i <= |bs|
      invariant forall b :: b in w.buffers ==> b in bs[i..]
      invariant d.windows == old(d.windows)
    {
      var b := bs[i];
      forall x | x in Without(w.buffers, b) ensures x in bs[i + 1..] {
        WithoutMembers(w.buffers, b, x);
        assert x in bs[i..] && x != b;
        assert bs[i..] == [b] + bs[i + 1..];
      }
      Buffers.Free(w, b);
      i := i + 1;
    }
    HeadMember(w.buffers, bs[i..]);
    WithoutMembers(d.windows, w, w);
    WithoutDistinct(d.windows, w);
    d.windows := Without(d.windows, w);
  }
}

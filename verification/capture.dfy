/**
 * The capture side of `main.rs`: `handle_frame` reassembles the events of one
 * `zwlr_export_dmabuf_frame_v1` object (frame, object..., ready or cancel)
 * into a buffer descriptor and hands it to the renderer, and the event
 * loop's tick turns a pending retry into a new capture request.
 */
module Capture {
  import opened Common
  import opened State
  import opened Render

  // -------------------------------------------------------------- modifier

  /** The high half of a modifier, bits 32 to 63. */
  function ModifierHigh(m: bv64): (h: bv32)
    ensures h as bv64 == m >> 32
  {
    (m >> 32) as bv32
  }

  /** The low half of a modifier, bits 0 to 31. */
  function ModifierLow(m: bv64): (l: bv32)
    ensures l as bv64 == m & 0xFFFF_FFFF
  {
    (m & 0xFFFF_FFFF) as bv32
  }

  /** The 64-bit format modifier from the two 32-bit halves the protocol sends: they are its high and low halves. */
  function Modifier(high: bv32, low: bv32): (m: bv64)
    ensures ModifierHigh(m) == high
    ensures ModifierLow(m) == low
  {
    ((high as bv64) << 32) | (low as bv64)
  }

  /** Splitting a modifier into halves and joining them gives it back. */
  lemma ModifierOfHalves(m: bv64)
    ensures Modifier(ModifierHigh(m), ModifierLow(m)) == m
  {
  }

  // ---------------------------------------------------------------- events

  /** `CancelReason` of the protocol. */
  datatype CancelReason = Temporary | Permanent | Resizing

  /** The events of a frame object, with the fields `handle_frame` uses. */
  datatype Event =
    | Frame(width: u32, height: u32, bufferFlags: u32, format: u32, modHigh: bv32, modLow: bv32)
    | Object(fd: nat, index: u32, offset: u32, stride: u32)
    | Ready
    | Cancel(reason: CancelReason)
    | OtherEvent

  /** `DmabufFlags::from_bits_truncate`: only the Y-invert, interlaced and bottom-first bits are kept. */
  function DmabufFlags(bits: u32): (f: bv32)
    ensures f & !7 == 0
    ensures f == (bits as bv32) & 7
  {
    (bits as bv32) & 7
  }

  /** The frame under construction: the builder and the modifier of its planes. */
  type Pending = Option<(DmabufBuilder, bv64)>

  /** What one event does to the frame under construction. */
  datatype Reaction =
    | Assembling(pending: Pending)  // carry on with this frame under construction
    | Handoff(buf: Dmabuf)          // render this finished buffer; nothing is under construction
    | RetryLater                    // ask for a new capture on the next tick
    | Abort(reason: PanicReason)

  /** The builder a frame event starts, sizes cast to `i32`. */
  function NewBuilder(width: u32, height: u32, format: u32, bufferFlags: u32): DmabufBuilder
  {
    DmabufBuilder(AsI32(width), AsI32(height), format, DmabufFlags(bufferFlags), [])
  }

  /** The reaction of `handle_frame` to one event. */
  function OnEvent(pending: Pending, e: Event): (r: Reaction)
    ensures e.Frame? ==> r.Assembling? && r.pending.Some?
    ensures e.Frame? ==> r.pending.value.1 == Modifier(e.modHigh, e.modLow) && r.pending.value.0.planes == []
    ensures e.Object? ==> (r.Abort? <==> pending.None?)
    ensures e.Object? && pending.Some? ==>
      && r.Assembling? && r.pending.Some?
      && r.pending.value.1 == pending.value.1
      && r.pending.value.0 == pending.value.0.(planes := r.pending.value.0.planes)
      && r.pending.value.0.planes ==
         pending.value.0.planes + [Plane(e.fd, e.index, e.offset, e.stride, pending.value.1)]
    ensures e.Ready? ==> (r.Abort? <==> pending.None?)
    ensures e.Ready? && pending.Some? ==> r == Handoff(Build(pending.value.0))
    ensures e.Cancel? ==> (r.Abort? <==> e.reason == Permanent)
    ensures e.Cancel? && e.reason != Permanent ==> r == RetryLater
  {
    match e
    case Frame(width, height, bufferFlags, format, modHigh, modLow) =>
      Assembling(Some((NewBuilder(width, height, format, bufferFlags), Modifier(modHigh, modLow))))
    case Object(fd, index, offset, stride) =>
      if pending.None? then Abort(FrameMissing)
      else
        var (builder, modifier) := pending.value;
        Assembling(Some((builder.(planes := builder.planes + [Plane(fd, index, offset, stride, modifier)]), modifier)))
    case Ready =>
      if pending.None? then Abort(FrameMissing)
      else Handoff(Build(pending.value.0))
    case Cancel(reason) =>
      if reason == Permanent then Abort(OutputDied) else RetryLater
    case OtherEvent => Abort(UnknownEvent)
  }

  /** A frame event replaces whatever was under construction: a second frame is not rejected. */
  lemma FrameReplacesPending(p: Pending, q: Pending, e: Event)
    requires e.Frame?
    ensures OnEvent(p, e) == OnEvent(q, e)
  {
  }

  /** Feeding events while a frame is assembled, stopping at the first one that does not assemble. */
  function Feed(pending: Pending, events: seq<Event>): (r: Reaction)
    decreases |events|
  {
    if |events| == 0 then Assembling(pending)
    else
      match OnEvent(pending, events[0])
      case Assembling(p) => Feed(p, events[1..])
      case other => other
  }

  /** The plane object `e` adds under the modifier `modifier`. */
  function PlaneOf(e: Event, modifier: bv64): Plane
    requires e.Object?
  {
    Plane(e.fd, e.index, e.offset, e.stride, modifier)
  }

  /** Object events add their planes in the order they arrive, each with the frame's modifier. */
  lemma {:induction false} ObjectsAppendInOrder(b: DmabufBuilder, modifier: bv64, objects: seq<Event>)
    requires forall i :: 0 <= i < |objects| ==> objects[i].Object?
    ensures Feed(Some((b, modifier)), objects) ==
      Assembling(Some((b.(planes := b.planes + seq(|objects|, i requires 0 <= i < |objects| => PlaneOf(objects[i], modifier))), modifier)))
    decreases |objects|
  {
    if |objects| == 0 {
      assert b.planes + [] == b.planes;
    } else {
      var b1 := b.(planes := b.planes + [PlaneOf(objects[0], modifier)]);
      assert OnEvent(Some((b, modifier)), objects[0]) == Assembling(Some((b1, modifier)));
      ObjectsAppendInOrder(b1, modifier, objects[1..]);
      var tail := seq(|objects| - 1, i requires 0 <= i < |objects| - 1 => PlaneOf(objects[1..][i], modifier));
      var all := seq(|objects|, i requires 0 <= i < |objects| => PlaneOf(objects[i], modifier));
      assert all == [PlaneOf(objects[0], modifier)] + tail;
      assert b1.planes + tail == b.planes + all;
    }
  }

  /**
   * A complete exchange `frame, object..., ready` hands over one buffer with
   * the frame's size, format and flags, whose planes are the objects' planes
   * in arrival order, each carrying `(modHigh << 32) | modLow`. Whatever was
   * under construction before is dropped.
   */
  lemma {:induction false} CompleteExchange(before: Pending, frame: Event, objects: seq<Event>)
    requires frame.Frame?
    requires forall i :: 0 <= i < |objects| ==> objects[i].Object?
    ensures var m := Modifier(frame.modHigh, frame.modLow);
            Feed(before, [frame] + objects + [Ready]) ==
              Handoff(Dmabuf(AsI32(frame.width), AsI32(frame.height), frame.format,
                             DmabufFlags(frame.bufferFlags),
                             seq(|objects|, i requires 0 <= i < |objects| => PlaneOf(objects[i], m))))
  {
    var m := Modifier(frame.modHigh, frame.modLow);
    var b := NewBuilder(frame.width, frame.height, frame.format, frame.bufferFlags);
    var events := [frame] + objects + [Ready];
    assert events[0] == frame;
    assert events[1..] == objects + [Ready];
    FeedSplits(Some((b, m)), objects, [Ready]);
    ObjectsAppendInOrder(b, m, objects);
    assert b.planes == [];
  }

  /** Feeding `xs + ys` is feeding `xs`, then `ys` from where `xs` left the assembly. */
  lemma {:induction false} FeedSplits(p: Pending, xs: seq<Event>, ys: seq<Event>)
    ensures Feed(p, xs).Assembling? ==> Feed(p, xs + ys) == Feed(Feed(p, xs).pending, ys)
    ensures !Feed(p, xs).Assembling? ==> Feed(p, xs + ys) == Feed(p, xs)
    decreases |xs|
  {
    if |xs| == 0 {
      assert xs + ys == ys;
    } else {
      assert (xs + ys)[0] == xs[0];
      assert (xs + ys)[1..] == xs[1..] + ys;
      match OnEvent(p, xs[0])
      case Assembling(q) => FeedSplits(q, xs[1..], ys);
      case _ =>
    }
  }

  /** The worked example: a 1920x1080 frame, one plane, modifier halves (0, 1), gives modifier 1. */
  lemma SinglePlaneExample(fd: nat, format: u32)
    ensures Feed(None, [Frame(1920, 1080, 0, format, 0, 1), Object(fd, 0, 0, 7680), Ready]) ==
      Handoff(Dmabuf(1920, 1080, format, 0, [Plane(fd, 0, 0, 7680, 1)]))
  {
    CompleteExchange(None, Frame(1920, 1080, 0, format, 0, 1), [Object(fd, 0, 0, 7680)]);
    assert [Frame(1920, 1080, 0, format, 0, 1)] + [Object(fd, 0, 0, 7680)] + [Ready]
        == [Frame(1920, 1080, 0, format, 0, 1), Object(fd, 0, 0, 7680), Ready];
  }

  /**
   * The read-back buffer is sized once, from the source mode at start-up,
   * while each frame brings its own size. A state built for 1280x720 accepts
   * a 1920x1080 frame, and reading that frame back writes 8294400 bytes into
   * a 3686400-byte buffer: outside what `ReadbackAsWritten` allows. The grown
   * read-back of `Readback` holds the whole frame.
   */
  lemma StartupBufferOverrun(fd: nat, format: u32, frame: nat -> bv8)
    ensures var r := Feed(None, [Frame(1920, 1080, 0, format, 0, 0), Object(fd, 0, 0, 7680), Ready]);
            && r.Handoff?
            && PixelBytes(r.buf.width, r.buf.height) == 8294400
            && InitialBufferLength(1280, 720) == 3686400
            && PixelBytes(r.buf.width, r.buf.height) > InitialBufferLength(1280, 720)
    ensures |Readback(seq(InitialBufferLength(1280, 720), _ => 0), 8294400, frame)| == 8294400
  {
    CompleteExchange(None, Frame(1920, 1080, 0, format, 0, 0), [Object(fd, 0, 0, 7680)]);
    assert [Frame(1920, 1080, 0, format, 0, 0)] + [Object(fd, 0, 0, 7680)] + [Ready]
        == [Frame(1920, 1080, 0, format, 0, 0), Object(fd, 0, 0, 7680), Ready];
  }

  // ------------------------------------------------------ handle_frame

  /** `handle_frame` on the whole state. */
  function HandleFrameStep(s: Snapshot, e: Event, gpu: TargetGpu): (Snapshot, Flow)
  {
    match OnEvent(s.dmabuf, e)
    case Assembling(p) => (s.(dmabuf := p), Continue)
    case RetryLater => (s.(tryAgain := true), Continue)
    case Abort(reason) => (s, Panic(reason))
    case Handoff(buf) =>
      var (s1, outcome, _) := RenderStep(s.(dmabuf := None), buf, gpu);
      match outcome
      case Rendered => (s1, Continue)
      case Failed => (s1, Panic(RenderFailed))
      case Panicked(reason) => (s1, Panic(reason))
  }

  /** A permanent cancel stops the process, whatever was under construction. */
  lemma PermanentCancelIsFatal(s: Snapshot, gpu: TargetGpu)
    ensures HandleFrameStep(s, Cancel(Permanent), gpu).1 == Panic(OutputDied)
  {
  }

  /** Any other cancel only sets the retry flag: the frame under construction stays. */
  lemma OtherCancelRequestsRetry(s: Snapshot, reason: CancelReason, gpu: TargetGpu)
    requires reason != Permanent
    ensures HandleFrameStep(s, Cancel(reason), gpu) == (s.(tryAgain := true), Continue)
  {
  }

  /** A ready event leaves nothing under construction, and an error from rendering panics. */
  lemma ReadyHandsOff(s: Snapshot, gpu: TargetGpu)
    requires s.dmabuf.Some?
    ensures var (s1, flow) := HandleFrameStep(s, Ready, gpu);
            var out := RenderStep(s.(dmabuf := None), Build(s.dmabuf.value.0), gpu).1;
            && s1.dmabuf.None?
            && (flow == Continue <==> out == Rendered)
            && (out == Failed ==> flow == Panic(RenderFailed))
  {
    CopyStepFollowsSelect(s.(dmabuf := None), Build(s.dmabuf.value.0), gpu);
  }

  // --------------------------------------------------------------- tick

  /** The tick of the event loop: a set retry flag is cleared and one capture is requested. */
  function TickStep(s: Snapshot): (Snapshot, nat)
  {
    (s.(tryAgain := false), if s.tryAgain then 1 else 0)
  }

  /**
   * After a transient cancel the next tick requests exactly one capture and
   * clears the flag, and the tick after that requests none.
   */
  lemma CancelThenTick(s: Snapshot, gpu: TargetGpu)
    ensures var (s1, _) := HandleFrameStep(s, Cancel(Temporary), gpu);
            var (s2, first) := TickStep(s1);
            var (_, second) := TickStep(s2);
            first == 1 && !s2.tryAgain && second == 0 && s2.dmabuf == s.dmabuf
  {
  }

  // ------------------------------------------------- the imperative code

  /**
   * `handle_frame`: the render step's GPU answers are used only for a ready
   * event. The frame object's `destroy` is a protocol request and is not
   * modelled.
   */
  method HandleFrame(state: WaylandState, e: Event, gpu: TargetGpu) returns (flow: Flow)
    modifies state, state.buffer
    ensures (state.Snap(), flow) == HandleFrameStep(old(state.Snap()), e, gpu)
  {
    match e {
      case Frame(width, height, bufferFlags, format, modHigh, modLow) =>
        state.dmabuf := Some((NewBuilder(width, height, format, bufferFlags), Modifier(modHigh, modLow)));
        return Continue;
      case Object(fd, index, offset, stride) =>
        if state.dmabuf.None? {
          return Panic(FrameMissing);
        }
        var (builder, modifier) := state.dmabuf.value;
        state.dmabuf := Some((builder.(planes := builder.planes + [Plane(fd, index, offset, stride, modifier)]), modifier));
        return Continue;
      case Ready =>
        var taken := state.dmabuf;
        state.dmabuf := None;
        if taken.None? {
          return Panic(FrameMissing);
        }
        var outcome, _ := RenderDmabuf(state, Build(taken.value.0), gpu);
        match outcome {
          case Rendered => return Continue;
          case Failed => return Panic(RenderFailed);
          case Panicked(reason) => return Panic(reason);
        }
      case Cancel(reason) =>
        if reason == Permanent {
          return Panic(OutputDied);
        }
        state.tryAgain := true;
        return Continue;
      case OtherEvent =>
        return Panic(UnknownEvent);
    }
  }

  /** The tick: swap the retry flag with false; if it was set, request one capture. */
  method Tick(state: WaylandState) returns (requests: nat)
    modifies state`tryAgain
    ensures (state.Snap(), requests) == TickStep(old(state.Snap()))
  {
    var wasSet := state.tryAgain;
    state.tryAgain := false;
    requests := 0;
    if wasSet {
      requests := 1;
    }
  }
}

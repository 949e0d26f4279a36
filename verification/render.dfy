/**
 * `render_dmabuf` and its two copy paths: bring a captured buffer onto the
 * target GPU (by importing it directly, or by reading it back on the source
 * GPU and uploading the pixels), draw it, swap, and sort swap errors into
 * "try again" and "fatal". The GPUs' answers are passed in as `TargetGpu`.
 */
module Render {
  import opened Common
  import opened Egl
  import opened State

  /** What the GPUs answer while `copy_by_cpu` runs. */
  datatype CpuReadback = CpuReadback(
    bindOk: bool,       // the source renderer binds the buffer
    contextOk: bool,    // its context is made current, so ReadPixels runs
    frame: nat -> bv8,  // the bytes ReadPixels reads, by offset
    unbindOk: bool,
    uploadOk: bool)     // the target context is made current, so TexImage2D runs

  /** What the GPUs answer while `render_dmabuf` runs. */
  datatype TargetGpu = TargetGpu(
    imported: Option<nat>,   // import_dmabuf: the new texture's id, or failure
    cpu: CpuReadback,
    bindOk: bool,            // binding the output surface
    renderOk: bool,          // drawing the texture
    swap: Result<(), SwapBuffersError>)

  /** The bytes `ReadPixels` writes for a `w` by `h` RGBA read; GL refuses negative sizes and writes nothing. */
  function PixelBytes(w: int, h: int): nat
  {
    if w < 0 || h < 0 then 0 else w * h * 4
  }

  /** All the steps of the CPU path succeed. */
  predicate CpuSucceeds(cpu: CpuReadback)
  {
    cpu.bindOk && cpu.contextOk && cpu.unbindOk && cpu.uploadOk
  }

  // ----------------------------------------------------------- read-back

  /**
   * ReadPixels as the source calls it: `n` bytes written through a raw
   * pointer to the start of the buffer. Memory safety needs the buffer to
   * hold them, which the source never checks.
   */
  function ReadbackAsWritten(buffer: seq<bv8>, n: nat, frame: nat -> bv8): (r: seq<bv8>)
    requires n <= |buffer|
    ensures |r| == |buffer|
    ensures forall i :: 0 <= i < n ==> r[i] == frame(i)
    ensures r[n..] == buffer[n..]
  {
    seq(n, i requires 0 <= i => frame(i)) + buffer[n..]
  }

  /**
   * The read-back with the buffer grown (zero-filled) to `n` bytes first when
   * it is too small: the first `n` bytes are the frame's, the rest of an old
   * buffer is kept.
   */
  function Readback(buffer: seq<bv8>, n: nat, frame: nat -> bv8): (r: seq<bv8>)
    ensures |r| == if n <= |buffer| then |buffer| else n
    ensures forall i :: 0 <= i < n ==> r[i] == frame(i)
    ensures forall i :: n <= i < |buffer| ==> r[i] == buffer[i]
  {
    var base := if n <= |buffer| then buffer else seq(n, _ => 0 as bv8);
    seq(n, i requires 0 <= i => frame(i)) + base[n..]
  }

  /** Wherever the source's read-back stays inside the buffer, the grown one does the same. */
  lemma ReadbackAgrees(buffer: seq<bv8>, n: nat, frame: nat -> bv8)
    requires n <= |buffer|
    ensures Readback(buffer, n, frame) == ReadbackAsWritten(buffer, n, frame)
  {
  }

  /** `import_bitmap`: upload the first `w*h*4` bytes as the texture's content, keeping its id. */
  function Upload(t: Texture, buffer: seq<bv8>, w: int, h: int): Texture
    requires PixelBytes(w, h) <= |buffer|
  {
    if w < 0 || h < 0 then t else Texture(t.id, Bitmap(buffer[..PixelBytes(w, h)], w, h))
  }

  // ----------------------------------------------------------- copy paths

  /** `copy_by_import`: on success the imported texture replaces the current one. */
  function ImportStep(s: Snapshot, buf: Dmabuf, imported: Option<nat>): (Snapshot, bool)
  {
    if imported.Some? then (s.(texture := Texture(imported.value, Imported(buf))), true)
    else (s, false)
  }

  /** `copy_by_cpu`: bind, read back, unbind, upload; each failure returns at once. */
  function CpuStep(s: Snapshot, buf: Dmabuf, cpu: CpuReadback): (Snapshot, bool)
  {
    var n := PixelBytes(buf.width, buf.height);
    if !cpu.bindOk || !cpu.contextOk then (s, false)
    else
      var s1 := s.(buffer := Readback(s.buffer, n, cpu.frame));
      if !cpu.unbindOk || !cpu.uploadOk then (s1, false)
      else (s1.(texture := Upload(s1.texture, s1.buffer, buf.width, buf.height)), true)
  }

  /** The outcome of the copy stage. */
  datatype CopyOutcome = Copied | CopyFailed | NoWorkingPath

  /** What the copy stage does, seen through which paths succeed. */
  datatype Decision = Decision(copy: Option<CopyState>, outcome: CopyOutcome, attempts: seq<CopyState>)

  /**
   * The strategy rule on its own: undecided tries import, then the CPU path,
   * and keeps the first that works; a decided strategy is the only one tried.
   */
  function Select(copy: Option<CopyState>, importOk: bool, cpuOk: bool): (d: Decision)
    ensures copy.Some? ==> d.copy == copy && d.attempts == [copy.value] && d.outcome != NoWorkingPath
    ensures copy.Some? ==> (d.outcome == Copied <==> if copy.value == DirectImport then importOk else cpuOk)
    ensures copy.None? ==> d.attempts == if importOk then [DirectImport] else [DirectImport, CPUCopy]
    ensures copy.None? ==> d.copy == if importOk then Some(DirectImport) else if cpuOk then Some(CPUCopy) else None
    ensures copy.None? ==> (d.outcome == NoWorkingPath <==> !importOk && !cpuOk) && d.outcome != CopyFailed
  {
    match copy
    case None =>
      if importOk then Decision(Some(DirectImport), Copied, [DirectImport])
      else if cpuOk then Decision(Some(CPUCopy), Copied, [DirectImport, CPUCopy])
      else Decision(None, NoWorkingPath, [DirectImport, CPUCopy])
    case Some(DirectImport) => Decision(copy, if importOk then Copied else CopyFailed, [DirectImport])
    case Some(CPUCopy) => Decision(copy, if cpuOk then Copied else CopyFailed, [CPUCopy])
  }

  /** The copy stage of `render_dmabuf` on the whole state. */
  function CopyStep(s: Snapshot, buf: Dmabuf, gpu: TargetGpu): (r: (Snapshot, CopyOutcome, seq<CopyState>))
  {
    match s.copy
    case None =>
      var (s1, ok1) := ImportStep(s, buf, gpu.imported);
      if ok1 then (s1.(copy := Some(DirectImport)), Copied, [DirectImport])
      else
        var (s2, ok2) := CpuStep(s1, buf, gpu.cpu);
        if ok2 then (s2.(copy := Some(CPUCopy)), Copied, [DirectImport, CPUCopy])
        else (s2, NoWorkingPath, [DirectImport, CPUCopy])
    case Some(DirectImport) =>
      var (s1, ok) := ImportStep(s, buf, gpu.imported);
      (s1, if ok then Copied else CopyFailed, [DirectImport])
    case Some(CPUCopy) =>
      var (s1, ok) := CpuStep(s, buf, gpu.cpu);
      (s1, if ok then Copied else CopyFailed, [CPUCopy])
  }

  /** The copy stage follows the strategy rule, and changes neither the pending frame nor the retry flag. */
  lemma CopyStepFollowsSelect(s: Snapshot, buf: Dmabuf, gpu: TargetGpu)
    ensures var r := CopyStep(s, buf, gpu);
            var d := Select(s.copy, gpu.imported.Some?, CpuSucceeds(gpu.cpu));
            r.0.copy == d.copy && r.1 == d.outcome && r.2 == d.attempts
    ensures CopyStep(s, buf, gpu).0.dmabuf == s.dmabuf
    ensures CopyStep(s, buf, gpu).0.tryAgain == s.tryAgain
  {
  }

  /** A successful import replaces the texture; a failed one leaves the whole state as it was. */
  lemma ImportReplacesTextureOnlyOnSuccess(s: Snapshot, buf: Dmabuf, imported: Option<nat>)
    ensures ImportStep(s, buf, imported).1 <==> imported.Some?
    ensures imported.Some? ==> ImportStep(s, buf, imported).0.texture == Texture(imported.value, Imported(buf))
    ensures imported.None? ==> ImportStep(s, buf, imported).0 == s
  {
  }

  /**
   * A successful CPU copy leaves the frame's `w*h*4` bytes at the start of
   * the buffer and uploads exactly those bytes, with the frame's own size,
   * into the same texture.
   */
  lemma CpuCopyUploadsFrame(s: Snapshot, buf: Dmabuf, cpu: CpuReadback)
    requires CpuSucceeds(cpu) && buf.width >= 0 && buf.height >= 0
    ensures var (s1, ok) := CpuStep(s, buf, cpu);
            var n := buf.width * buf.height * 4;
            && ok
            && |s1.buffer| >= n
            && (forall i :: 0 <= i < n ==> s1.buffer[i] == cpu.frame(i))
            && s1.texture == Texture(s.texture.id, Bitmap(s1.buffer[..n], buf.width, buf.height))
            && s1.copy == s.copy && s1.dmabuf == s.dmabuf && s1.tryAgain == s.tryAgain
  {
  }

  /** Once a strategy is fixed, a frame tries that strategy alone, and its failure is an error, not a panic. */
  lemma FixedStrategyOnly(s: Snapshot, buf: Dmabuf, gpu: TargetGpu)
    requires s.copy.Some?
    ensures CopyStep(s, buf, gpu).2 == [s.copy.value]
    ensures CopyStep(s, buf, gpu).0.copy == s.copy
    ensures CopyStep(s, buf, gpu).1 != NoWorkingPath
  {
  }

  /**
   * The attempts of each frame of a run in which frame `i` finds import
   * working iff `frames[i].0` and the CPU path iff `frames[i].1`; the run
   * stops at the first frame whose copy does not succeed.
   */
  function RunAttempts(copy: Option<CopyState>, frames: seq<(bool, bool)>): (runs: seq<seq<CopyState>>)
    ensures |runs| <= |frames|
    ensures |frames| > 0 ==> |runs| > 0
    ensures |frames| > 0 ==> runs[0] == Select(copy, frames[0].0, frames[0].1).attempts
    ensures |frames| > 0 ==>
      (|runs| == 1 <==> |frames| == 1 || Select(copy, frames[0].0, frames[0].1).outcome != Copied)
    decreases |frames|
  {
    if |frames| == 0 then []
    else
      var d := Select(copy, frames[0].0, frames[0].1);
      if d.outcome != Copied then [d.attempts]
      else [d.attempts] + RunAttempts(d.copy, frames[1..])
  }

  /** When both paths work on every frame, the run copies every frame: one attempt list each. */
  lemma {:induction false} EveryFrameCopied(copy: Option<CopyState>, frames: seq<(bool, bool)>)
    requires forall i :: 0 <= i < |frames| ==> frames[i].0 && frames[i].1
    ensures |RunAttempts(copy, frames)| == |frames|
    decreases |frames|
  {
    if |frames| > 1 {
      var d := Select(copy, frames[0].0, frames[0].1);
      EveryFrameCopied(d.copy, frames[1..]);
    }
  }

  /** With a strategy fixed, every later frame tries that strategy and never the other. */
  lemma {:induction false} StrategyIsSticky(copy: Option<CopyState>, frames: seq<(bool, bool)>)
    requires copy.Some?
    ensures forall i :: 0 <= i < |RunAttempts(copy, frames)| ==> RunAttempts(copy, frames)[i] == [copy.value]
  {
    if |frames| > 0 {
      var d := Select(copy, frames[0].0, frames[0].1);
      if d.outcome == Copied {
        StrategyIsSticky(d.copy, frames[1..]);
      }
    }
  }

  /**
   * From an undecided start, the strategy the first frame settles on is the
   * only one any later frame tries.
   */
  lemma {:induction false} FirstFrameDecides(frames: seq<(bool, bool)>)
    requires |frames| >= 1 && (frames[0].0 || frames[0].1)
    ensures var runs := RunAttempts(None, frames);
            var chosen := if frames[0].0 then DirectImport else CPUCopy;
            forall i :: 1 <= i < |runs| ==> runs[i] == [chosen]
  {
    var d := Select(None, frames[0].0, frames[0].1);
    var rest := RunAttempts(d.copy, frames[1..]);
    StrategyIsSticky(d.copy, frames[1..]);
    assert RunAttempts(None, frames) == [d.attempts] + rest;
    forall i | 1 <= i < |RunAttempts(None, frames)|
      ensures RunAttempts(None, frames)[i] == [d.copy.value]
    {
      assert RunAttempts(None, frames)[i] == rest[i - 1];
    }
  }

  // --------------------------------------------------- swap classification

  /** The swap errors that only ask for another try: resource busy, bad state, bad surface. */
  predicate Transient(e: EglError)
  {
    e == Unknown(RESOURCE_BUSY_EXT) || e == Unknown(BAD_STATE_KHR) || e == BadSurface
  }

  datatype Verdict = Presented | Retry | Fatal

  /** How `render_dmabuf` treats the result of the swap. */
  function Classify(swap: Result<(), SwapBuffersError>): (v: Verdict)
    ensures v == Presented <==> swap.Ok?
    ensures v == Retry <==> swap.Err? && swap.error.EGLSwapBuffers? && Transient(swap.error.error)
  {
    match swap
    case Ok(_) => Presented
    case Err(EGLSwapBuffers(e)) => if Transient(e) then Retry else Fatal
    case Err(_) => Fatal
  }

  /** In terms of the raw code `eglGetError` reports for a failed swap: exactly 0x3353, 0x321C and 0x300D are retried. */
  lemma RetryCodes(c: u32)
    requires c != SUCCESS
    ensures Classify(Err(EGLSwapBuffers(FromCode(c)))) == Retry <==>
            c == RESOURCE_BUSY_EXT || c == BAD_STATE_KHR || c == BAD_SURFACE
    ensures Classify(Err(EGLSwapBuffers(FromCode(c)))) != Presented
  {
    var e := FromCode(c);
    if e == BadSurface {
      assert c == Code(e);
    } else if e.Unknown? {
      assert c == e.code;
    }
  }

  // ------------------------------------------------------------ rendering

  datatype RenderOutcome = Rendered | Failed | Panicked(reason: PanicReason)

  /** `render_dmabuf` on the whole state: copy, draw, swap, classify. */
  function RenderStep(s: Snapshot, buf: Dmabuf, gpu: TargetGpu): (r: (Snapshot, RenderOutcome, seq<CopyState>))
  {
    var (s1, copied, attempts) := CopyStep(s, buf, gpu);
    if copied == NoWorkingPath then (s1, Panicked(NoCopyPath), attempts)
    else if copied == CopyFailed then (s1, Failed, attempts)
    else if !gpu.bindOk then (s1, Panicked(BindSurfaceFailed), attempts)
    else if !gpu.renderOk then (s1, Failed, attempts)
    else match Classify(gpu.swap)
      case Presented => (s1, Rendered, attempts)
      case Retry => (s1.(tryAgain := true), Rendered, attempts)
      case Fatal => (s1, Panicked(SwapFailed(gpu.swap.error)), attempts)
  }

  /**
   * After a copy that worked and a draw, a transient swap error sets the
   * retry flag and rendering still succeeds; any other swap error panics;
   * a successful swap leaves the flag as it was.
   */
  lemma SwapOutcome(s: Snapshot, buf: Dmabuf, gpu: TargetGpu)
    requires CopyStep(s, buf, gpu).1 == Copied && gpu.bindOk && gpu.renderOk
    ensures var (s1, out, _) := RenderStep(s, buf, gpu);
            && (gpu.swap.Ok? ==> out == Rendered && s1.tryAgain == s.tryAgain)
            && (Classify(gpu.swap) == Retry ==> out == Rendered && s1.tryAgain)
            && (Classify(gpu.swap) == Fatal ==> out == Panicked(SwapFailed(gpu.swap.error)))
  {
    CopyStepFollowsSelect(s, buf, gpu);
  }

  /** Both copy paths failing on an undecided state panics, after trying import and then the CPU path. */
  lemma NoCopyPathPanics(s: Snapshot, buf: Dmabuf, gpu: TargetGpu)
    requires s.copy.None? && gpu.imported.None? && !CpuSucceeds(gpu.cpu)
    ensures RenderStep(s, buf, gpu).1 == Panicked(NoCopyPath)
    ensures RenderStep(s, buf, gpu).2 == [DirectImport, CPUCopy]
    ensures RenderStep(s, buf, gpu).0.copy.None?
  {
    CopyStepFollowsSelect(s, buf, gpu);
  }

  // --------------------------------------------------- the imperative code

  /** `copy_by_import`. */
  method CopyByImport(state: WaylandState, buf: Dmabuf, imported: Option<nat>) returns (ok: bool)
    modifies state`texture
    ensures (state.Snap(), ok) == ImportStep(old(state.Snap()), buf, imported)
  {
    if imported.None? {
      return false;
    }
    state.texture := Texture(imported.value, Imported(buf));
    return true;
  }

  /**
   * `copy_by_cpu`, with the read-back buffer grown to the frame's size when
   * it is too small (see `ReadbackAsWritten` for the code as written).
   */
  method CopyByCpu(state: WaylandState, buf: Dmabuf, cpu: CpuReadback) returns (ok: bool)
    modifies state, state.buffer
    ensures (state.Snap(), ok) == CpuStep(old(state.Snap()), buf, cpu)
  {
    var w, h := buf.width, buf.height;
    if !cpu.bindOk {
      return false;
    }
    if !cpu.contextOk {
      return false;
    }
    var n := PixelBytes(w, h);
    if state.buffer.Length < n {
      state.buffer := new bv8[n](_ => 0);
    }
    ghost var before := state.buffer[..];
    forall i | 0 <= i < n {
      state.buffer[i] := cpu.frame(i);
    }
    assert state.buffer[..] == Readback(old(state.buffer[..]), n, cpu.frame) by {
      assert |before| == |Readback(old(state.buffer[..]), n, cpu.frame)|;
    }
    if !cpu.unbindOk {
      return false;
    }
    if !cpu.uploadOk {
      return false;
    }
    state.texture := Upload(state.texture, state.buffer[..], w, h);
    return true;
  }

  /** `render_dmabuf`: returns how it ended and the copy paths it tried, in order. */
  method RenderDmabuf(state: WaylandState, buf: Dmabuf, gpu: TargetGpu)
    returns (outcome: RenderOutcome, attempts: seq<CopyState>)
    modifies state, state.buffer
    ensures (state.Snap(), outcome, attempts) == RenderStep(old(state.Snap()), buf, gpu)
  {
    var copied: CopyOutcome;
    match state.copy {
      case None =>
        var imported := CopyByImport(state, buf, gpu.imported);
        if imported {
          state.copy := Some(DirectImport);
          copied, attempts := Copied, [DirectImport];
        } else {
          var cpuOk := CopyByCpu(state, buf, gpu.cpu);
          if cpuOk {
            state.copy := Some(CPUCopy);
            copied, attempts := Copied, [DirectImport, CPUCopy];
          } else {
            return Panicked(NoCopyPath), [DirectImport, CPUCopy];
          }
        }
      case Some(DirectImport) =>
        attempts := [DirectImport];
        var ok := CopyByImport(state, buf, gpu.imported);
        if !ok {
          return Failed, attempts;
        }
        copied := Copied;
      case Some(CPUCopy) =>
        attempts := [CPUCopy];
        var ok := CopyByCpu(state, buf, gpu.cpu);
        if !ok {
          return Failed, attempts;
        }
        copied := Copied;
    }
    if !gpu.bindOk {
      return Panicked(BindSurfaceFailed), attempts;
    }
    if !gpu.renderOk {
      return Failed, attempts;
    }
    match Classify(gpu.swap) {
      case Presented =>
      case Retry =>
        state.tryAgain := true;
      case Fatal =>
        return Panicked(SwapFailed(gpu.swap.error)), attempts;
    }
    return Rendered, attempts;
  }
}

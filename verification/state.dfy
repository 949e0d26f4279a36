/**
 * The state the capture callback and the renderer share (`WaylandState`):
 * the frame under construction, the retry flag, the CPU read-back buffer,
 * the texture shown on the target and the chosen copy strategy.
 */
module State {
  import opened Common
  import opened Egl

  /** The copy strategy, once one has worked. */
  datatype CopyState = DirectImport | CPUCopy

  /** One plane of a captured buffer, as `DmabufBuilder::add_plane` records it. */
  datatype Plane = Plane(fd: nat, index: u32, offset: u32, stride: u32, modifier: bv64)

  /** A buffer descriptor under construction. `width` and `height` are `i32` values. */
  datatype DmabufBuilder = DmabufBuilder(width: int, height: int, format: u32, flags: bv32, planes: seq<Plane>)

  /** A finished buffer descriptor, handed to the renderer. */
  datatype Dmabuf = Dmabuf(width: int, height: int, format: u32, flags: bv32, planes: seq<Plane>)

  /** `DmabufBuilder::build`: the descriptor with the planes in the order they were added. */
  function Build(b: DmabufBuilder): Dmabuf
  {
    Dmabuf(b.width, b.height, b.format, b.flags, b.planes)
  }

  /** What a GL texture of the target GPU holds. */
  datatype TexContent =
    | Blank(width: int, height: int)
    | Imported(source: Dmabuf)
    | Bitmap(pixels: seq<bv8>, width: int, height: int)

  datatype Texture = Texture(id: nat, content: TexContent)

  /** Why the process panics. */
  datatype PanicReason =
    | OutputDied                        // a permanent cancel
    | FrameMissing                      // an object or ready event with no frame under construction
    | UnknownEvent
    | RenderFailed                      // render_dmabuf returned an error
    | NoCopyPath                        // neither copy strategy worked on the first frame
    | BindSurfaceFailed
    | SwapFailed(error: SwapBuffersError)

  /** How handling one event ends: the loop goes on, or the process panics. */
  datatype Flow = Continue | Panic(reason: PanicReason)

  /** The value of every field of a `WaylandState` that the pipeline changes. */
  datatype Snapshot = Snapshot(
    dmabuf: Option<(DmabufBuilder, bv64)>,
    tryAgain: bool,
    buffer: seq<bv8>,
    texture: Texture,
    copy: Option<CopyState>)

  /** The length of the read-back buffer allocated at start-up for a source mode `w` by `h`: four bytes a pixel. */
  function InitialBufferLength(w: nat, h: nat): nat
  {
    w * h * 4
  }

  class WaylandState {
    var dmabuf: Option<(DmabufBuilder, bv64)>
    var tryAgain: bool
    var buffer: array<bv8>
    var texture: Texture
    var copy: Option<CopyState>
    const destSize: (int, int)

    function Snap(): Snapshot
      reads this, buffer
    {
      Snapshot(dmabuf, tryAgain, buffer[..], texture, copy)
    }

    /**
     * The state built at start-up: nothing pending, no retry requested, no
     * strategy yet, and a zeroed buffer of four bytes a pixel of the source
     * mode. The size is computed in `i32`, so it must not overflow.
     */
    constructor (sourceMode: (int, int), destSize: (int, int), texture: Texture)
      requires 0 <= sourceMode.0 && 0 <= sourceMode.1
      requires sourceMode.0 * sourceMode.1 * 4 <= I32_MAX
      ensures buffer.Length == InitialBufferLength(sourceMode.0, sourceMode.1)
      ensures forall i :: 0 <= i < buffer.Length ==> buffer[i] == 0
      ensures dmabuf.None? && !tryAgain && copy.None?
      ensures this.texture == texture && this.destSize == destSize
      ensures fresh(buffer)
    {
      dmabuf := None;
      tryAgain := false;
      buffer := new bv8[sourceMode.0 * sourceMode.1 * 4](_ => 0);
      this.texture := texture;
      copy := None;
      this.destSize := destSize;
    }
  }
}

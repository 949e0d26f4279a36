# nvscreencopy pipeline, modelled in Dafny

nvscreencopy mirrors a Wayland compositor's output onto a display driven by
an NVIDIA GPU. It captures each frame with the `wlr-export-dmabuf` protocol,
copies it onto the NVIDIA GPU, and presents it through an EGLStream bound to
one DRM plane. This project models the core of that pipeline and proves
properties of the model:

- **Capture** (`capture.dfy`, `src/main.rs`). `handle_frame` reassembles the
  protocol's `frame`, `object`… and `ready` events into one buffer
  descriptor, whose 64-bit modifier is built from two 32-bit halves. A
  `cancel` either stops the process or asks for a retry. The event loop's
  tick turns a retry request into one new capture request.
- **Rendering** (`render.dfy`, `src/render.rs`). `render_dmabuf` picks a copy
  strategy, either a direct import or a read-back on the CPU. It keeps the
  first strategy that works for the rest of the run, draws, swaps, and
  sorts swap errors into "try again" and "fatal".
- **EGL** (`egl.dfy`, `src/egl.rs`). This covers:
  - `wrap_egl_call` and the error codes;
  - the parsing of extension strings;
  - the choice of the EGL device that drives a DRM node;
  - `EglStreamSurface`, with its stream creation, recreation after a resize,
    and its swap-then-acquire presentation.
- **`--mode`** (`mode_arg.dfy`, `src/main.rs`). The validator and parser of
  the `WIDTHxHEIGHT` argument, and the size the output is drawn at.
- **Shared state** (`state.dfy`). The `WaylandState` shared by capture and
  rendering is a class. Its fields are the frame under construction, the
  retry flag, the read-back buffer (an `array<bv8>`), the texture and the
  chosen strategy.

The code that changes this state is imperative. `HandleFrame`, `Tick`,
`RenderDmabuf`, `CopyByCpu` and `CopyByImport` are methods on the
`WaylandState` class. Each of them is proved equal to a pure step function
over a `Snapshot` of the state, and the properties are proved as lemmas
about those step functions. `EglStreamSurface` is a class too. Its methods
carry direct contracts on its fields, and `CreateStream` returns exactly
what the pure `Egl.StreamCreation` computes.

Every GPU, EGL and Wayland call is replaced by the answer it gives, passed
in as a value:

- `TargetGpu` and `CpuReadback` for the renderers;
- `StreamDriver` and `DeviceQuery` for the EGL driver;
- the raw `eglGetError` codes.

Integer widths are explicit: `u32` is a subset type, `as i32` is
`Common.AsI32`, the modifier is a `bv64` and pixel bytes are `bv8`.

Behaviours of the code that the model keeps, even where a reader of the
protocol might expect otherwise:

- A second `frame` event before `ready` is not rejected. It replaces the
  descriptor under construction (`Capture.FrameReplacesPending`).
- A temporary or resizing `cancel` only sets the retry flag. A descriptor
  under construction is kept, not discarded (`Capture.OtherCancelRequestsRetry`).
- There is no separate stream-state enumeration. The surface's state is its
  optional stream plus its mode, and `needs_recreation` is "no stream".
- A stream that cannot be created, or a consumer that cannot be linked,
  surfaces as `BadParameter`. Missing extensions surface as
  `BadNativeWindow`. There are no dedicated error kinds for these.
- Once a strategy is fixed, a failure of that strategy is an error of
  `render_dmabuf`. `handle_frame` turns that error into a panic. There is no
  fallback to the other strategy (`Render.FixedStrategyOnly`).

## Model

| member | source | states |
|---|---|---|
| Common.AsI32 | src/main.rs:202 | `u32 as i32` keeps the value below 2^31 and subtracts 2^32 above it; the result is non-negative exactly when the input is at most `i32::MAX` |
| Common.Split | src/egl.rs:169 | splitting at a one-character separator gives one part more than there are separators, and no part contains the separator |
| Common.JoinOfSplit | src/egl.rs:169 | splitting loses nothing: joining the parts with the separator gives the string back |
| Common.SplitOfJoin | src/main.rs:169 | separator-free parts joined with the separator split back into exactly those parts |
| Egl.FromCode | src/egl.rs:133-139 | the decoded error kind carries the code it came from; it is `Unknown` exactly for codes without a named kind |
| Egl.FromCodeOfCode | src/egl.rs:137 | decoding the code of any error kind gives that kind back |
| Egl.WrapEglCall | src/egl.rs:133-139 | a call succeeds exactly when `eglGetError` then reports `EGL_SUCCESS`; it then yields the call's result, otherwise the decoded error |
| Egl.ExtensionList | src/egl.rs:157-170 | a null extension string is no extensions; a non-UTF-8 one is the single empty name; otherwise the names are space-free and, joined by spaces, give the text back |
| Egl.ExtensionListOfNames | src/egl.rs:164-169 | names listed one space apart are read back as exactly those names |
| Egl.FindDevice | src/egl.rs:204-240 | returns the first device that is not `EGL_NO_DEVICE_EXT`, supports `EGL_EXT_device_drm` and names the DRM node; none when no device does |
| Egl.DeviceExtensionsPresent | src/egl.rs:174-182 | enumeration is allowed exactly when some client extension is `EGL_EXT_device_base`, or some is `EGL_EXT_device_enumeration` and some is `EGL_EXT_device_query` |
| Egl.DeviceExtensionExamples | src/egl.rs:174-182 | `device_base` alone suffices; `enumeration` needs `query` beside it, in either order; `enumeration` alone, or `query` with `drm`, is refused |
| Egl.OpenDevice | src/egl.rs:149-247 | opening succeeds exactly when every query succeeds, the client extensions allow enumeration, there is a device, and a device matches; the result is the first matching device; missing client extensions refuse the device |
| Egl.SwapInterval | src/egl.rs:372-378 | the swap interval set on the layer is never 0; a nonzero reported minimum is set as it is, and 0 (or no answer, keeping the preset) becomes 1 |
| Egl.StreamCreation | src/egl.rs:294-412 | stream creation succeeds exactly when all six extensions are present, the plane has an output layer, both layer queries succeed, a stream is created and its consumer is linked; it uses the first layer and sets the swap interval `SwapInterval` gives; missing extensions give `BadNativeWindow`, every other failure `BadParameter` |
| Egl.EglStreamSurface.constructor | src/egl.rs:283-292 | a new surface has no stream and no producer surface, so it needs recreation |
| Egl.EglStreamSurface.NeedsRecreation | src/egl.rs:462-464 | a surface needs recreation exactly when it holds no stream; one that needs none holds a non-null stream |
| Egl.EglStreamSurface.CreateStream | src/egl.rs:294-412 | returns exactly the stream creation's outcome (layer, swap interval, stream, or the error), and records the created stream only on success |
| Egl.EglStreamSurface.Create | src/egl.rs:421-460 | creates the stream, then records and returns the producer surface; on a stream error nothing changes and the error is passed on |
| Egl.EglStreamSurface.Resize | src/egl.rs:466-472 | always accepted; another mode drops the stream, so the surface needs recreation; the same mode changes nothing |
| Egl.EglStreamSurface.SwapBuffers | src/egl.rs:474-512 | on a surface holding a stream, swaps, then (only if the swap succeeded) acquires that non-null stream with a flip event for the surface's CRTC; each failure becomes `EGLSwapBuffers` of the decoded error |
| State.WaylandState.constructor | src/main.rs:332-344 | the start-up state has a zeroed read-back buffer of four bytes a pixel of the source mode, nothing under construction, no retry and no strategy |
| Render.ReadbackAsWritten | src/render.rs:74-82 | the read-back writes the frame's `w*h*4` bytes at the start of the buffer; memory safety needs the buffer to hold them |
| Render.Readback | src/render.rs:74-82 | the corrected read-back holds the whole frame in its first `w*h*4` bytes and keeps the rest of the old buffer |
| Render.ReadbackAgrees | src/render.rs:78-82 | whenever the source's read-back stays inside the buffer, the corrected one gives the same bytes |
| Render.Select | src/render.rs:94-109 | an undecided strategy tries import, then the CPU path, and keeps the first that works (no working path is the only way to fail); a decided one is the only one tried |
| Render.CopyStepFollowsSelect | src/render.rs:94-109 | the copy stage follows that rule exactly, and changes neither the frame under construction nor the retry flag |
| Render.ImportReplacesTextureOnlyOnSuccess | src/render.rs:58-72 | a successful import replaces the texture with the imported buffer; a failed one changes nothing |
| Render.CpuCopyUploadsFrame | src/render.rs:74-92 | a successful CPU copy leaves the frame's bytes at the start of the buffer and uploads exactly those, at the frame's size, into the same texture |
| Render.FixedStrategyOnly | src/render.rs:107-108 | once a strategy is fixed, only it is tried, it stays fixed, and its failure is an error, not a panic |
| Render.RunAttempts | src/render.rs:94-109 | a run's first attempt list is what the strategy rule tries on the first frame, and the run stops after that frame exactly when its copy did not succeed (or it was the last); never more lists than frames |
| Render.EveryFrameCopied | src/render.rs:94-109 | when both paths work on every frame, the run copies every frame, one attempt list each |
| Render.StrategyIsSticky | src/render.rs:107-108 | with a strategy fixed, every later frame tries exactly that strategy |
| Render.FirstFrameDecides | src/render.rs:96-105 | from an undecided start, every frame after the first tries only the strategy the first frame settled on |
| Render.Classify | src/render.rs:127-138 | a swap is presented exactly when it succeeded, and retried exactly when it failed with an `EGLSwapBuffers` error with a transient code (from the swap or from the acquire after it) |
| Render.RetryCodes | src/render.rs:127-133 | in terms of raw error codes, exactly 0x3353, 0x321C and 0x300D are retried |
| Render.SwapOutcome | src/render.rs:111-140 | after a good copy and draw, a transient swap error sets the retry flag and still renders; any other error panics; a good swap leaves the flag alone |
| Render.NoCopyPathPanics | src/render.rs:96-105 | when neither path works on an undecided state, rendering panics after trying import and then the CPU path, still undecided |
| Render.CopyByImport | src/render.rs:58-72 | `copy_by_import` on the state is the import step |
| Render.CopyByCpu | src/render.rs:74-92 | `copy_by_cpu` on the state, with the buffer grown when too small, is the CPU step |
| Render.RenderDmabuf | src/render.rs:94-141 | `render_dmabuf` on the state is the render step: copy, bind, draw, swap, classify |
| Capture.Modifier | src/main.rs:106 | the modifier's high 32 bits (`ModifierHigh`) are the high half and its low 32 bits (`ModifierLow`) the low half, so both halves are recovered from it |
| Capture.ModifierOfHalves | src/main.rs:106 | any modifier is rebuilt from its two halves |
| Capture.DmabufFlags | src/main.rs:104 | only the three defined flag bits survive the truncation |
| Capture.OnEvent | src/main.rs:84-145 | a frame starts a new descriptor with no planes; an object appends one plane with the pending modifier, or aborts when nothing is pending; ready hands the built descriptor over, or aborts; a permanent cancel aborts and any other asks for a retry |
| Capture.FrameReplacesPending | src/main.rs:91-107 | a frame event does the same whatever was under construction before it |
| Capture.ObjectsAppendInOrder | src/main.rs:109-120 | object events add their planes in arrival order, each with the frame's modifier |
| Capture.CompleteExchange | src/main.rs:91-131 | a whole `frame, object…, ready` exchange hands over one descriptor with the frame's size (cast to `i32`), format, flags and combined modifier, and the objects' planes in order |
| Capture.SinglePlaneExample | src/main.rs:91-131 | a 1920x1080 single-plane frame with modifier halves (0, 1) gives a descriptor with modifier 1 |
| Capture.StartupBufferOverrun | src/main.rs:337 | a state built for 1280x720 accepts a 1920x1080 frame, whose read-back does not fit in the start-up buffer; the grown read-back holds it |
| Capture.PermanentCancelIsFatal | src/main.rs:133-135 | a permanent cancel panics with "output died" |
| Capture.OtherCancelRequestsRetry | src/main.rs:136-142 | any other cancel only sets the retry flag |
| Capture.ReadyHandsOff | src/main.rs:122-131 | a ready event leaves nothing under construction; handling continues exactly when rendering succeeds, and a render error panics |
| Capture.CancelThenTick | src/main.rs:374-382 | after a transient cancel the next tick requests exactly one capture and clears the flag, and the tick after it requests none |
| Capture.HandleFrame | src/main.rs:84-145 | `handle_frame` on the state is the event step |
| Capture.Tick | src/main.rs:374-382 | the tick swaps the retry flag with false and requests one capture exactly when it was set |
| ModeArg.ParseU32 | src/main.rs:170 | `u32::from_str_radix(s, 10)` accepts an optional `+` followed by one or more digits whose value fits in 32 bits; empty, a lone sign and a `-` are refused |
| ModeArg.DecimalValue | src/main.rs:170 | the decimal form of `n` is worth `n` |
| ModeArg.ParseOfDecimal | src/main.rs:170 | the parser reads back a decimal form, with or without a `+` |
| ModeArg.DecimalOfParse | src/main.rs:170 | every accepted string without a sign or leading zeros is the decimal form of its value |
| ModeArg.ValidateMode | src/main.rs:167-177 | the mode is accepted exactly when it splits at `x` into two numbers; a non-numeric part is reported whatever the count, and a wrong count only when every part is numeric |
| ModeArg.ValidateJoined | src/main.rs:167-177 | for any `x`-free parts, the verdict on them joined with `x` is decided part by part |
| ModeArg.OneNumberRefused | src/main.rs:173-175 | a single number is refused for its count |
| ModeArg.EmptyPartRefused | src/main.rs:168-172 | a trailing `x` and the empty string are refused as not numeric |
| ModeArg.ParseMode | src/main.rs:198-206 | a validated mode gives both numbers, each cast to `i32` |
| ModeArg.ModeRoundTrip | src/main.rs:167-206 | `WxH` in decimal is accepted and parsed back to `(W as i32, H as i32)` |
| ModeArg.LargeModeWraps | src/main.rs:202 | a width above `i32::MAX` passes the validator and becomes negative |
| ModeArg.DestMode | src/main.rs:198-206 | the mode is present exactly when the argument is, and is then the parsed one |
| ModeArg.DestSize | src/main.rs:340-342 | the output is drawn at the given mode, or at the source's mode without one |
| ModeArg.DestSizeOfArgument | src/main.rs:340-342 | without `--mode` the output mirrors the source; with `WxH` it is drawn at `(W, H)` as `i32` |

## Left out

- Loading the EGL entry points by name, and the sysfs and `fstat` lookup of the DRM node's name. The node's path is a parameter of `Egl.OpenDevice`.
- `gpu.rs` and `drm.rs`: opening the devices, choosing the connector, the mode and the plane, the first mode-set, and the DRM event source. `build.rs` is code generation. None of these is part of this model.
- The calloop wiring. A vblank requests a capture unconditionally, the Wayland round trip runs on each loop iteration, and orphan events panic. Only the tick's use of the retry flag is modelled (`Capture.Tick`).
- The GL work itself: generating textures, `TexParameteri`, drawing the texture, and the smithay renderer's bind, unbind and context handling. Each is a success flag of `TargetGpu` or `CpuReadback`.
- `Fourcc::try_from(format).unwrap()`. The set of formats smithay knows is not part of this model, so every format is accepted.
- `DmabufBuilder::build` and the plane bookkeeping inside smithay are not part of this model. `State.Build` keeps the planes in the order they were added and always succeeds.
- smithay's `EGLSurface` wrapper around `EglStreamSurface` (when it calls `create`, `resize` and `swap_buffers`) is not part of this model.
- The state queries of `create_stream`, `create` and `swap_buffers` (`eglQueryStreamKHR`), and all logging.
- Egl.StreamCreation: both output-layer queries are taken to report the same list, `layers`. The count of the first query is not modelled apart from the second's.
- Egl.EglStreamSurface.CreateStream: requires a non-null extension string. The source hands the pointer to `CStr::from_ptr` without a check, and a null pointer there is undefined behaviour.
- Egl.EglStreamSurface.Create: the producer-surface attributes (width and height of the mode) and the EGL config are not modelled. The returned handle is the driver's answer.
- State.WaylandState.constructor: requires that `w*h*4` fits in an `i32`. The source computes it in `i32`, where an overflow would panic in a debug build and wrap in a release build.
- The `AtomicBool` retry flag and the `Cell` fields are plain fields. The program is single-threaded, so the orderings do not matter.
- The destruction of the frame object after `ready` or `cancel` is a protocol request and is not modelled.

## Findings

| source | as written | input that shows it | evidently intended | confidence | as-written member | corrected member |
|---|---|---|---|---|---|---|
| src/render.rs:74-82 | `copy_by_cpu` reads `w*h*4` bytes of the frame with `ReadPixels` through a raw pointer into `state.buffer`. That buffer was allocated once, at start-up, for the source's mode (src/main.rs:337), and is never resized. | Start with a 1280x720 source mode, so the buffer holds 3686400 bytes. A later `frame` event of 1920x1080 needs 8294400 bytes, so the read writes past the end of the buffer. | The buffer holds the frame being read: it is grown to `w*h*4` bytes before the read. | not executed | Render.ReadbackAsWritten, Capture.StartupBufferOverrun | Render.Readback, Render.CopyByCpu |

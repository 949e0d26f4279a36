/**
 * The EGL side of the output: error reporting, extension lists, choosing the
 * EGL device of the target DRM node, and the EGLStream surface that feeds one
 * DRM plane. Every native EGL call is replaced by the answer the driver gives
 * to it, passed in as a value (`DeviceQuery`, `StreamDriver`, error codes).
 */
module Egl {
  import opened Common

  // ---------------------------------------------------------------- errors

  /** `EGL_SUCCESS`, what `eglGetError` reports when the last call succeeded. */
  const SUCCESS: u32 := 0x3000
  /** `EGL_RESOURCE_BUSY_EXT`. */
  const RESOURCE_BUSY_EXT: u32 := 0x3353
  /** `EGL_BAD_STATE_KHR`. */
  const BAD_STATE_KHR: u32 := 0x321C
  /** `EGL_BAD_SURFACE`. */
  const BAD_SURFACE: u32 := 0x300D

  /** The error kinds an EGL error code is mapped to; codes without a name stay `Unknown`. */
  datatype EglError =
    | NotInitialized | BadAccess | BadAlloc | BadAttribute | BadConfig | BadContext
    | BadCurrentSurface | BadDisplay | BadMatch | BadNativePixmap | BadNativeWindow
    | BadParameter | BadSurface | ContextLost | BadDevice
    | Unknown(code: u32)

  /** The EGL code of an error kind. */
  function Code(e: EglError): u32
  {
    match e
    case NotInitialized => 0x3001
    case BadAccess => 0x3002
    case BadAlloc => 0x3003
    case BadAttribute => 0x3004
    case BadConfig => 0x3005
    case BadContext => 0x3006
    case BadCurrentSurface => 0x3007
    case BadDisplay => 0x3008
    case BadMatch => 0x3009
    case BadNativePixmap => 0x300A
    case BadNativeWindow => 0x300B
    case BadParameter => 0x300C
    case BadSurface => 0x300D
    case ContextLost => 0x300E
    case BadDevice => 0x322B
    case Unknown(c) => c
  }

  /** Codes that have a named error kind. */
  predicate Named(c: u32)
  {
    0x3001 <= c <= 0x300E || c == 0x322B
  }

  /** `EGLError::from(code)`: the named kind for a known code, `Unknown(code)` otherwise. */
  function FromCode(c: u32): (e: EglError)
    ensures Code(e) == c
    ensures e.Unknown? <==> !Named(c)
  {
    if c == 0x3001 then NotInitialized
    else if c == 0x3002 then BadAccess
    else if c == 0x3003 then BadAlloc
    else if c == 0x3004 then BadAttribute
    else if c == 0x3005 then BadConfig
    else if c == 0x3006 then BadContext
    else if c == 0x3007 then BadCurrentSurface
    else if c == 0x3008 then BadDisplay
    else if c == 0x3009 then BadMatch
    else if c == 0x300A then BadNativePixmap
    else if c == 0x300B then BadNativeWindow
    else if c == 0x300C then BadParameter
    else if c == 0x300D then BadSurface
    else if c == 0x300E then ContextLost
    else if c == 0x322B then BadDevice
    else Unknown(c)
  }

  /** Decoding the code of an error kind gives that kind back. */
  lemma FromCodeOfCode(e: EglError)
    requires e.Unknown? ==> !Named(e.code)
    ensures FromCode(Code(e)) == e
  {
  }

  /**
   * `wrap_egl_call`: the call's result when `eglGetError`, asked right after
   * the call, reports `error == EGL_SUCCESS`; the decoded error otherwise.
   */
  function WrapEglCall<R>(res: R, error: u32): (r: Result<R, EglError>)
    ensures r.Ok? <==> error == SUCCESS
    ensures r.Ok? ==> r.value == res
    ensures r.Err? ==> Code(r.error) == error
  {
    if error == SUCCESS then Ok(res) else Err(FromCode(error))
  }

  // ------------------------------------------------------- extension lists

  /** A `const char *` returned by EGL: null, bytes that are not UTF-8, or text. */
  datatype CString = Null | NonUtf8 | Utf8(text: string)

  /**
   * The extension names in an EGL extension string: none for a null pointer;
   * otherwise the text (the empty text when it is not UTF-8) split at every
   * single space.
   */
  function ExtensionList(p: CString): (list: seq<string>)
    ensures p.Null? ==> list == []
    ensures p.NonUtf8? ==> list == [""]
    ensures p.Utf8? ==> |list| >= 1 && Join(list, ' ') == p.text
    ensures forall i :: 0 <= i < |list| ==> ' ' !in list[i]
  {
    match p
    case Null => []
    case NonUtf8 => Split("", ' ')
    case Utf8(text) => JoinOfSplit(text, ' '); Split(text, ' ')
  }

  /** A driver that lists the names `names`, one space apart, is read back as exactly those names. */
  lemma ExtensionListOfNames(names: seq<string>)
    requires |names| >= 1
    requires forall i :: 0 <= i < |names| ==> ' ' !in names[i]
    ensures ExtensionList(Utf8(Join(names, ' '))) == names
  {
    SplitOfJoin(names, ' ');
  }

  /** The text of a device-file string; null and non-UTF-8 give the empty text. */
  function PathText(p: CString): string
  {
    if p.Utf8? then p.text else ""
  }

  // ----------------------------------------------------------- EGL device

  const EXT_DEVICE_BASE := "EGL_EXT_device_base"
  const EXT_DEVICE_ENUMERATION := "EGL_EXT_device_enumeration"
  const EXT_DEVICE_QUERY := "EGL_EXT_device_query"
  const EXT_DEVICE_DRM := "EGL_EXT_device_drm"

  /**
   * The client extensions allow device enumeration: some entry is
   * `device_base`, or some entry is `enumeration` and some entry is `query`.
   */
  predicate DeviceExtensionsPresent(exts: seq<string>): (b: bool)
    ensures b <==> (exists i :: 0 <= i < |exts| && exts[i] == EXT_DEVICE_BASE)
                   || ((exists i :: 0 <= i < |exts| && exts[i] == EXT_DEVICE_ENUMERATION)
                       && (exists i :: 0 <= i < |exts| && exts[i] == EXT_DEVICE_QUERY))
  {
    EXT_DEVICE_BASE in exts || (EXT_DEVICE_ENUMERATION in exts && EXT_DEVICE_QUERY in exts)
  }

  /** `device_base` alone suffices; `enumeration` needs `query` beside it, in any order; `drm` does not count. */
  lemma DeviceExtensionExamples()
    ensures DeviceExtensionsPresent([EXT_DEVICE_BASE])
    ensures DeviceExtensionsPresent([EXT_DEVICE_QUERY, EXT_DEVICE_ENUMERATION])
    ensures !DeviceExtensionsPresent([EXT_DEVICE_ENUMERATION])
    ensures !DeviceExtensionsPresent([EXT_DEVICE_QUERY, EXT_DEVICE_DRM])
  {
    assert [EXT_DEVICE_QUERY, EXT_DEVICE_ENUMERATION][1] == EXT_DEVICE_ENUMERATION;
  }

  /** An entry of the list `eglQueryDevicesEXT` fills in. */
  datatype EglDevice = NoDeviceExt | Device(handle: nat, extensions: CString, drmDeviceFile: CString)

  /** The device is a real one, supports `EGL_EXT_device_drm` and names the DRM node `path`. */
  predicate DeviceMatches(d: EglDevice, path: string)
  {
    && d.Device?
    && EXT_DEVICE_DRM in ExtensionList(d.extensions)
    && PathText(d.drmDeviceFile) == path
  }

  /** The position of the first device of `devices[from..]` that matches `path`. */
  function FindDevice(devices: seq<EglDevice>, path: string, from: nat): (r: Option<nat>)
    requires from <= |devices|
    ensures r.Some? ==> from <= r.value < |devices| && DeviceMatches(devices[r.value], path)
    ensures r.Some? ==> forall j :: from <= j < r.value ==> !DeviceMatches(devices[j], path)
    ensures r.None? ==> forall j :: from <= j < |devices| ==> !DeviceMatches(devices[j], path)
    decreases |devices| - from
  {
    if from == |devices| then None
    else if DeviceMatches(devices[from], path) then Some(from)
    else FindDevice(devices, path, from + 1)
  }

  /** What the driver answers while `EGLDeviceEXT::new` runs. */
  datatype DeviceQuery = DeviceQuery(
    clientExtensions: CString,   // eglQueryString(EGL_NO_DISPLAY, EGL_EXTENSIONS)
    clientExtensionsError: u32,  // eglGetError after it
    numDevices: nat,             // eglQueryDevicesEXT(0, NULL, &n)
    numDevicesError: u32,
    devices: seq<EglDevice>,     // eglQueryDevicesEXT(n, list, &n)
    devicesError: u32)

  datatype DeviceError = EglCall(error: EglError) | NoEglDevice

  /**
   * `EGLDeviceEXT::new`: the first EGL device driving the DRM node `path`
   * (the node's name is read from sysfs, which is not modelled).
   */
  function OpenDevice(q: DeviceQuery, path: string): (r: Result<EglDevice, DeviceError>)
    ensures r.Ok? <==>
      && q.clientExtensionsError == SUCCESS
      && DeviceExtensionsPresent(ExtensionList(q.clientExtensions))
      && q.numDevicesError == SUCCESS && q.numDevices > 0
      && q.devicesError == SUCCESS
      && exists i :: 0 <= i < |q.devices| && DeviceMatches(q.devices[i], path)
    ensures r.Ok? ==> r.value in q.devices && DeviceMatches(r.value, path)
    ensures r.Ok? ==> exists i :: 0 <= i < |q.devices| && q.devices[i] == r.value
                                && forall j :: 0 <= j < i ==> !DeviceMatches(q.devices[j], path)
    ensures q.clientExtensionsError == SUCCESS && !DeviceExtensionsPresent(ExtensionList(q.clientExtensions))
      ==> r == Err(NoEglDevice)
  {
    match WrapEglCall(q.clientExtensions, q.clientExtensionsError)
    case Err(e) => Err(EglCall(e))
    case Ok(p) =>
      if !DeviceExtensionsPresent(ExtensionList(p)) then Err(NoEglDevice)
      else match WrapEglCall(q.numDevices, q.numDevicesError)
      case Err(e) => Err(EglCall(e))
      case Ok(n) =>
        if n == 0 then Err(NoEglDevice)
        else match WrapEglCall(q.devices, q.devicesError)
        case Err(e) => Err(EglCall(e))
        case Ok(devices) =>
          match FindDevice(devices, path, 0)
          case None => Err(NoEglDevice)
          case Some(i) => Ok(devices[i])
  }

  // ------------------------------------------------------- stream creation

  /** `EGL_NO_STREAM_KHR` and `EGL_NO_SURFACE`: the null handles. */
  const NO_STREAM: nat := 0
  const NO_SURFACE: nat := 0

  /** The extensions `create_stream` insists on, in the order it checks them. */
  const STREAM_EXTENSIONS: seq<string> := [
    "EGL_EXT_output_base",
    "EGL_EXT_output_drm",
    "EGL_KHR_stream",
    "EGL_NV_output_drm_flip_event",
    "EGL_EXT_stream_consumer_egloutput",
    "EGL_KHR_stream_producer_eglsurface"
  ]

  predicate HasStreamExtensions(exts: seq<string>)
  {
    forall i :: 0 <= i < |STREAM_EXTENSIONS| ==> STREAM_EXTENSIONS[i] in exts
  }

  /** What the driver answers while `create_stream` and `create` run, for the surface's plane. */
  datatype StreamDriver = StreamDriver(
    extensions: CString,          // eglQueryString(display, EGL_EXTENSIONS)
    layerCountOk: bool,           // eglGetOutputLayersEXT(.., NULL, 0, &n) returned EGL_TRUE
    layers: seq<nat>,             // the output layers of the plane, as both layer queries report them
    layerFetchOk: bool,           // eglGetOutputLayersEXT(.., layers, n, &n) returned EGL_TRUE
    minSwapInterval: Option<int>, // EGL_MIN_SWAP_INTERVAL of the layer; None leaves the preset 1
    createdStream: nat,           // eglCreateStreamKHR
    consumerLinked: bool,         // eglStreamConsumerOutputEXT returned EGL_TRUE
    producerSurface: nat)         // eglCreateStreamProducerSurfaceKHR

  /** What a successful `create_stream` set up: the layer used, the swap interval set on it, the stream. */
  datatype StreamSetup = StreamSetup(layer: nat, swapInterval: int, stream: nat)

  /** The swap interval set on the layer: the reported minimum, except that 0 (or no answer) becomes 1. */
  function SwapInterval(reported: Option<int>): (i: int)
    ensures i != 0
    ensures i == 1 || (reported.Some? && i == reported.value)
    ensures reported.Some? && reported.value != 0 ==> i == reported.value
  {
    var v := if reported.Some? then reported.value else 1;
    if v == 0 then 1 else v
  }

  /** The outcome of the guarded sequence of `create_stream`. */
  function StreamCreation(d: StreamDriver): (r: Result<StreamSetup, EglError>)
    ensures r.Ok? <==>
      && HasStreamExtensions(ExtensionList(d.extensions))
      && d.layerCountOk && |d.layers| > 0 && d.layerFetchOk
      && d.createdStream != NO_STREAM && d.consumerLinked
    ensures r.Ok? ==> r.value.layer == d.layers[0] && r.value.stream == d.createdStream
    ensures r.Ok? ==> r.value.swapInterval == SwapInterval(d.minSwapInterval) && r.value.swapInterval != 0
    ensures r.Ok? && (d.minSwapInterval == Some(0) || d.minSwapInterval.None?) ==> r.value.swapInterval == 1
    ensures !HasStreamExtensions(ExtensionList(d.extensions)) ==> r == Err(BadNativeWindow)
    ensures HasStreamExtensions(ExtensionList(d.extensions)) && r.Err? ==> r.error == BadParameter
  {
    if !HasStreamExtensions(ExtensionList(d.extensions)) then Err(BadNativeWindow)
    else if !d.layerCountOk || |d.layers| == 0 then Err(BadParameter)
    else if !d.layerFetchOk then Err(BadParameter)
    else if d.createdStream == NO_STREAM then Err(BadParameter)
    else if !d.consumerLinked then Err(BadParameter)
    else Ok(StreamSetup(d.layers[0], SwapInterval(d.minSwapInterval), d.createdStream))
  }

  // --------------------------------------------------------- presentation

  /** `EGL_DRM_FLIP_EVENT_DATA_NV` and `EGL_NONE`. */
  const DRM_FLIP_EVENT_DATA_NV: int := 0x333E
  const NONE: int := 0x3038

  /** The native calls `swap_buffers` issues, in order. */
  datatype NativeCall = SwapBuffersCall(surface: nat) | ConsumerAcquire(stream: nat, attributes: seq<int>)

  /** smithay's `SwapBuffersError`, the error type of a swap. */
  datatype SwapBuffersError =
    | AlreadySwapped
    | EGLSwapBuffers(error: EglError)
    | EGLCreateWindowSurface(error: EglError)

  /** The attribute list of the manual acquire: a flip event on the CRTC `crtc`. */
  function AcquireAttributes(crtc: nat): seq<int>
  {
    [DRM_FLIP_EVENT_DATA_NV, crtc, NONE]
  }

  /**
   * An EGLStream surface feeding one DRM plane. `stream` is `None` until a
   * stream was created, and again after a resize to another mode.
   */
  class EglStreamSurface {
    var stream: Option<nat>
    const crtc: nat
    const plane: nat
    var surface: nat
    var mode: (int, int)

    /** A recorded stream is never the null stream. */
    ghost predicate Valid()
      reads this
    {
      stream.Some? ==> stream.value != NO_STREAM
    }

    /** `EglStreamSurface::new`: no stream and no producer surface yet. */
    constructor (crtc: nat, plane: nat, mode: (int, int))
      ensures Valid() && NeedsRecreation()
      ensures this.crtc == crtc && this.plane == plane && this.mode == mode
      ensures stream.None? && surface == NO_SURFACE
    {
      this.crtc := crtc;
      this.plane := plane;
      this.mode := mode;
      stream := None;
      surface := NO_SURFACE;
    }

    /**
     * `needs_recreation`: there is no stream, so the next `create` must make
     * one; a surface that needs none has a usable stream when `Valid()`.
     */
    function NeedsRecreation(): (r: bool)
      reads this
      ensures r <==> stream.None?
      ensures !r && Valid() ==> stream.value != NO_STREAM
    {
      stream.None?
    }

    /**
     * `create_stream`: check the extensions, find the plane's output layer,
     * set its swap interval, create the stream and link the layer as its
     * consumer; the stream is recorded only when every step succeeded, and
     * what was set up (layer, swap interval, stream) is returned.
     */
    method CreateStream(d: StreamDriver) returns (r: Result<StreamSetup, EglError>)
      requires Valid()
      requires !d.extensions.Null?
      modifies this`stream
      ensures Valid()
      ensures r == StreamCreation(d)
      ensures stream == if r.Ok? then Some(d.createdStream) else old(stream)
    {
      var extensions := ExtensionList(d.extensions);
      if !HasStreamExtensions(extensions) {
        return Err(BadNativeWindow);
      }
      if !d.layerCountOk {
        return Err(BadParameter);
      }
      if |d.layers| == 0 {
        return Err(BadParameter);
      }
      if !d.layerFetchOk {
        return Err(BadParameter);
      }
      var layer := d.layers[0];
      var interval := 1;
      if d.minSwapInterval.Some? {
        interval := d.minSwapInterval.value;
      }
      if interval == 0 {
        interval := 1;
      }
      var created := d.createdStream;
      if created == NO_STREAM {
        return Err(BadParameter);
      }
      if !d.consumerLinked {
        return Err(BadParameter);
      }
      stream := Some(created);
      return Ok(StreamSetup(layer, interval, created));
    }

    /**
     * `create`: create the stream, then the producer surface of the current
     * mode on it. A null producer surface is only logged, so it is returned
     * and recorded like any other.
     */
    method Create(d: StreamDriver) returns (r: Result<nat, EglError>)
      requires Valid()
      requires !d.extensions.Null?
      modifies this`stream, this`surface
      ensures Valid()
      ensures r.Ok? <==> StreamCreation(d).Ok?
      ensures r.Ok? ==> r.value == d.producerSurface && surface == d.producerSurface
      ensures r.Ok? ==> stream == Some(d.createdStream) && !NeedsRecreation()
      ensures r.Err? ==> r.error == StreamCreation(d).error
      ensures r.Err? ==> stream == old(stream) && surface == old(surface)
    {
      var created := CreateStream(d);
      if created.Err? {
        return Err(created.error);
      }
      surface := d.producerSurface;
      return Ok(d.producerSurface);
    }

    /**
     * `resize`: always accepted; a different mode drops the stream so that it
     * is recreated, the same mode changes nothing.
     */
    method Resize(width: int, height: int) returns (accepted: bool)
      requires Valid()
      modifies this`stream, this`mode
      ensures Valid() && accepted
      ensures old(mode) == (width, height) ==> stream == old(stream) && mode == old(mode)
      ensures old(mode) != (width, height) ==> NeedsRecreation() && mode == (width, height)
    {
      if mode != (width, height) {
        stream := None;
        mode := (width, height);
      }
      return true;
    }

    /**
     * `swap_buffers`: swap the producer surface, then acquire the frame on the
     * consumer side with a flip event for the surface's CRTC. `swapError` and
     * `acquireError` are what `eglGetError` reports after each call; a failed
     * swap stops before the acquire.
     */
    method SwapBuffers(surface: nat, swapError: u32, acquireError: u32)
      returns (r: Result<(), SwapBuffersError>, calls: seq<NativeCall>)
      requires Valid() && !NeedsRecreation()
      ensures 1 <= |calls| <= 2 && calls[0] == SwapBuffersCall(surface)
      ensures |calls| == 2 <==> swapError == SUCCESS
      ensures |calls| == 2 ==> calls[1] == ConsumerAcquire(stream.value, AcquireAttributes(crtc))
      ensures |calls| == 2 ==> calls[1].stream != NO_STREAM
      ensures r.Ok? <==> swapError == SUCCESS && acquireError == SUCCESS
      ensures swapError != SUCCESS ==> r == Err(EGLSwapBuffers(FromCode(swapError)))
      ensures swapError == SUCCESS && acquireError != SUCCESS ==> r == Err(EGLSwapBuffers(FromCode(acquireError)))
    {
      var s := stream.value;
      calls := [SwapBuffersCall(surface)];
      var swapped := WrapEglCall((), swapError);
      if swapped.Err? {
        return Err(EGLSwapBuffers(swapped.error)), calls;
      }
      calls := calls + [ConsumerAcquire(s, AcquireAttributes(crtc))];
      var acquired := WrapEglCall((), acquireError);
      if acquired.Err? {
        return Err(EGLSwapBuffers(acquired.error)), calls;
      }
      return Ok(()), calls;
    }
  }
}

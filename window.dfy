/** The resizable `Window` record (Engine/Window/Window.h, Window.cpp). The
    native SDL window is represented only by whether it exists; resizing and
    renaming the native window are SDL calls the model leaves out. */
module Window {
  import opened Common

  /** Why `Window::init` throws. */
  datatype WindowError = NativeWindowCreationFailed | VulkanExtensionQueryFailed

  /** Dimensions are clamped to at least 1: `v <= 0 ? 1 : v`. */
  function ClampDimension(v: int): (r: int)
    ensures r >= 1
    ensures v >= 1 ==> r == v
    ensures v < 1 ==> r == 1
  {
    if v <= 0 then 1 else v
  }

  class Window {
    /** `_window != nullptr`. */
    var hasNativeWindow: bool
    var stop: bool
    var width: int
    var height: int
    var title: string

    /** Every window has positive dimensions. */
    ghost predicate Valid()
      reads this
    {
      width >= 1 && height >= 1
    }

    /** `Window()`: the constructor body overrides the in-class defaults
        (640, 480, "window") with 800, 600, "Engine"; `_stop` starts false. */
    constructor ()
      ensures Valid()
      ensures !hasNativeWindow && !stop
      ensures width == 800 && height == 600 && title == "Engine"
    {
      hasNativeWindow := false;
      stop := false;
      width := 800;
      height := 600;
      title := "Engine";
    }

    /** `init`: create the native window from the stored title and size
        (`nativeWindowCreated` is whether `SDL_CreateWindow` returned one) and
        fail if there is none; then query the surface extensions SDL needs
        (`extensionsQueried` is whether both queries succeeded) and fail if
        they cannot be listed. The dimensions and title are not changed. */
    method Init(nativeWindowCreated: bool, extensionsQueried: bool) returns (r: Outcome<WindowError>)
      modifies this`hasNativeWindow
      ensures hasNativeWindow == nativeWindowCreated
      ensures !nativeWindowCreated ==> r == Fail(NativeWindowCreationFailed)
      ensures nativeWindowCreated && !extensionsQueried ==> r == Fail(VulkanExtensionQueryFailed)
      ensures nativeWindowCreated && extensionsQueried ==> r == Pass
    {
      hasNativeWindow := nativeWindowCreated;
      if !hasNativeWindow {
        return Fail(NativeWindowCreationFailed);
      }
      if !extensionsQueried {
        return Fail(VulkanExtensionQueryFailed);
      }
      return Pass;
    }

    /** `setWidth`: store the clamped width; nothing else changes. Storing
        the same argument twice leaves the value of storing it once. */
    method SetWidth(w: int)
      requires Valid()
      modifies this`width
      ensures Valid()
      ensures width == ClampDimension(w)
    {
      width := if w <= 0 then 1 else w;
    }

    /** `setHeight`: store the clamped height; nothing else changes. */
    method SetHeight(h: int)
      requires Valid()
      modifies this`height
      ensures Valid()
      ensures height == ClampDimension(h)
    {
      height := if h <= 0 then 1 else h;
    }

    /** `setTitle`: store the title exactly; nothing else changes. */
    method SetTitle(t: string)
      requires Valid()
      modifies this`title
      ensures Valid()
      ensures title == t
    {
      title := t;
    }

    /** `getWidth`. */
    function GetWidth(): (w: int)
      reads this
      ensures w == width
      ensures Valid() ==> w >= 1
    {
      width
    }

    /** `getHeight`. */
    function GetHeight(): (h: int)
      reads this
      ensures h == height
      ensures Valid() ==> h >= 1
    {
      height
    }

    /** `getTitle`. */
    function GetTitle(): (t: string)
      reads this
      ensures t == title
    {
      title
    }

    /** `isStop`: no modelled method changes `stop` after construction. */
    function IsStop(): (s: bool)
      reads this
      ensures s == stop
    {
      stop
    }
  }

  /** Clamping is idempotent: a stored dimension is stored unchanged again. */
  lemma ClampIdempotent(v: int)
    ensures ClampDimension(ClampDimension(v)) == ClampDimension(v)
  {
  }

  /** Setting a dimension twice to the same value is the same as setting it
      once (`widthOnce`, `heightOnce` are the values after the first call),
      and the setters leave the other fields alone. */
  method SettersIdempotent(window: Window, w: int, h: int) returns (widthOnce: int, heightOnce: int)
    requires window.Valid()
    modifies window
    ensures window.Valid()
    ensures widthOnce == ClampDimension(w) && heightOnce == ClampDimension(h)
    ensures window.width == widthOnce && window.height == heightOnce
    ensures window.title == old(window.title) && window.stop == old(window.stop)
  {
    window.SetWidth(w);
    widthOnce := window.GetWidth();
    window.SetWidth(w);
    window.SetHeight(h);
    heightOnce := window.GetHeight();
    window.SetHeight(h);
  }
}

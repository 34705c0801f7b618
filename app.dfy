/** The entry point (Engine/main.cpp): configure a window, then poll events
    until a quit event, resizing the window with the arrow keys.

    `SDL_PollEvent` is replaced by input data: the events each round of the
    outer loop drains, one sequence per round. The SDL and Vulkan setup before
    the window (`initVulkan`) is represented only by whether it succeeded. */
module App {
  import opened Common
  import Window

  const ResizeStep: int := 8
  const ExitSuccess: int := 0
  const ExitFailure: int := 1

  datatype Key = Right | Left | Up | Down | OtherKey(code: int)

  datatype Event =
    | Quit
    | KeyDown(key: Key)
    | OtherEvent

  /** What the loop reads and changes: the window's dimensions and the local `stop` flag. */
  datatype LoopState = LoopState(width: int, height: int, stop: bool)

  ghost predicate ValidState(s: LoopState) {
    s.width >= 1 && s.height >= 1
  }

  /** One case of the event `switch`: only quit touches `stop`, only a key
      press touches a dimension, and valid dimensions stay valid. */
  function Dispatch(s: LoopState, e: Event): (r: LoopState)
    ensures r.stop <==> s.stop || e == Quit
    ensures !e.KeyDown? ==> r.width == s.width && r.height == s.height
    ensures ValidState(s) ==> ValidState(r)
  {
    match e
    case Quit => s.(stop := true)
    case KeyDown(k) =>
      (match k
       case Right => s.(width := Window.ClampDimension(s.width + ResizeStep))
       case Left => s.(width := Window.ClampDimension(s.width - ResizeStep))
       case Up => s.(height := Window.ClampDimension(s.height - ResizeStep))
       case Down => s.(height := Window.ClampDimension(s.height + ResizeStep))
       case OtherKey(_) => s)
    case OtherEvent => s
  }

  /** The events of a sequence dispatched in order. Without key presses the
      dimensions are untouched, and only a quit can set `stop`. */
  function DispatchAll(s: LoopState, events: seq<Event>): (r: LoopState)
    ensures (forall i :: 0 <= i < |events| ==> !events[i].KeyDown?) ==>
      r.width == s.width && r.height == s.height && (r.stop ==> s.stop || Quit in events)
    decreases |events|
  {
    if events == [] then s
    else
      assert forall e :: e in events[1..] ==> e in events;
      DispatchAll(Dispatch(s, events[0]), events[1..])
  }

  /** The arrow keys move one dimension by 8, never below 1; every other key
      and event leaves the state alone except that quit sets `stop`. */
  lemma DispatchEffect(s: LoopState, e: Event)
    requires ValidState(s)
    ensures ValidState(Dispatch(s, e))
    ensures e == KeyDown(Right) ==> Dispatch(s, e) == s.(width := s.width + 8)
    ensures e == KeyDown(Left) ==> Dispatch(s, e) == s.(width := if s.width > 8 then s.width - 8 else 1)
    ensures e == KeyDown(Up) ==> Dispatch(s, e) == s.(height := if s.height > 8 then s.height - 8 else 1)
    ensures e == KeyDown(Down) ==> Dispatch(s, e) == s.(height := s.height + 8)
    ensures e == Quit ==> Dispatch(s, e) == s.(stop := true)
    ensures e == OtherEvent || (e.KeyDown? && e.key.OtherKey?) ==> Dispatch(s, e) == s
  {
  }

  /** RIGHT undoes LEFT, and DOWN undoes UP, exactly when the shrink did not
      hit the floor of 1; growing first can always be undone. */
  lemma ResizeInverses(s: LoopState)
    requires ValidState(s)
    ensures DispatchAll(s, [KeyDown(Right), KeyDown(Left)]) == s
    ensures DispatchAll(s, [KeyDown(Down), KeyDown(Up)]) == s
    ensures DispatchAll(s, [KeyDown(Left), KeyDown(Right)]) == s <==> s.width > 8
    ensures DispatchAll(s, [KeyDown(Up), KeyDown(Down)]) == s <==> s.height > 8
  {
    assert [KeyDown(Right), KeyDown(Left)][1..] == [KeyDown(Left)];
    assert [KeyDown(Down), KeyDown(Up)][1..] == [KeyDown(Up)];
    assert [KeyDown(Left), KeyDown(Right)][1..] == [KeyDown(Right)];
    assert [KeyDown(Up), KeyDown(Down)][1..] == [KeyDown(Down)];
  }

  /** Dispatching keeps both dimensions at least 1. */
  lemma {:induction false} DispatchAllValid(s: LoopState, events: seq<Event>)
    requires ValidState(s)
    ensures ValidState(DispatchAll(s, events))
    decreases |events|
  {
    if events != [] {
      DispatchEffect(s, events[0]);
      DispatchAllValid(Dispatch(s, events[0]), events[1..]);
    }
  }

  /** After a sequence of events `stop` is set exactly when it was already
      set or the sequence holds a quit event. */
  lemma {:induction false} DispatchAllStop(s: LoopState, events: seq<Event>)
    ensures DispatchAll(s, events).stop <==> s.stop || Quit in events
    decreases |events|
  {
    if events != [] {
      DispatchAllStop(Dispatch(s, events[0]), events[1..]);
      assert events == [events[0]] + events[1..];
      assert Quit in events <==> events[0] == Quit || Quit in events[1..];
    }
  }

  /** Dispatching `a + b` is dispatching `a`, then `b`. */
  lemma {:induction false} DispatchAllAppend(s: LoopState, a: seq<Event>, b: seq<Event>)
    ensures DispatchAll(s, a + b) == DispatchAll(DispatchAll(s, a), b)
    decreases |a|
  {
    if a == [] {
      assert a + b == b;
    } else {
      assert (a + b)[0] == a[0];
      assert (a + b)[1..] == a[1..] + b;
      DispatchAllAppend(Dispatch(s, a[0]), a[1..], b);
    }
  }

  function Flatten(rounds: seq<seq<Event>>): seq<Event>
    decreases |rounds|
  {
    if rounds == [] then [] else Flatten(rounds[..|rounds| - 1]) + rounds[|rounds| - 1]
  }

  /** The inner `while (SDL_PollEvent(&event))` loop: dispatch every pending
      event of one round. A quit event does not end the round: the events
      after it are still handled. */
  method DrainEvents(window: Window.Window, events: seq<Event>, stop: bool) returns (stopped: bool)
    requires window.Valid()
    modifies window
    ensures window.Valid()
    ensures LoopState(window.width, window.height, stopped)
         == DispatchAll(LoopState(old(window.width), old(window.height), stop), events)
    ensures window.title == old(window.title) && window.stop == old(window.stop)
    ensures window.hasNativeWindow == old(window.hasNativeWindow)
  {
    stopped := stop;
    var i := 0;
    while i < |events|
      invariant 0 <= i <= |events|
      invariant window.Valid()
      invariant DispatchAll(LoopState(window.width, window.height, stopped), events[i..])
             == DispatchAll(LoopState(old(window.width), old(window.height), stop), events)
      invariant window.title == old(window.title) && window.stop == old(window.stop)
      invariant window.hasNativeWindow == old(window.hasNativeWindow)
    {
      ghost var before := LoopState(window.width, window.height, stopped);
      match events[i] {
        case Quit =>
          stopped := true;
        case KeyDown(k) =>
          match k {
            case Right =>
              window.SetWidth(window.GetWidth() + ResizeStep);
            case Left =>
              window.SetWidth(window.GetWidth() - ResizeStep);
            case Up =>
              window.SetHeight(window.GetHeight() - ResizeStep);
            case Down =>
              window.SetHeight(window.GetHeight() + ResizeStep);
            case OtherKey(_) =>
          }
        case OtherEvent =>
      }
      assert LoopState(window.width, window.height, stopped) == Dispatch(before, events[i]);
      assert events[i..][1..] == events[i + 1..];
      i := i + 1;
    }
  }

  /** The outer `while (!stop)` loop over the rounds of polling: it ends after
      the first round that holds a quit event; with no such round it runs until
      the input is exhausted (the program itself would keep polling). */
  method RunEventLoop(window: Window.Window, rounds: seq<seq<Event>>) returns (stop: bool, roundsRun: nat)
    requires window.Valid()
    modifies window
    ensures window.Valid()
    ensures roundsRun <= |rounds|
    ensures LoopState(window.width, window.height, stop)
         == DispatchAll(LoopState(old(window.width), old(window.height), false), Flatten(rounds[..roundsRun]))
    ensures stop <==> exists k :: 0 <= k < |rounds| && Quit in rounds[k]
    ensures stop ==> roundsRun > 0 && Quit in rounds[roundsRun - 1]
    ensures forall k :: 0 <= k < roundsRun - 1 ==> Quit !in rounds[k]
    ensures !stop ==> roundsRun == |rounds|
    ensures window.title == old(window.title) && window.stop == old(window.stop)
    ensures window.hasNativeWindow == old(window.hasNativeWindow)
  {
    stop := false;
    roundsRun := 0;
    while !stop && roundsRun < |rounds|
      invariant 0 <= roundsRun <= |rounds|
      invariant window.Valid()
      invariant LoopState(window.width, window.height, stop)
             == DispatchAll(LoopState(old(window.width), old(window.height), false), Flatten(rounds[..roundsRun]))
      invariant stop ==> roundsRun > 0 && Quit in rounds[roundsRun - 1]
      invariant forall k :: 0 <= k < roundsRun - 1 ==> Quit !in rounds[k]
      invariant !stop ==> forall k :: 0 <= k < roundsRun ==> Quit !in rounds[k]
      invariant window.title == old(window.title) && window.stop == old(window.stop)
      invariant window.hasNativeWindow == old(window.hasNativeWindow)
    {
      ghost var before := LoopState(window.width, window.height, stop);
      stop := DrainEvents(window, rounds[roundsRun], stop);
      DispatchAllStop(before, rounds[roundsRun]);
      assert rounds[..roundsRun + 1][..roundsRun] == rounds[..roundsRun];
      DispatchAllAppend(LoopState(old(window.width), old(window.height), false),
                        Flatten(rounds[..roundsRun]), rounds[roundsRun]);
      roundsRun := roundsRun + 1;
    }
  }

  /** Before the loop: a new window set to 1024 x 768 titled "Hello world",
      then `init`. */
  method ConfigureWindow(nativeWindowCreated: bool, extensionsQueried: bool)
    returns (window: Window.Window, initOutcome: Outcome<Window.WindowError>)
    ensures fresh(window) && window.Valid()
    ensures window.width == 1024 && window.height == 768 && window.title == "Hello world"
    ensures !window.stop && window.hasNativeWindow == nativeWindowCreated
    ensures initOutcome == Pass <==> nativeWindowCreated && extensionsQueried
  {
    window := new Window.Window();
    window.SetWidth(1024);
    window.SetHeight(768);
    window.SetTitle("Hello world");
    initOutcome := window.Init(nativeWindowCreated, extensionsQueried);
  }

  /** How `main` ends: with an exit code, by an exception nothing catches
      (the one `Window::init` throws), or not within the given input. */
  datatype Termination = Exited(code: int) | UncaughtException | StillPolling

  /** `main`: exit with failure when setup fails, before any window exists;
      otherwise configure and initialise the window (a failure there escapes
      `main`) and run the event loop, exiting with success once a quit event
      arrives. */
  method Run(setupSucceeded: bool, nativeWindowCreated: bool, extensionsQueried: bool,
             rounds: seq<seq<Event>>) returns (t: Termination)
    ensures !setupSucceeded ==> t == Exited(ExitFailure)
    ensures setupSucceeded && !(nativeWindowCreated && extensionsQueried) ==> t == UncaughtException
    ensures setupSucceeded && nativeWindowCreated && extensionsQueried ==>
      (t == Exited(ExitSuccess) <==> exists k :: 0 <= k < |rounds| && Quit in rounds[k])
    ensures setupSucceeded && nativeWindowCreated && extensionsQueried ==>
      t == Exited(ExitSuccess) || t == StillPolling
  {
    if !setupSucceeded {
      return Exited(ExitFailure);
    }
    var window, initOutcome := ConfigureWindow(nativeWindowCreated, extensionsQueried);
    if initOutcome.Fail? {
      return UncaughtException;
    }
    var stop, _ := RunEventLoop(window, rounds);
    if stop {
      return Exited(ExitSuccess);
    }
    return StillPolling;
  }
}

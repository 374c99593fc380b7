/** The handler-accounting state machine of the grawt shutdown coordinator, on values.

    A `WaiterState` is what one `Waiter` holds: its registry of close handlers (append-only,
    in registration order), the counter of its `sync.WaitGroup` and the `blockingMode` flag.
    A `HandlerState` is what one `CloseHandler` holds: `active`, `autoDone`, whether its
    `Quit` channel is closed, its callback, and how many times that callback has run.

    Each operation of waiter.go and close_handler.go is a function from the old state to the
    new one (and, where the Go code can panic or exit, to an outcome). The classes in module
    Grawt are proved to follow these functions step for step. */
module Semantics {

  datatype Option<T> = None | Some(value: T)

  /** The value of a Go `func()`: nil or some function whose body is not modelled. */
  datatype FuncValue = NilFunc | SomeFunc

  /** The `*func()` stored in a handler: a nil pointer, or a pointer to a `func()` value. */
  datatype Callback = NilPointer | PointerTo(target: FuncValue)

  /** `h.handlerFunc != nil && *h.handlerFunc != nil`: the callback is actually called. */
  predicate Invokes(cb: Callback)
  {
    cb.PointerTo? && cb.target.SomeFunc?
  }

  /** Number of times one call of `terminateHandler` runs the callback. */
  function Runs(cb: Callback): nat
  {
    if Invokes(cb) then 1 else 0
  }

  datatype HandlerState = HandlerState(
    active: bool,
    autoDone: bool,
    quitClosed: bool,
    callback: Callback,
    calls: nat)

  datatype WaiterState = WaiterState(
    handlers: seq<HandlerState>,
    counter: int,
    blockingMode: bool)

  /** The two Go runtime panics `terminateHandler` can raise. */
  datatype PanicReason =
    | NegativeCounter       // sync: negative WaitGroup counter
    | CloseOfClosedChannel  // close of closed channel

  /** How one `terminateHandler` call ends. */
  datatype Status = Normal | Panic(reason: PanicReason)

  /** How one `Halt` call ends: `os.Exit(code)`, a normal return, or a panic from the sweep. */
  datatype Outcome = Exit(code: int) | Returned | Panicked(reason: PanicReason)

  /** `NewWaiter`: empty registry, counter 0, not blocking. */
  function NewWaiter(): WaiterState
  {
    WaiterState([], 0, false)
  }

  /** A handler as `addHandler` builds it: active, `Quit` open, never called. */
  function Registered(cb: Callback, autoDone: bool): HandlerState
  {
    HandlerState(true, autoDone, false, cb, 0)
  }

  /** `addHandler`: append one handler at the end and add one to the counter. */
  function AddHandler(w: WaiterState, cb: Callback, autoDone: bool): (r: WaiterState)
    ensures |r.handlers| == |w.handlers| + 1
    ensures r.handlers[..|w.handlers|] == w.handlers
    ensures r.handlers[|w.handlers|] == Registered(cb, autoDone)
    ensures r.counter == w.counter + 1 && r.blockingMode == w.blockingMode
  {
    w.(handlers := w.handlers + [Registered(cb, autoDone)], counter := w.counter + 1)
  }

  /** `AddCloseHandler(f, waitForChannel)`: registers a pointer to `f` (never a nil pointer),
      in auto-done mode exactly when the caller does not wait for the channel. */
  function AddCloseHandler(w: WaiterState, f: FuncValue, waitForChannel: bool): (r: WaiterState)
    ensures |r.handlers| == |w.handlers| + 1 && r.counter == w.counter + 1
    ensures r.handlers[..|w.handlers|] == w.handlers
    ensures var h := r.handlers[|w.handlers|];
      h.active && !h.quitClosed && h.calls == 0 &&
      h.autoDone == !waitForChannel && (Invokes(h.callback) <==> f.SomeFunc?)
  {
    AddHandler(w, PointerTo(f), !waitForChannel)
  }

  /** `terminateHandler(h, force)` for the handler at index `i`: run the callback when there is
      one, close `Quit` when the handler is active, call `waitGroup.Done()` when the handler is
      auto-done or the decrement is forced, then mark the handler inactive. A panic in the
      close or in the decrement leaves the steps after it undone. */
  function TerminateHandler(w: WaiterState, i: nat, force: bool): (r: (WaiterState, Status))
    requires i < |w.handlers|
    ensures |r.0.handlers| == |w.handlers| && r.0.blockingMode == w.blockingMode
    ensures forall j :: 0 <= j < |w.handlers| && j != i ==> r.0.handlers[j] == w.handlers[j]
    ensures var h, h' := w.handlers[i], r.0.handlers[i];
      && h'.autoDone == h.autoDone && h'.callback == h.callback
      // the callback runs on every call, active or not
      && h'.calls == h.calls + Runs(h.callback)
      // a second close of `Quit` is the only way to `close of closed channel`
      && (r.1 == Panic(CloseOfClosedChannel) <==> h.active && h.quitClosed)
      && (r.1 == Panic(CloseOfClosedChannel) ==> h'.active == h.active && h'.quitClosed && r.0.counter == w.counter)
      // otherwise `Quit` is closed exactly if it was closed or the handler was active
      && (r.1 != Panic(CloseOfClosedChannel) ==>
            h'.quitClosed == (h.quitClosed || h.active) &&
            r.0.counter == w.counter - (if h.autoDone || force then 1 else 0))
      && (r.1 == Panic(NegativeCounter) <==>
            !(h.active && h.quitClosed) && (h.autoDone || force) && w.counter <= 0)
      && (r.1.Panic? ==> h'.active == h.active)
      && (r.1 == Normal ==> !h'.active)
  {
    var h := w.handlers[i];
    var called := h.(calls := h.calls + Runs(h.callback));
    if h.active && h.quitClosed then
      (w.(handlers := w.handlers[i := called]), Panic(CloseOfClosedChannel))
    else
      var closed := called.(quitClosed := h.quitClosed || h.active);
      if h.autoDone || force then
        if w.counter - 1 < 0 then
          (w.(handlers := w.handlers[i := closed], counter := w.counter - 1), Panic(NegativeCounter))
        else
          (w.(handlers := w.handlers[i := closed.(active := false)], counter := w.counter - 1), Normal)
      else
        (w.(handlers := w.handlers[i := closed.(active := false)]), Normal)
  }

  /** `CloseHandler.Done` on the handler at index `i`: `terminateHandler` with the decrement forced. */
  function Done(w: WaiterState, i: nat): (r: (WaiterState, Status))
    requires i < |w.handlers|
    ensures |r.0.handlers| == |w.handlers|
    ensures var h, h' := w.handlers[i], r.0.handlers[i];
      // Done always decrements, even for an inactive handler
      && (r.1 != Panic(CloseOfClosedChannel) ==> r.0.counter == w.counter - 1)
      // on an inactive handler it never touches `Quit`
      && (!h.active ==> r.1 != Panic(CloseOfClosedChannel) && h'.quitClosed == h.quitClosed && !h'.active)
      && (h.active && !h.quitClosed && r.1 == Normal ==> h'.quitClosed && !h'.active)
      && h'.calls == h.calls + Runs(h.callback)
  {
    TerminateHandler(w, i, true)
  }

  /** The loop of `Halt` from index `i` on: `terminateHandler(h, false)` on every handler that
      is still active when the loop reaches it, in registration order, stopping at a panic. */
  function SweepFrom(w: WaiterState, i: nat): (r: (WaiterState, Status))
    requires i <= |w.handlers|
    decreases |w.handlers| - i
  {
    if i == |w.handlers| then (w, Normal)
    else if !w.handlers[i].active then SweepFrom(w, i + 1)
    else
      var (w1, s) := TerminateHandler(w, i, false);
      if s.Panic? then (w1, s) else SweepFrom(w1, i + 1)
  }

  /** `Halt(err)`: the sweep, then (unless it panicked) `os.Exit(1)` for an error and
      `os.Exit(0)` otherwise when not in blocking mode, a normal return in blocking mode. */
  function Halt(w: WaiterState, err: Option<string>): (r: (WaiterState, Outcome))
    ensures |r.0.handlers| == |w.handlers| && r.0.blockingMode == w.blockingMode
    ensures r.1.Exit? ==> !w.blockingMode && r.1.code == (if err.Some? then 1 else 0)
    ensures r.1 == Returned ==> w.blockingMode
    ensures r.1.Panicked? <==> SweepFrom(w, 0).1.Panic?
  {
    var (w1, s) := SweepFrom(w, 0);
    SweepKeepsMode(w, 0);
    if s.Panic? then (w1, Panicked(s.reason))
    else if !w1.blockingMode then (w1, Exit(if err.Some? then 1 else 0))
    else (w1, Returned)
  }

  /** The sweep changes neither the number of handlers nor the mode. */
  lemma {:induction false} SweepKeepsMode(w: WaiterState, i: nat)
    requires i <= |w.handlers|
    ensures |SweepFrom(w, i).0.handlers| == |w.handlers|
    ensures SweepFrom(w, i).0.blockingMode == w.blockingMode
    decreases |w.handlers| - i
  {
    if i < |w.handlers| {
      if !w.handlers[i].active {
        SweepKeepsMode(w, i + 1);
      } else {
        var (w1, s) := TerminateHandler(w, i, false);
        if !s.Panic? {
          SweepKeepsMode(w1, i + 1);
        }
      }
    }
  }

  /** The state side of `Wait`: it enters blocking mode and changes nothing else. */
  function Wait(w: WaiterState): (r: WaiterState)
    ensures r.blockingMode
    ensures r.handlers == w.handlers && r.counter == w.counter
  {
    w.(blockingMode := true)
  }

  /** `waitGroup.Wait()` inside `Wait` may return exactly when the counter is zero. */
  predicate WaitMayReturn(w: WaiterState)
  {
    w.counter == 0
  }
}

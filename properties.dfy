/** What the handler accounting of grawt guarantees, and what it does not, proved about the
    functions of module Semantics: the effect of the `Halt` sweep, the counter deltas, the
    exit decision, `Done` before and after a sweep, and invariants along any sequence of calls
    starting from `NewWaiter`. */
module Properties {
  import opened Semantics

  /** A handler after the sweep has reached it: an active one has run its callback, closed
      `Quit` and become inactive; an inactive one is left exactly as it was. */
  function Swept(h: HandlerState): (r: HandlerState)
  {
    if h.active then h.(active := false, quitClosed := true, calls := h.calls + Runs(h.callback))
    else h
  }

  /** Handlers from index `i` on that are active and auto-done: those whose decrement the
      sweep performs. */
  function CountActiveAuto(hs: seq<HandlerState>, i: nat): nat
    decreases |hs| - i
  {
    if i >= |hs| then 0
    else (if hs[i].active && hs[i].autoDone then 1 else 0) + CountActiveAuto(hs, i + 1)
  }

  lemma {:induction false} CountActiveAutoAgrees(hs: seq<HandlerState>, hs': seq<HandlerState>, i: nat)
    requires |hs| == |hs'|
    requires forall j :: i <= j < |hs| ==> hs[j] == hs'[j]
    ensures CountActiveAuto(hs, i) == CountActiveAuto(hs', i)
    decreases |hs| - i
  {
    if i < |hs| {
      CountActiveAutoAgrees(hs, hs', i + 1);
    }
  }

  /** The state invariant of every waiter reachable without a panic: the counter is not
      negative, and `Quit` is closed exactly for the handlers that are no longer active. */
  predicate Inv(w: WaiterState)
  {
    && w.counter >= 0
    && forall j :: 0 <= j < |w.handlers| ==> (w.handlers[j].quitClosed <==> !w.handlers[j].active)
  }

  /** `terminateHandler` under the invariant: `Quit` is never closed twice, the decrement
      panics exactly when it is due and the counter is already zero, and a normal return
      keeps the invariant. */
  lemma TerminateUnderInv(w: WaiterState, i: nat, force: bool)
    requires Inv(w) && i < |w.handlers|
    ensures var (r, s) := TerminateHandler(w, i, force);
      && s != Panic(CloseOfClosedChannel)
      && (s == Panic(NegativeCounter) <==> (w.handlers[i].autoDone || force) && w.counter == 0)
      && (s == Normal ==> Inv(r))
  {
  }

  /** The sweep from index `i`: handlers before `i` are never touched; when it ends normally,
      every handler from `i` on is `Swept` and the counter has dropped by exactly the number
      of active auto-done handlers there; when it panics, it has swept a prefix in
      registration order, stopped at an active handler, and left all later ones alone. */
  lemma {:induction false} SweepFromEffect(w: WaiterState, i: nat)
    requires i <= |w.handlers|
    ensures var (r, s) := SweepFrom(w, i);
      && |r.handlers| == |w.handlers| && r.blockingMode == w.blockingMode
      && (forall j :: 0 <= j < i ==> r.handlers[j] == w.handlers[j])
      && (s == Normal ==>
            && (forall j :: i <= j < |w.handlers| ==> r.handlers[j] == Swept(w.handlers[j]))
            && r.counter == w.counter - CountActiveAuto(w.handlers, i))
      && (s.Panic? ==>
            exists k :: i <= k < |w.handlers| && w.handlers[k].active &&
              (forall j :: i <= j < k ==> r.handlers[j] == Swept(w.handlers[j])) &&
              (forall j :: k < j < |w.handlers| ==> r.handlers[j] == w.handlers[j]))
    decreases |w.handlers| - i
  {
    if i < |w.handlers| {
      if !w.handlers[i].active {
        SweepFromEffect(w, i + 1);
        var (r, s) := SweepFrom(w, i + 1);
        if s.Panic? {
          var k :| i + 1 <= k < |w.handlers| && w.handlers[k].active &&
            (forall j :: i + 1 <= j < k ==> r.handlers[j] == Swept(w.handlers[j])) &&
            (forall j :: k < j < |w.handlers| ==> r.handlers[j] == w.handlers[j]);
          assert r.handlers[i] == Swept(w.handlers[i]);
        }
      } else {
        var (w1, s1) := TerminateHandler(w, i, false);
        if s1.Panic? {
          assert forall j :: i < j < |w.handlers| ==> w1.handlers[j] == w.handlers[j];
        } else {
          SweepFromEffect(w1, i + 1);
          CountActiveAutoAgrees(w.handlers, w1.handlers, i + 1);
          var (r, s) := SweepFrom(w1, i + 1);
          assert r.handlers[i] == w1.handlers[i] == Swept(w.handlers[i]);
          if s.Panic? {
            var k :| i + 1 <= k < |w.handlers| && w1.handlers[k].active &&
              (forall j :: i + 1 <= j < k ==> r.handlers[j] == Swept(w1.handlers[j])) &&
              (forall j :: k < j < |w.handlers| ==> r.handlers[j] == w1.handlers[j]);
            assert w.handlers[k].active;
          }
        }
      }
    }
  }

  /** The sweep under the invariant: it never closes a `Quit` twice, it ends normally if and
      only if the counter covers every pending auto-done decrement, and then the invariant
      still holds. */
  lemma {:induction false} SweepFromUnderInv(w: WaiterState, i: nat)
    requires Inv(w) && i <= |w.handlers|
    ensures var (r, s) := SweepFrom(w, i);
      && s != Panic(CloseOfClosedChannel)
      && (s == Normal <==> w.counter >= CountActiveAuto(w.handlers, i))
      && (s == Normal ==> Inv(r))
    decreases |w.handlers| - i
  {
    if i < |w.handlers| {
      if !w.handlers[i].active {
        SweepFromUnderInv(w, i + 1);
      } else {
        TerminateUnderInv(w, i, false);
        var (w1, s1) := TerminateHandler(w, i, false);
        if !s1.Panic? {
          SweepFromUnderInv(w1, i + 1);
          CountActiveAutoAgrees(w.handlers, w1.handlers, i + 1);
        }
      }
    }
  }

  /** `Halt(err)` as a whole. Unless the sweep panicked: every handler is inactive, the
      handlers that were already inactive are untouched (no callback run, no decrement), the
      active ones have run their callback once and closed `Quit`, the counter has dropped by
      the number of active auto-done handlers, and the outcome is `os.Exit(1)` for an error,
      `os.Exit(0)` without one, or a normal return in blocking mode. */
  lemma HaltEffect(w: WaiterState, err: Option<string>)
    ensures var (r, o) := Halt(w, err);
      && |r.handlers| == |w.handlers| && r.blockingMode == w.blockingMode
      && (!o.Panicked? ==>
            && (forall j :: 0 <= j < |w.handlers| ==> !r.handlers[j].active)
            && (forall j :: 0 <= j < |w.handlers| ==> r.handlers[j] == Swept(w.handlers[j]))
            // corollary of the line above, spelled out: inactive handlers are untouched
            && (forall j :: 0 <= j < |w.handlers| && !w.handlers[j].active ==> r.handlers[j] == w.handlers[j])
            && r.counter == w.counter - CountActiveAuto(w.handlers, 0)
            && o == (if w.blockingMode then Returned
                     else if err.Some? then Exit(1) else Exit(0)))
  {
    SweepFromEffect(w, 0);
  }

  /** `Halt(err)` on a reachable state: it panics (a negative wait-group counter) exactly when
      fewer units are outstanding than there are active auto-done handlers, it never closes a
      `Quit` twice, and otherwise the invariant still holds. */
  lemma HaltUnderInv(w: WaiterState, err: Option<string>)
    requires Inv(w)
    ensures var (r, o) := Halt(w, err);
      && o != Panicked(CloseOfClosedChannel)
      && (o.Panicked? <==> w.counter < CountActiveAuto(w.handlers, 0))
      && (!o.Panicked? ==> Inv(r))
  {
    SweepFromUnderInv(w, 0);
  }

  /** After `Wait`, `Halt` never exits the process: it returns (or panics). */
  lemma WaitThenHalt(w: WaiterState, err: Option<string>)
    ensures Halt(Wait(w), err).1 == Returned || Halt(Wait(w), err).1.Panicked?
  {
  }

  /** `Done` on an auto-done handler after a sweep (in blocking mode) has already completed it:
      the callback runs a second time, `Quit` is not closed again, and the counter is
      decremented a second time for the same handler, which panics when the counter is
      already zero. */
  lemma DoneAfterHalt(w: WaiterState, err: Option<string>, i: nat)
    requires Inv(w) && i < |w.handlers|
    requires w.handlers[i].active && w.handlers[i].autoDone
    requires Halt(w, err).1 == Returned
    ensures var w1 := Halt(w, err).0;
      var (w2, s) := Done(w1, i);
      && w1.counter == w.counter - CountActiveAuto(w.handlers, 0)
      && CountActiveAuto(w.handlers, 0) >= 1
      && s != Panic(CloseOfClosedChannel)
      && (s == Panic(NegativeCounter) <==> w1.counter == 0)
      && w2.counter == w1.counter - 1
      && w2.handlers[i].quitClosed && !w2.handlers[i].active
      && w2.handlers[i].calls == w.handlers[i].calls + 2 * Runs(w.handlers[i].callback)
  {
    HaltEffect(w, err);
    HaltUnderInv(w, err);
    var w1 := Halt(w, err).0;
    TerminateUnderInv(w1, i, true);
    CountActiveAutoPositive(w.handlers, 0, i);
  }

  lemma {:induction false} CountActiveAutoPositive(hs: seq<HandlerState>, i: nat, k: nat)
    requires i <= k < |hs| && hs[k].active && hs[k].autoDone
    ensures CountActiveAuto(hs, i) >= 1
    decreases k - i
  {
    if i < k {
      CountActiveAutoPositive(hs, i + 1, k);
    }
  }

  /** `Done` on an active handler before any halt: it closes `Quit` and completes the
      handler, so the later sweep skips it — the callback has run once and the counter was
      decremented once for it, by `Done`, whatever its mode. */
  lemma DoneThenHalt(w: WaiterState, i: nat, err: Option<string>)
    requires Inv(w) && i < |w.handlers| && w.handlers[i].active
    requires Done(w, i).1 == Normal
    ensures var (w1, _) := Done(w, i);
      var (w2, o) := Halt(w1, err);
      && w1.counter == w.counter - 1
      && (!o.Panicked? ==>
            && w2.handlers[i] == w1.handlers[i]
            && w2.handlers[i].quitClosed && !w2.handlers[i].active
            && w2.handlers[i].calls == w.handlers[i].calls + Runs(w.handlers[i].callback))
  {
    var (w1, _) := Done(w, i);
    HaltEffect(w1, err);
  }

  // ---------------------------------------------------------------------------------------
  // Any sequence of calls

  /** The calls a program makes on one waiter. `DoneCall(k)` is `Done` on the k-th registered
      handler (ignored when there is none); `HaltCall` is `Waiter.Halt` or `CloseHandler.Halt`,
      which forwards to it; `WaitCall` is the state side of `Wait`. */
  datatype Call =
    | AddCall(f: FuncValue, waitForChannel: bool)
    | DoneCall(handler: nat)
    | HaltCall(err: Option<string>)
    | WaitCall

  /** One call: the new state, and `Some` outcome when the process stops there (it exited or
      panicked). */
  function Step(w: WaiterState, c: Call): (WaiterState, Option<Outcome>)
  {
    match c
    case AddCall(f, waitForChannel) => (AddCloseHandler(w, f, waitForChannel), None)
    case DoneCall(k) =>
      if k < |w.handlers| then
        var (w1, s) := Done(w, k);
        (w1, if s.Panic? then Some(Panicked(s.reason)) else None)
      else (w, None)
    case HaltCall(err) =>
      var (w1, o) := Halt(w, err);
      (w1, if o == Returned then None else Some(o))
    case WaitCall => (Wait(w), None)
  }

  /** A sequence of calls, up to the first one that stops the process. */
  function Run(w: WaiterState, calls: seq<Call>): (WaiterState, Option<Outcome>)
    decreases |calls|
  {
    if calls == [] then (w, None)
    else
      var (w1, o) := Step(w, calls[0]);
      if o.Some? then (w1, o) else Run(w1, calls[1..])
  }

  /** How one handler's state may evolve: mode and callback are fixed, the callback count
      only rises, a closed `Quit` stays closed and an inactive handler never becomes active. */
  predicate Persists(h: HandlerState, h': HandlerState)
  {
    && h'.autoDone == h.autoDone && h'.callback == h.callback
    && h.calls <= h'.calls
    && (h.quitClosed ==> h'.quitClosed)
    && (!h.active ==> !h'.active)
  }

  /** The registry only grows, and every handler already in it persists. */
  predicate Grows(w: WaiterState, w': WaiterState)
  {
    && |w.handlers| <= |w'.handlers|
    && forall j :: 0 <= j < |w.handlers| ==> Persists(w.handlers[j], w'.handlers[j])
  }

  lemma StepGrows(w: WaiterState, c: Call)
    ensures Grows(w, Step(w, c).0)
  {
    match c
    case AddCall(f, waitForChannel) =>
    case DoneCall(k) =>
    case HaltCall(err) =>
      SweepFromGrows(w, 0);
    case WaitCall =>
  }

  /** The sweep, panicking or not, only ever lets handlers persist. */
  lemma {:induction false} SweepFromGrows(w: WaiterState, i: nat)
    requires i <= |w.handlers|
    ensures Grows(w, SweepFrom(w, i).0)
    decreases |w.handlers| - i
  {
    if i < |w.handlers| {
      if !w.handlers[i].active {
        SweepFromGrows(w, i + 1);
      } else {
        var (w1, s1) := TerminateHandler(w, i, false);
        if !s1.Panic? {
          SweepFromGrows(w1, i + 1);
          GrowsTransitive(w, w1, SweepFrom(w1, i + 1).0);
        }
      }
    }
  }

  /** One call from a reachable state: never a second close of a `Quit`, and the invariant
      holds again unless the process stopped. */
  lemma StepUnderInv(w: WaiterState, c: Call)
    requires Inv(w)
    ensures Step(w, c).1 != Some(Panicked(CloseOfClosedChannel))
    ensures Step(w, c).1.None? ==> Inv(Step(w, c).0)
  {
    match c
    case AddCall(f, waitForChannel) =>
    case DoneCall(k) =>
      if k < |w.handlers| {
        TerminateUnderInv(w, k, true);
      }
    case HaltCall(err) =>
      HaltUnderInv(w, err);
    case WaitCall =>
  }

  /** Along any sequence of calls from `NewWaiter` (or any state satisfying the invariant):
      no `Quit` channel is ever closed twice, so each is closed at most once; the registry
      only grows and its handlers persist; and while the process runs the invariant holds,
      so `Quit` is closed exactly for the handlers that are no longer active. */
  lemma {:induction false} RunUnderInv(w: WaiterState, calls: seq<Call>)
    requires Inv(w)
    ensures Run(w, calls).1 != Some(Panicked(CloseOfClosedChannel))
    ensures Run(w, calls).1.None? ==> Inv(Run(w, calls).0)
    ensures Grows(w, Run(w, calls).0)
    decreases |calls|
  {
    if calls != [] {
      StepUnderInv(w, calls[0]);
      StepGrows(w, calls[0]);
      var (w1, o) := Step(w, calls[0]);
      if o.None? {
        RunUnderInv(w1, calls[1..]);
        GrowsTransitive(w, w1, Run(w1, calls[1..]).0);
      }
    }
  }

  lemma GrowsTransitive(a: WaiterState, b: WaiterState, c: WaiterState)
    requires Grows(a, b) && Grows(b, c)
    ensures Grows(a, c)
  {
  }

  lemma RunFromNewWaiter(calls: seq<Call>)
    ensures Run(NewWaiter(), calls).1 != Some(Panicked(CloseOfClosedChannel))
    ensures Run(NewWaiter(), calls).1.None? ==> Inv(Run(NewWaiter(), calls).0)
  {
    RunUnderInv(NewWaiter(), calls);
  }

  // ---------------------------------------------------------------------------------------
  // Scenarios

  /** Three handlers: (a) auto-done with a callback, (b) waiting for its channel with a
      callback, (c) auto-done without a callback; then `Wait` and `Halt` with an error. The
      callbacks of (a) and (b) run once, every `Quit` is closed, the counter drops from 3 to
      1 only (the decrements of (a) and (c)), and after (b)'s `Done` it is 0, so `Wait` may
      return. */
  lemma ThreeHandlersScenario()
    ensures
      var w0 := AddCloseHandler(AddCloseHandler(AddCloseHandler(NewWaiter(), SomeFunc, false), SomeFunc, true), NilFunc, false);
      var (w1, o) := Halt(Wait(w0), Some("fatal"));
      var (w2, s) := Done(w1, 1);
      && w0.counter == 3
      && o == Returned
      && w1.counter == 1 && !WaitMayReturn(w1)
      && w1.handlers[0].calls == 1 && w1.handlers[1].calls == 1 && w1.handlers[2].calls == 0
      && w1.handlers[0].quitClosed && w1.handlers[1].quitClosed && w1.handlers[2].quitClosed
      && s == Normal && w2.counter == 0 && WaitMayReturn(w2)
  {
    var w0 := AddCloseHandler(AddCloseHandler(AddCloseHandler(NewWaiter(), SomeFunc, false), SomeFunc, true), NilFunc, false);
    assert Inv(Wait(w0));
    assert CountActiveAuto(w0.handlers, 0) == 2;
    HaltUnderInv(Wait(w0), Some("fatal"));
    HaltEffect(Wait(w0), Some("fatal"));
  }

  /** One auto-done handler, `Wait`, then `Halt` and the handler's own `Done`: the sweep has
      already taken the handler's unit off the counter, `Done` takes it off again, and the
      wait group panics with a negative counter. */
  lemma DoneAfterHaltPanics()
    ensures
      var w0 := AddCloseHandler(Wait(NewWaiter()), SomeFunc, false);
      var (w1, o) := Halt(w0, None);
      && o == Returned && w1.counter == 0 && w1.handlers[0].calls == 1
      && Done(w1, 0).1 == Panic(NegativeCounter)
      && Done(w1, 0).0.handlers[0].calls == 2
  {
  }

  /** Two handlers that wait for their channels: calling the second one's `Done` twice brings
      the counter to 0, so `Wait` may return although the first handler never called `Done`. */
  lemma RepeatedDoneReleasesWait()
    ensures
      var w0 := AddCloseHandler(AddCloseHandler(Wait(NewWaiter()), SomeFunc, true), SomeFunc, true);
      var (w1, s1) := Done(w0, 1);
      var (w2, s2) := Done(w1, 1);
      && s1 == Normal && s2 == Normal
      && w0.handlers[0].active && w2.handlers[0] == w0.handlers[0]
      && WaitMayReturn(w2)
  {
  }
}

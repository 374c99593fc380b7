/** The two Go types of the grawt package as classes: `Waiter`, which owns the registry of
    close handlers and the wait-group counter, and `CloseHandler`, one registered cleanup task.
    Every method is proved to change the state exactly as the matching function of module
    Semantics says; the properties of those functions are proved in module Properties. */
module Grawt {
  import S = Semantics

  /** Position of a handler in the registry (handlers are distinct, so it is unique). */
  ghost function IndexOf(hs: seq<CloseHandler>, h: CloseHandler): (k: nat)
    requires h in hs
    ensures k < |hs| && hs[k] == h
  {
    if hs[0] == h then 0 else 1 + IndexOf(hs[1..], h)
  }

  /** The values of a sequence of handlers, in order. */
  ghost function States(hs: seq<CloseHandler>): seq<S.HandlerState>
    reads set h | h in hs
  {
    seq(|hs|, k requires 0 <= k < |hs| reads set h | h in hs => hs[k].State())
  }

  class CloseHandler {
    const waiter: Waiter
    var quitClosed: bool     // stands for `Quit chan struct{}` having been closed
    var active: bool
    const autoDone: bool
    const wgDone: bool       // declared in the Go struct; no statement assigns or reads it
    const handlerFunc: S.Callback
    ghost var calls: nat     // how many times the callback has run

    /** The handler built in `addHandler`. Its unkeyed literal lists five values for seven
        fields; they are read here as `waiter`, `Quit`, `active`, `autoDone`, `handlerFunc`,
        with `wgDone` false and `mu` nil (the mutex is not modelled). */
    constructor (w: Waiter, f: S.Callback, autoDone: bool)
      ensures waiter == w && !wgDone
      ensures State() == S.Registered(f, autoDone)
    {
      waiter := w;
      quitClosed := false;
      active := true;
      this.autoDone := autoDone;
      wgDone := false;
      handlerFunc := f;
      calls := 0;
    }

    ghost function State(): S.HandlerState
      reads this
    {
      S.HandlerState(active, autoDone, quitClosed, handlerFunc, calls)
    }

    /** `CloseHandler.Halt`: forwards to the owner's `Halt`. */
    method Halt(err: S.Option<string>) returns (outcome: S.Outcome)
      requires waiter.Valid()
      modifies waiter, set h | h in waiter.closeHandlers
      ensures waiter.Valid() && waiter.closeHandlers == old(waiter.closeHandlers)
      ensures (waiter.View(), outcome) == S.Halt(old(waiter.View()), err)
    {
      outcome := waiter.Halt(err);
    }

    /** `CloseHandler.Done`: `terminateHandler` on this handler with the decrement forced. */
    method Done() returns (status: S.Status)
      requires waiter.Valid() && this in waiter.closeHandlers
      modifies waiter, this
      ensures waiter.Valid() && waiter.closeHandlers == old(waiter.closeHandlers)
      ensures (waiter.View(), status) == S.Done(old(waiter.View()), IndexOf(waiter.closeHandlers, this))
    {
      status := waiter.TerminateHandler(this, true);
    }
  }

  class Waiter {
    var blockingMode: bool
    var counter: int                     // the `sync.WaitGroup` counter
    var closeHandlers: seq<CloseHandler>

    /** Every handler in the registry is distinct and belongs to this waiter. */
    ghost predicate Valid()
      reads this
    {
      && (forall a, b :: 0 <= a < b < |closeHandlers| ==> closeHandlers[a] != closeHandlers[b])
      && (forall k :: 0 <= k < |closeHandlers| ==> closeHandlers[k].waiter == this)
    }

    /** The value this waiter stands for. */
    ghost function View(): S.WaiterState
      reads this, set h | h in closeHandlers
    {
      S.WaiterState(States(closeHandlers), counter, blockingMode)
    }

    /** `NewWaiter`, without the signal goroutine. */
    constructor ()
      ensures Valid() && View() == S.NewWaiter()
    {
      blockingMode := false;
      counter := 0;
      closeHandlers := [];
    }

    /** `addHandler`: a fresh handler appended at the end, and the counter up by one. */
    method AddHandler(f: S.Callback, autoDone: bool) returns (ch: CloseHandler)
      requires Valid()
      modifies this
      ensures Valid() && fresh(ch) && ch.waiter == this
      ensures closeHandlers == old(closeHandlers) + [ch]
      ensures View() == S.AddHandler(old(View()), f, autoDone)
    {
      ch := new CloseHandler(this, f, autoDone);
      counter := counter + 1;
      closeHandlers := closeHandlers + [ch];
      assert States(closeHandlers) == old(States(closeHandlers)) + [ch.State()];
    }

    /** `AddCloseHandler(f, waitForChannel)`: `addHandler(&f, !waitForChannel)`. */
    method AddCloseHandler(f: S.FuncValue, waitForChannel: bool) returns (ch: CloseHandler)
      requires Valid()
      modifies this
      ensures Valid() && fresh(ch) && ch.waiter == this
      ensures closeHandlers == old(closeHandlers) + [ch]
      ensures View() == S.AddCloseHandler(old(View()), f, waitForChannel)
    {
      ch := AddHandler(S.PointerTo(f), !waitForChannel);
    }

    /** `terminateHandler(h, forceWaitGroupDone)`. */
    method TerminateHandler(h: CloseHandler, forceWaitGroupDone: bool) returns (status: S.Status)
      requires Valid() && h in closeHandlers
      modifies this, h
      ensures Valid() && closeHandlers == old(closeHandlers)
      ensures (View(), status) ==
              S.TerminateHandler(old(View()), IndexOf(closeHandlers, h), forceWaitGroupDone)
    {
      ghost var k := IndexOf(closeHandlers, h);
      ghost var before := View();
      if h.handlerFunc.PointerTo? && h.handlerFunc.target.SomeFunc? {
        h.calls := h.calls + 1;
      }
      status := S.Normal;
      if h.active {
        if h.quitClosed {
          status := S.Panic(S.CloseOfClosedChannel);
        } else {
          h.quitClosed := true;
        }
      }
      if status == S.Normal && (h.autoDone || forceWaitGroupDone) {
        counter := counter - 1;
        if counter < 0 {
          status := S.Panic(S.NegativeCounter);
        }
      }
      if status == S.Normal {
        h.active := false;
      }
      assert States(closeHandlers) == before.handlers[k := h.State()];
    }

    /** `Halt(err)`: the sweep over the registry, then the exit decision. */
    method Halt(err: S.Option<string>) returns (outcome: S.Outcome)
      requires Valid()
      modifies this, set h | h in closeHandlers
      ensures Valid() && closeHandlers == old(closeHandlers)
      ensures (View(), outcome) == S.Halt(old(View()), err)
    {
      var hs := closeHandlers;
      var i := 0;
      while i < |hs|
        invariant 0 <= i <= |hs|
        invariant Valid() && closeHandlers == hs && blockingMode == old(blockingMode)
        invariant S.SweepFrom(View(), i) == S.SweepFrom(old(View()), 0)
      {
        var h := hs[i];
        assert |View().handlers| == |hs| && View().handlers[i] == h.State();
        if h.active {
          var status := TerminateHandler(h, false);
          if status.Panic? {
            return S.Panicked(status.reason);
          }
        }
        i := i + 1;
      }
      if !blockingMode {
        if err.Some? {
          outcome := S.Exit(1);
        } else {
          outcome := S.Exit(0);
        }
      } else {
        outcome := S.Returned;
      }
    }

    /** The state side of `Wait`: blocking mode on. Whether `waitGroup.Wait()` may return is
        `S.WaitMayReturn(View())`. */
    method Wait()
      requires Valid()
      modifies this
      ensures Valid() && closeHandlers == old(closeHandlers)
      ensures View() == S.Wait(old(View()))
    {
      blockingMode := true;
    }
  }
}

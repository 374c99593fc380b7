# grawt: handler accounting of the shutdown coordinator, in Dafny

grawt is a small Go package that lets the parts of a service register close handlers with a
`Waiter` and then shuts the process down in order. A `Waiter` holds a registry of
`CloseHandler`s (append-only, in registration order), a `sync.WaitGroup` counting the units
of work not yet done, and a `blockingMode` flag set by `Wait`. A `CloseHandler` holds
`active`, `autoDone`, a `Quit` channel that is closed to tell its worker to stop, and an
optional callback. `Halt(err)` sweeps the registry and completes every active handler, then
exits the process unless `Wait` was called. `CloseHandler.Done` lets a worker complete its
own handler and always takes one unit off the wait group.

This project models that state machine as the Go code has it, and proves what it does.

- `semantics.dfy`, module `Semantics`: the state as values (`WaiterState`, `HandlerState`)
  and every operation as a function from the old state to the new one. Two Go runtime panics
  are explicit outcomes: a wait-group counter going below zero (`NegativeCounter`) and a
  second close of a `Quit` channel (`CloseOfClosedChannel`). `os.Exit(code)` is the outcome
  `Exit(code)`.
- `grawt.dfy`, module `Grawt`: the classes `Waiter` and `CloseHandler`, whose fields the
  methods update in place. The wait-group counter is a plain `int` field, `Quit` is the flag
  `quitClosed`, and the number of callback runs is the ghost field `calls`. Each method is
  proved to change the state exactly as the function of the same name in `Semantics` says:
  `View() == Semantics.Op(old(View()), ...)`. `Halt` is a `while` loop over the registry,
  which keeps the sweep's remaining work as its invariant.
- `properties.dfy`, module `Properties`: what those functions guarantee. It covers the
  effect of one sweep and the exact counter deltas, the exit decision, `Done` before and
  after a sweep, and invariants along any sequence of calls from `NewWaiter`. It also has
  concrete scenarios.

The model follows the code as written. The code has no halt-in-progress guard, and the
mutex and the `wgDone` flag it declares (close_handler.go:12, close_handler.go:14) are never
used. So the model proves that:

- the callback runs on every `terminateHandler` call, including `Done` on a handler the sweep has already completed;
- `Done` always decrements the counter, so `Done` after a sweep takes an auto-done handler's unit off twice and panics when the counter is already 0 (`DoneAfterHalt`, `DoneAfterHaltPanics`);
- calling `Done` twice on one handler can release `Wait` while another handler's worker has never called `Done` (`RepeatedDoneReleasesWait`).

`Quit` is still closed at most once per handler. Closing only an active handler's channel,
and deactivating it afterwards, is enough (`RunUnderInv`). The counter's exact changes are
proved for every operation.

## Model

| member | source | states |
|---|---|---|
| Semantics.AddHandler | waiter.go:17-29 | exactly one handler is appended at the end; every earlier handler is unchanged; the new one is active, `Quit` open, never called, with the given mode and callback; the counter rises by exactly one |
| Semantics.AddCloseHandler | waiter.go:44-46 | as `AddHandler`, with `autoDone == !waitForChannel`; the stored pointer is never nil, so the callback runs iff `f` is not nil |
| Semantics.TerminateHandler | waiter.go:31-42 | only handler `i` changes. Its callback runs on every call. `Quit` is closed iff the handler was active, and a second close is the only way to get `CloseOfClosedChannel`. Without that panic, the counter drops by exactly one iff `autoDone` or the decrement is forced, and is unchanged otherwise. `NegativeCounter` happens iff a due decrement meets a counter `<= 0`. A normal return leaves the handler inactive, while a panic leaves `active` as it was |
| Semantics.Done | close_handler.go:21-23 | the counter always drops by one, even for an inactive handler; an inactive handler's `Quit` is not touched and it stays inactive; an active open handler is closed and deactivated; the callback runs again |
| Semantics.Halt | waiter.go:48-66 | the sweep keeps the registry length and the mode; the outcome is `Panicked` iff the sweep panicked; `Exit(code)` only when not in blocking mode, with code 1 for an error and 0 otherwise; a normal return only in blocking mode |
| Semantics.SweepKeepsMode | waiter.go:49-53 | the sweep changes neither the number of handlers nor `blockingMode` |
| Semantics.Wait | waiter.go:68-72 | `blockingMode` becomes true and nothing else changes |
| Grawt.CloseHandler.constructor | waiter.go:18-24 | the handler `addHandler` builds, with the literal's five values read as `waiter`, `Quit`, `active`, `autoDone`, `handlerFunc`: owner `w`, `Quit` open, active, the given `autoDone` and callback, never called; `wgDone` false |
| Grawt.CloseHandler.Halt | close_handler.go:17-19 | same new state and same outcome as the owner's `Halt(err)` |
| Grawt.CloseHandler.Done | close_handler.go:21-23 | the owner's state changes as `Semantics.Done` on this handler's index; the registry is unchanged |
| Grawt.Waiter.constructor | waiter.go:79-84 | empty registry, counter 0, not blocking |
| Grawt.Waiter.AddHandler | waiter.go:17-29 | a fresh handler owned by this waiter is appended to the registry; the new state is `Semantics.AddHandler` of the old |
| Grawt.Waiter.AddCloseHandler | waiter.go:44-46 | the new state is `Semantics.AddCloseHandler` of the old, through `AddHandler(&f, !waitForChannel)` |
| Grawt.Waiter.TerminateHandler | waiter.go:31-42 | the new state and status are `Semantics.TerminateHandler` at the handler's index; only this waiter and that handler change |
| Grawt.Waiter.Halt | waiter.go:48-66 | the `for` loop over the registry, `terminateHandler(h, false)` on active handlers only, stopping at a panic; new state and outcome are `Semantics.Halt` of the old state |
| Grawt.Waiter.Wait | waiter.go:68-72 | the new state is `Semantics.Wait` of the old |
| Properties.TerminateUnderInv | waiter.go:35-41 | on a reachable state, `terminateHandler` never closes `Quit` twice; it panics with a negative counter iff a due decrement meets counter 0; a normal return keeps the invariant (counter `>= 0`, `Quit` closed iff inactive) |
| Properties.SweepFromEffect | waiter.go:49-53 | the sweep visits handlers in registration order. After a normal end, every active handler has run its callback once, closed `Quit` and become inactive, and the inactive ones are untouched. The counter then has dropped by exactly the number of active auto-done handlers. After a panic, a prefix is swept, the sweep stopped at an active handler, and later handlers are untouched |
| Properties.SweepFromUnderInv | waiter.go:49-53 | on a reachable state the sweep never closes a `Quit` twice; it ends normally iff the counter is at least the number of active auto-done handlers; then the invariant holds |
| Properties.SweepFromGrows | waiter.go:49-53 | the sweep, panicking or not, keeps every handler's mode and callback, never lowers a callback count, never reopens `Quit`, never reactivates a handler |
| Properties.HaltEffect | waiter.go:48-66 | unless it panics, `Halt` leaves every handler inactive. Already inactive handlers get no callback and no decrement. The counter drops by the number of active auto-done handlers. The outcome is `Exit(1)` for an error and `Exit(0)` without one when not blocking, and a normal return when blocking |
| Properties.HaltUnderInv | waiter.go:48-53 | on a reachable state `Halt` panics iff the counter is below the number of active auto-done handlers, never closes a `Quit` twice, and otherwise keeps the invariant |
| Properties.WaitThenHalt | waiter.go:59-69 | after `Wait`, `Halt` never exits the process |
| Properties.DoneAfterHalt | close_handler.go:21-23 | `Done` on an auto-done handler already completed by a blocking `Halt` decrements its unit a second time; that panics iff the counter is 0. The callback has then run twice and `Quit` is not closed again |
| Properties.DoneThenHalt | waiter.go:49-53 | `Done` on an active handler before a halt decrements once and closes `Quit`; the later sweep leaves that handler alone, so its callback has run once |
| Properties.StepGrows | waiter.go:26 | every call keeps the registry append-only and lets each existing handler only persist |
| Properties.StepUnderInv | waiter.go:35-37 | no single call from a reachable state closes a `Quit` twice, and the invariant holds again unless the process stopped |
| Properties.RunUnderInv | waiter.go:35-41 | along any sequence of calls, no `Quit` is closed twice (so each is closed at most once); the registry only grows; while the process runs, `Quit` is closed exactly for the inactive handlers and the counter is not negative |
| Properties.RunFromNewWaiter | waiter.go:79-84 | the same holds for every sequence of calls starting from `NewWaiter` |
| Properties.ThreeHandlersScenario | waiter.go:31-66 | three handlers, `Wait`, then `Halt` with an error: the right callbacks run once, every `Quit` is closed, the counter goes 3 to 1, and `Done` of the waiting handler brings it to 0 so `Wait` may return |
| Properties.DoneAfterHaltPanics | waiter.go:38-40 | one auto-done handler, `Wait`, `Halt`, then `Done`: the wait group panics with a negative counter and the callback has run twice |
| Properties.RepeatedDoneReleasesWait | close_handler.go:21-23 | two handlers waiting for their channels: two `Done` calls on the second bring the counter to 0 while the first is still active |

## Left out

- The signal goroutine of `NewWaiter`, `signal.Notify` and `onSignal` (waiter.go:85-91, waiter.go:74-77) are left out: they are OS signal delivery and concurrency. A signal is the call `Halt(None)`.
- The blocking part of `Wait` (`waitGroup.Wait()`, waiter.go:71) is left out. `Wait` only sets `blockingMode`, and the predicate `Semantics.WaitMayReturn` (counter is 0) says when the blocked call may return.
- Logging with logrus is left out. `os.Exit` becomes the outcome `Exit(code)` instead of ending the process.
- The `Quit` channel itself and its receivers are not modelled; the flag `quitClosed` stands for it.
- Callback bodies are opaque. Only their runs are counted (ghost field `calls`). A callback that calls `Halt` again, registers handlers during the sweep, or panics is not modelled. The sweep also walks the registry as it was when `Halt` started, as Go's `range` does.
- The mutex `mu` is left out, and so is any locking (the model is sequential). The `wgDone` field is kept as a constant that is always false: no statement of the code assigns it by name or reads it.
- Recovery from a panic is not modelled. After a `Panicked` outcome the process is taken to have stopped, and sequences of calls end there.
- waiter.go as written does not compile: the unkeyed composite literal at waiter.go:18-24 gives 5 values for the 7 fields of close_handler.go:7-15, and by position `f` would land in the `bool` field `wgDone`. The model reads the five values as `waiter`, `Quit`, `active`, `autoDone`, `handlerFunc`, with `wgDone` false and `mu` nil.
- Grawt.Waiter.AddHandler: does not model the 32-bit limit of the wait-group counter, because about 2^31 registrations would be needed to reach it.
- A `CloseHandler` built by hand outside `addHandler` (with a nil owner) is not modelled. The handler methods require a handler that its owner's registry contains.

/** `CrashLoggerHandle` of CrashLogger.swift: a process-wide switch that, while
    open, owns the uncaught-exception handler and seven signal dispositions,
    turns a crash into a `CrashModel` and hands it to every live observer.

    The operating system's side is abstract: the current exception handler,
    the per-signal disposition table and whether the process was killed.
    What an observer or the chained old handler does when called is not
    modelled; a hook's effect is the list of calls it makes, in order. */
module CrashLogger {
  import opened Wrappers
  import opened Text

  // Signal numbers of the Darwin kernel.
  const SIGILL: int := 4
  const SIGTRAP: int := 5
  const SIGABRT: int := 6
  const SIGFPE: int := 8
  const SIGKILL: int := 9
  const SIGBUS: int := 10
  const SIGSEGV: int := 11
  const SIGPIPE: int := 13

  /** The signals `setCrashSignalHandler` routes to the signal hook. */
  const WatchedSignals: set<int> := {SIGABRT, SIGILL, SIGSEGV, SIGFPE, SIGBUS, SIGPIPE, SIGTRAP}
  /** The signals `killApp` puts back to their default action: all but SIGTRAP. */
  const ResetSignals: set<int> := {SIGABRT, SIGILL, SIGSEGV, SIGFPE, SIGBUS, SIGPIPE}

  /** `name(of:)`: a mnemonic for six signals, "OTHER" for every other number. */
  function SignalName(sig: int): (name: string)
    ensures name == "OTHER" <==> sig !in ResetSignals
  {
    if sig == SIGABRT then "SIGABRT"
    else if sig == SIGILL then "SIGILL"
    else if sig == SIGSEGV then "SIGSEGV"
    else if sig == SIGFPE then "SIGFPE"
    else if sig == SIGBUS then "SIGBUS"
    else if sig == SIGPIPE then "SIGPIPE"
    else "OTHER"
  }

  /** The six mnemonics name six different signals. */
  lemma SignalNamesDistinct(a: int, b: int)
    requires a in ResetSignals && b in ResetSignals
    ensures SignalName(a) == SignalName(b) <==> a == b
  {
  }

  /** The reason text of a signal crash: it names the signal and carries its
      number in decimal, from which the number can be read back. */
  function SignalReason(sig: int): (reason: string)
    ensures |reason| > 7 + |SignalName(sig)|
    ensures reason[..7] == "Signal " && reason[7..7 + |SignalName(sig)|] == SignalName(sig)
  {
    var reason := "Signal " + SignalName(sig) + "(" + IntToString(sig) + ") was raised.\n";
    assert reason[..7 + |SignalName(sig)|] == "Signal " + SignalName(sig);
    reason
  }

  lemma SignalReasonCarriesNumber(sig: int)
    ensures exists digits: string {:trigger IsDecimal(digits)} ::
      && SignalReason(sig) == "Signal " + SignalName(sig) + "(" + digits + ") was raised.\n"
      && IsDecimal(digits) && ParseInt(digits) == sig
  {
    ParseIntToString(sig);
    var digits := IntToString(sig);
    assert IsDecimal(digits);
  }

  /** A live observer is known by its `hash`. */
  datatype Observer = Observer(hash: int)

  /** `WeakCrashEyeDelegate`: a weak reference to an observer, `None` once the
      observer has been deallocated. */
  datatype WeakCrashEyeDelegate = WeakCrashEyeDelegate(delegate: Option<Observer>)

  datatype CrashModelType = Signal | Exception

  /** `CrashModelType`'s `Int` raw value. */
  function TypeRawValue(t: CrashModelType): int {
    match t
    case Signal => 1
    case Exception => 2
  }

  datatype CrashModel = CrashModel(kind: CrashModelType, name: string, reason: string,
                                   appInfo: string, callStack: string)

  /** An uncaught exception as the runtime hands it over. */
  datatype NSException = NSException(name: string, reason: Option<string>, callStackSymbols: seq<string>)

  /** An uncaught-exception handler: this library's hook or someone else's. */
  datatype ExceptionHandler = CrashHook | OtherHandler(id: int)

  /** What a signal does when raised. */
  datatype Disposition = Default | SignalHook | OtherAction(id: int)

  /** The operating system's hook table. */
  datatype Hooks = Hooks(exceptionHandler: Option<ExceptionHandler>,
                         signals: map<int, Disposition>,
                         terminated: bool)

  /** `isOpen`, `delegates`, `app_old_exceptionHandler` and the hook table. */
  datatype CrashState = CrashState(isOpen: bool,
                                   delegates: seq<WeakCrashEyeDelegate>,
                                   oldHandler: Option<ExceptionHandler>,
                                   hooks: Hooks)

  /** A call a hook makes: to the chained handler, or to an observer. */
  datatype Event = OldHandlerCalled(handler: ExceptionHandler, exception: NSException)
                 | Delivered(observer: Observer, model: CrashModel)

  /** The state before the library is first used: closed, no observers, no
      saved handler, and whatever the application installed. */
  function Init(handler: Option<ExceptionHandler>, signals: map<int, Disposition>): CrashState {
    CrashState(false, [], None, Hooks(handler, signals, false))
  }

  // ---------------------------------------------------------------- signals

  /** The disposition table after the six `signal(sig, d)` calls of
      `killApp`, one after the other. */
  function ResetTable(signals: map<int, Disposition>, d: Disposition): (r: map<int, Disposition>)
    ensures r.Keys == signals.Keys + ResetSignals
    ensures forall sig :: sig in ResetSignals ==> r[sig] == d
    ensures forall sig :: sig in signals && sig !in ResetSignals ==> r[sig] == signals[sig]
  {
    signals[SIGABRT := d][SIGILL := d][SIGSEGV := d][SIGFPE := d][SIGBUS := d][SIGPIPE := d]
  }

  /** The disposition table after the seven `signal(sig, d)` calls of
      `setCrashSignalHandler`: the six above, then SIGTRAP. */
  function WatchTable(signals: map<int, Disposition>, d: Disposition): (r: map<int, Disposition>)
    ensures r.Keys == signals.Keys + WatchedSignals
    ensures forall sig :: sig in WatchedSignals ==> r[sig] == d
    ensures forall sig :: sig in signals && sig !in WatchedSignals ==> r[sig] == signals[sig]
  {
    ResetTable(signals, d)[SIGTRAP := d]
  }

  // ---------------------------------------------------------- filter helper

  /** `Array.filter` on the list of entries: those satisfying `p`, in their order. */
  function Filter(s: seq<WeakCrashEyeDelegate>, p: WeakCrashEyeDelegate -> bool): (r: seq<WeakCrashEyeDelegate>)
    ensures |r| <= |s|
    ensures forall x :: x in r <==> x in s && p(x)
  {
    if s == [] then []
    else if p(s[0]) then [s[0]] + Filter(s[1..], p)
    else Filter(s[1..], p)
  }

  /** Filtering a concatenation filters each part: relative order is kept. */
  lemma {:induction false} FilterAppend(a: seq<WeakCrashEyeDelegate>, b: seq<WeakCrashEyeDelegate>, p: WeakCrashEyeDelegate -> bool)
    ensures Filter(a + b, p) == Filter(a, p) + Filter(b, p)
    decreases |a|
  {
    if a == [] {
      assert a + b == b;
    } else {
      assert (a + b)[0] == a[0] && (a + b)[1..] == a[1..] + b;
      FilterAppend(a[1..], b, p);
      if p(a[0]) {
        assert Filter(a, p) + Filter(b, p) == [a[0]] + (Filter(a[1..], p) + Filter(b, p));
      }
    }
  }

  /** Two filters in a row are one filter on both conditions. */
  lemma {:induction false} FilterFilter(s: seq<WeakCrashEyeDelegate>, p: WeakCrashEyeDelegate -> bool,
                                        q: WeakCrashEyeDelegate -> bool, both: WeakCrashEyeDelegate -> bool)
    requires forall x :: both(x) == (p(x) && q(x))
    ensures Filter(Filter(s, p), q) == Filter(s, both)
    decreases |s|
  {
    if s != [] {
      FilterFilter(s[1..], p, q, both);
    }
  }

  // ------------------------------------------------------------- the steps

  /** `open()`: when closed, remember the current exception handler, install
      the crash hook and route the seven watched signals to the signal hook. */
  function OpenStep(s: CrashState): (r: CrashState)
    ensures r.isOpen && r.delegates == s.delegates
    ensures s.isOpen ==> r == s
    ensures !s.isOpen ==> && r.oldHandler == s.hooks.exceptionHandler
                          && r.hooks.exceptionHandler == Some(CrashHook)
                          && r.hooks.terminated == s.hooks.terminated
                          && r.hooks.signals == WatchTable(s.hooks.signals, SignalHook)
                          && WatchedSignals <= r.hooks.signals.Keys
                          && forall sig :: sig in WatchedSignals ==> r.hooks.signals[sig] == SignalHook
  {
    if s.isOpen then s
    else s.(isOpen := true,
            oldHandler := s.hooks.exceptionHandler,
            hooks := s.hooks.(exceptionHandler := Some(CrashHook),
                              signals := WatchTable(s.hooks.signals, SignalHook)))
  }

  /** `close()`: when open, reinstall the saved handler; the signal table,
      the list and the saved handler are left alone. */
  function CloseStep(s: CrashState): (r: CrashState)
    ensures !r.isOpen
    ensures !s.isOpen ==> r == s
    ensures s.isOpen ==> && r.hooks.exceptionHandler == s.oldHandler
                         && r.hooks.signals == s.hooks.signals
                         && r.hooks.terminated == s.hooks.terminated
                         && r.delegates == s.delegates
                         && r.oldHandler == s.oldHandler
  {
    if !s.isOpen then s
    else s.(isOpen := false, hooks := s.hooks.(exceptionHandler := s.oldHandler))
  }

  /** `add(delegate:)`: the registration is commented out; only `open` remains. */
  function AddStep(s: CrashState, observer: Observer): (r: CrashState)
    ensures r.isOpen && r.delegates == s.delegates
    ensures s.isOpen ==> r == s
    ensures !s.isOpen ==> && r.oldHandler == s.hooks.exceptionHandler
                          && r.hooks.exceptionHandler == Some(CrashHook)
                          && r.hooks.terminated == s.hooks.terminated
                          && r.hooks.signals == WatchTable(s.hooks.signals, SignalHook)
                          && WatchedSignals <= r.hooks.signals.Keys
                          && forall sig :: sig in WatchedSignals ==> r.hooks.signals[sig] == SignalHook
  {
    OpenStep(s)
  }

  predicate IsAlive(d: WeakCrashEyeDelegate) {
    d.delegate.Some?
  }

  /** `$0.delegate?.hash != delegate.hash`: a dead entry's nil differs from any hash. */
  predicate HashDiffers(d: WeakCrashEyeDelegate, hash: int) {
    d.delegate.None? || d.delegate.value.hash != hash
  }

  /** `remove(delegate:)`: drop the dead entries, then those of `observer`;
      close once nothing is left. */
  function RemoveStep(s: CrashState, observer: Observer): (r: CrashState)
    ensures forall d :: d in r.delegates <==> d in s.delegates && d.delegate.Some? && d.delegate.value.hash != observer.hash
    ensures r.delegates == [] ==> && !r.isOpen
                                  && r.oldHandler == s.oldHandler
                                  && r.hooks.signals == s.hooks.signals
                                  && r.hooks.terminated == s.hooks.terminated
                                  && r.hooks.exceptionHandler == (if s.isOpen then s.oldHandler else s.hooks.exceptionHandler)
    ensures r.delegates != [] ==> r.isOpen == s.isOpen && r.hooks == s.hooks && r.oldHandler == s.oldHandler
  {
    var kept := Filter(Filter(s.delegates, IsAlive), d => HashDiffers(d, observer.hash));
    if |kept| == 0 then CloseStep(s.(delegates := kept)) else s.(delegates := kept)
  }

  /** `killApp()`: clear the exception handler, reset six signals to their
      default action and end the process with SIGKILL, which nothing catches. */
  function KillStep(s: CrashState): (r: CrashState)
    ensures r.hooks.terminated && r.hooks.exceptionHandler.None?
    ensures r.hooks.signals.Keys == s.hooks.signals.Keys + ResetSignals
    ensures forall sig :: sig in ResetSignals ==> r.hooks.signals[sig] == Default
    ensures forall sig :: sig in s.hooks.signals && sig !in ResetSignals ==> r.hooks.signals[sig] == s.hooks.signals[sig]
    ensures r.isOpen == s.isOpen && r.delegates == s.delegates && r.oldHandler == s.oldHandler
  {
    s.(hooks := Hooks(None, ResetTable(s.hooks.signals, Default), true))
  }

  // ------------------------------------------------------------ the hooks

  /** The observers of the live entries, in list order. */
  function Live(ds: seq<WeakCrashEyeDelegate>): seq<Observer> {
    if ds == [] then []
    else if ds[0].delegate.Some? then [ds[0].delegate.value] + Live(ds[1..])
    else Live(ds[1..])
  }

  /** The fan-out of both hooks: one delivery of the model per entry whose
      observer is still alive, in list order. */
  function Notifications(ds: seq<WeakCrashEyeDelegate>, model: CrashModel): seq<Event> {
    if ds == [] then []
    else if ds[0].delegate.Some? then [Delivered(ds[0].delegate.value, model)] + Notifications(ds[1..], model)
    else Notifications(ds[1..], model)
  }

  /** The model the exception hook builds: of type `exception`, under the
      exception's name, with its reason or an empty one. */
  function ExceptionModel(ex: NSException, appInfo: string): (model: CrashModel)
    ensures TypeRawValue(model.kind) == 2 && model.name == ex.name && model.appInfo == appInfo
    ensures model.reason == if ex.reason.Some? then ex.reason.value else ""
  {
    CrashModel(Exception, ex.name, ex.reason.GetOr(""), appInfo, Join(ex.callStackSymbols, "\r"))
  }

  /** `RecieveException`: the saved handler first, whatever the state; then,
      only when open, one notification per live entry. */
  function ExceptionEvents(s: CrashState, ex: NSException, appInfo: string): (events: seq<Event>)
    ensures s.oldHandler.Some? ==> |events| > 0 && events[0] == OldHandlerCalled(s.oldHandler.value, ex)
    ensures !s.isOpen ==> forall e :: e in events ==> e.OldHandlerCalled?
    ensures !s.isOpen ==> |events| == (if s.oldHandler.Some? then 1 else 0)
  {
    (if s.oldHandler.Some? then [OldHandlerCalled(s.oldHandler.value, ex)] else [])
    + (if s.isOpen then Notifications(s.delegates, ExceptionModel(ex, appInfo)) else [])
  }

  /** The model the signal hook builds: the two innermost frames (the hook
      and the signal trampoline) are dropped. */
  function SignalModel(sig: int, stack: seq<string>, appInfo: string): (model: CrashModel)
    requires |stack| >= 2
    ensures TypeRawValue(model.kind) == 1 && model.appInfo == appInfo
    ensures model.name == SignalName(sig) && model.reason == SignalReason(sig)
  {
    CrashModel(Signal, SignalName(sig), SignalReason(sig), appInfo, Join(stack[2..], "\r"))
  }

  /** What `RecieveSignal` calls: nothing when closed, else every live observer. */
  function SignalEvents(s: CrashState, sig: int, stack: seq<string>, appInfo: string): (events: seq<Event>)
    requires s.isOpen ==> |stack| >= 2
    ensures !s.isOpen ==> events == []
    ensures s.isOpen ==> && |events| == |Live(s.delegates)|
                         && forall i :: 0 <= i < |events| ==> events[i] == Delivered(Live(s.delegates)[i], SignalModel(sig, stack, appInfo))
  {
    if !s.isOpen then []
    else
      NotificationsInOrder(s.delegates, SignalModel(sig, stack, appInfo));
      Notifications(s.delegates, SignalModel(sig, stack, appInfo))
  }

  /** The state `RecieveSignal` leaves: unchanged when closed, killed when open. */
  function SignalStep(s: CrashState): CrashState {
    if !s.isOpen then s else KillStep(s)
  }

  // ---------------------------------------------------- properties: steps

  /** A second `open` changes nothing: the handler saved the first time is
      not replaced by the crash hook itself. */
  lemma OpenIdempotent(s: CrashState)
    ensures OpenStep(OpenStep(s)) == OpenStep(s)
    ensures OpenStep(s).oldHandler == (if s.isOpen then s.oldHandler else s.hooks.exceptionHandler)
  {
  }

  /** `add` always opens and never changes the list of observers. */
  lemma AddOpensAndKeepsDelegates(s: CrashState, observer: Observer)
    ensures AddStep(s, observer).isOpen
    ensures AddStep(s, observer).delegates == s.delegates
    ensures AddStep(AddStep(s, observer), observer) == AddStep(s, observer)
  {
  }

  /** Opening then closing puts back the handler that was there before; the
      seven signals stay routed to the signal hook. */
  lemma OpenThenClose(s: CrashState)
    requires !s.isOpen
    ensures CloseStep(OpenStep(s)).hooks.exceptionHandler == s.hooks.exceptionHandler
    ensures !CloseStep(OpenStep(s)).isOpen
    ensures forall sig :: sig in WatchedSignals ==> CloseStep(OpenStep(s)).hooks.signals[sig] == SignalHook
  {
  }

  /** `remove` keeps the live entries whose observer's hash differs in
      their original order: its two filters are one. */
  lemma {:induction false} RemoveKeepsOthers(s: CrashState, observer: Observer)
    ensures RemoveStep(s, observer).delegates
         == Filter(s.delegates, d => IsAlive(d) && HashDiffers(d, observer.hash))
  {
    FilterFilter(s.delegates, IsAlive, d => HashDiffers(d, observer.hash),
                 d => IsAlive(d) && HashDiffers(d, observer.hash));
  }

  /** The kill leaves no exception handler, the six reset signals at their
      default action and SIGTRAP still routed to the signal hook. */
  lemma SignalHookKills(s: CrashState)
    requires s.isOpen
    requires SIGTRAP in s.hooks.signals && s.hooks.signals[SIGTRAP] == SignalHook
    ensures SignalStep(s).hooks.terminated
    ensures SignalStep(s).hooks.exceptionHandler.None?
    ensures forall sig :: sig in ResetSignals ==> SignalStep(s).hooks.signals[sig] == Default
    ensures SignalStep(s).hooks.signals[SIGTRAP] == SignalHook
  {
  }

  // --------------------------------------------------- properties: hooks

  lemma {:induction false} NotificationsAppend(a: seq<WeakCrashEyeDelegate>, b: seq<WeakCrashEyeDelegate>, model: CrashModel)
    ensures Notifications(a + b, model) == Notifications(a, model) + Notifications(b, model)
    decreases |a|
  {
    if a == [] {
      assert a + b == b;
    } else {
      assert (a + b)[0] == a[0] && (a + b)[1..] == a[1..] + b;
      NotificationsAppend(a[1..], b, model);
      if a[0].delegate.Some? {
        var first := [Delivered(a[0].delegate.value, model)];
        assert Notifications(a, model) + Notifications(b, model)
            == first + (Notifications(a[1..], model) + Notifications(b, model));
      }
    }
  }

  /** Every live entry is notified exactly once, in list order, and dead
      entries are skipped. */
  lemma {:induction false} NotificationsInOrder(ds: seq<WeakCrashEyeDelegate>, model: CrashModel)
    ensures |Notifications(ds, model)| == |Live(ds)|
    ensures forall i :: 0 <= i < |Live(ds)| ==> Notifications(ds, model)[i] == Delivered(Live(ds)[i], model)
    decreases |ds|
  {
    if ds != [] {
      NotificationsInOrder(ds[1..], model);
    }
  }

  /** The live observers are exactly those with a live entry. */
  lemma {:induction false} LiveMembers(ds: seq<WeakCrashEyeDelegate>)
    ensures |Live(ds)| <= |ds|
    ensures forall o :: o in Live(ds) <==> WeakCrashEyeDelegate(Some(o)) in ds
    decreases |ds|
  {
    if ds != [] {
      LiveMembers(ds[1..]);
      assert ds == [ds[0]] + ds[1..];
    }
  }

  /** When open, after the chained call every live observer gets the same
      exception model, in list order. */
  lemma {:induction false} ExceptionHookNotifies(s: CrashState, ex: NSException, appInfo: string)
    requires s.isOpen
    ensures var events := ExceptionEvents(s, ex, appInfo);
            var k := if s.oldHandler.Some? then 1 else 0;
            && |events| == k + |Live(s.delegates)|
            && forall i :: 0 <= i < |Live(s.delegates)| ==>
                 events[k + i] == Delivered(Live(s.delegates)[i], ExceptionModel(ex, appInfo))
  {
    NotificationsInOrder(s.delegates, ExceptionModel(ex, appInfo));
  }

  /** The exception model: its kind, its reason ("" when the exception has
      none) and a call stack from which the frames can be recovered. */
  lemma {:induction false} ExceptionModelFields(ex: NSException, appInfo: string)
    requires |ex.callStackSymbols| > 0
    requires forall i :: 0 <= i < |ex.callStackSymbols| ==> '\r' !in ex.callStackSymbols[i]
    ensures TypeRawValue(ExceptionModel(ex, appInfo).kind) == 2
    ensures ex.reason.None? ==> ExceptionModel(ex, appInfo).reason == ""
    ensures ex.reason.Some? ==> ExceptionModel(ex, appInfo).reason == ex.reason.value
    ensures Split(ExceptionModel(ex, appInfo).callStack, "\r") == ex.callStackSymbols
  {
    SplitJoinChar(ex.callStackSymbols, '\r');
  }

  /** The signal model: its kind, the signal's name, and a call stack from
      which every frame but the first two can be recovered. */
  lemma {:induction false} SignalModelFields(sig: int, stack: seq<string>, appInfo: string)
    requires |stack| > 2
    requires forall i :: 2 <= i < |stack| ==> '\r' !in stack[i]
    ensures TypeRawValue(SignalModel(sig, stack, appInfo).kind) == 1
    ensures SignalModel(sig, stack, appInfo).name == SignalName(sig)
    ensures Split(SignalModel(sig, stack, appInfo).callStack, "\r") == stack[2..]
  {
    var frames := stack[2..];
    forall i | 0 <= i < |frames|
      ensures '\r' !in frames[i]
    {
      assert frames[i] == stack[i + 2];
    }
    SplitJoinChar(frames, '\r');
  }

  /** A segmentation fault is reported as "SIGSEGV" with its number 11. */
  lemma SegmentationFaultReason()
    ensures SignalReason(SIGSEGV) == "Signal SIGSEGV(11) was raised.\n"
  {
    assert IntToString(11) == "11" by {
      assert NatToString(11) == NatToString(1) + [DigitChar(1)];
    }
  }

  /** A trap is reported as "OTHER", though its signal is watched. */
  lemma TrapIsOther()
    ensures SIGTRAP in WatchedSignals && SIGTRAP !in ResetSignals
    ensures SignalName(SIGTRAP) == "OTHER"
  {
  }

  // ------------------------------------------------- reachable states

  /** A call of the public interface: `add(delegate:)` or `remove(delegate:)`. */
  datatype Call = Add(observer: Observer) | Remove(observer: Observer)

  function Apply(s: CrashState, call: Call): CrashState {
    match call
    case Add(o) => AddStep(s, o)
    case Remove(o) => RemoveStep(s, o)
  }

  /** The state after a sequence of calls, the last one applied last. */
  function Run(s: CrashState, calls: seq<Call>): CrashState
    decreases |calls|
  {
    if calls == [] then s else Apply(Run(s, calls[..|calls| - 1]), calls[|calls| - 1])
  }

  /** Whatever the calls, no observer is ever registered; the switch is open
      exactly when the last call was an `add`; while open the saved handler
      is the application's own and the crash hook is installed, and while
      closed the application's handler is back in place. */
  lemma {:induction false} RunInvariant(handler: Option<ExceptionHandler>, signals: map<int, Disposition>, calls: seq<Call>)
    requires handler != Some(CrashHook)
    ensures var r := Run(Init(handler, signals), calls);
            && r.delegates == []
            && !r.hooks.terminated
            && (r.isOpen <==> calls != [] && calls[|calls| - 1].Add?)
            && (r.isOpen ==> r.oldHandler == handler && r.hooks.exceptionHandler == Some(CrashHook))
            && (!r.isOpen ==> r.hooks.exceptionHandler == handler)
    decreases |calls|
  {
    if calls != [] {
      RunInvariant(handler, signals, calls[..|calls| - 1]);
    }
  }

  /** Consequently no crash ever reaches an observer: the exception hook only
      chains to the application's handler and the signal hook notifies no one. */
  lemma NobodyIsNotified(handler: Option<ExceptionHandler>, signals: map<int, Disposition>, calls: seq<Call>,
                         ex: NSException, sig: int, stack: seq<string>, appInfo: string)
    requires handler != Some(CrashHook)
    requires |stack| >= 2
    ensures forall e :: e in ExceptionEvents(Run(Init(handler, signals), calls), ex, appInfo) ==> e.OldHandlerCalled?
    ensures SignalEvents(Run(Init(handler, signals), calls), sig, stack, appInfo) == []
  {
    RunInvariant(handler, signals, calls);
  }

  // ------------------------------------------------------ the class

  /** The static members of `CrashLoggerHandle`, with the global saved
      handler and the operating system's hook table beside them. */
  class CrashLoggerHandle {
    var isOpen: bool
    var delegates: seq<WeakCrashEyeDelegate>
    var oldExceptionHandler: Option<ExceptionHandler>
    var hooks: Hooks

    function State(): CrashState
      reads this
    {
      CrashState(isOpen, delegates, oldExceptionHandler, hooks)
    }

    constructor (handler: Option<ExceptionHandler>, signals: map<int, Disposition>)
      ensures State() == Init(handler, signals)
    {
      isOpen := false;
      delegates := [];
      oldExceptionHandler := None;
      hooks := Hooks(handler, signals, false);
    }

    method Add(observer: Observer)
      modifies this
      ensures State() == AddStep(old(State()), observer)
    {
      Open();
    }

    method Remove(observer: Observer)
      modifies this
      ensures State() == RemoveStep(old(State()), observer)
    {
      delegates := Filter(Filter(delegates, IsAlive), d => HashDiffers(d, observer.hash));
      if |delegates| == 0 {
        Close();
      }
    }

    method Open()
      modifies this
      ensures State() == OpenStep(old(State()))
    {
      if isOpen {
        return;
      }
      isOpen := true;
      oldExceptionHandler := hooks.exceptionHandler;
      hooks := hooks.(exceptionHandler := Some(CrashHook));
      SetCrashSignalHandler();
    }

    method Close()
      modifies this
      ensures State() == CloseStep(old(State()))
    {
      if !isOpen {
        return;
      }
      isOpen := false;
      hooks := hooks.(exceptionHandler := oldExceptionHandler);
    }

    method SetCrashSignalHandler()
      modifies this
      ensures State() == old(State()).(hooks := old(hooks).(signals := WatchTable(old(hooks.signals), SignalHook)))
    {
      hooks := hooks.(signals := hooks.signals[SIGABRT := SignalHook]);
      hooks := hooks.(signals := hooks.signals[SIGILL := SignalHook]);
      hooks := hooks.(signals := hooks.signals[SIGSEGV := SignalHook]);
      hooks := hooks.(signals := hooks.signals[SIGFPE := SignalHook]);
      hooks := hooks.(signals := hooks.signals[SIGBUS := SignalHook]);
      hooks := hooks.(signals := hooks.signals[SIGPIPE := SignalHook]);
      hooks := hooks.(signals := hooks.signals[SIGTRAP := SignalHook]);
    }

    /** The fan-out loop of both hooks, over the registered entries. */
    method FanOut(model: CrashModel) returns (events: seq<Event>)
      ensures events == Notifications(delegates, model)
    {
      events := [];
      var i := 0;
      while i < |delegates|
        invariant 0 <= i <= |delegates|
        invariant events == Notifications(delegates[..i], model)
      {
        var entry := delegates[i];
        NotificationsAppend(delegates[..i], [entry], model);
        assert delegates[..i + 1] == delegates[..i] + [entry];
        if entry.delegate.Some? {
          events := events + [Delivered(entry.delegate.value, model)];
        }
        i := i + 1;
      }
      assert delegates[..i] == delegates;
    }

    method ReceiveException(ex: NSException, appInfo: string) returns (events: seq<Event>)
      ensures events == ExceptionEvents(State(), ex, appInfo)
    {
      events := [];
      if oldExceptionHandler.Some? {
        events := [OldHandlerCalled(oldExceptionHandler.value, ex)];
      }
      if !isOpen {
        return;
      }
      var model := CrashModel(Exception, ex.name, ex.reason.GetOr(""), appInfo,
                              Join(ex.callStackSymbols, "\r"));
      var delivered := FanOut(model);
      events := events + delivered;
    }

    method ReceiveSignal(sig: int, stack: seq<string>, appInfo: string) returns (events: seq<Event>)
      requires isOpen ==> |stack| >= 2
      modifies this
      ensures events == SignalEvents(old(State()), sig, stack, appInfo)
      ensures State() == SignalStep(old(State()))
    {
      if !isOpen {
        return [];
      }
      var frames := stack[2..];
      var name := SignalName(sig);
      var reason := "Signal " + name + "(" + IntToString(sig) + ") was raised.\n";
      var model := CrashModel(Signal, name, reason, appInfo, Join(frames, "\r"));
      events := FanOut(model);
      KillApp();
    }

    method KillApp()
      modifies this
      ensures State() == KillStep(old(State()))
    {
      hooks := hooks.(exceptionHandler := None);
      hooks := hooks.(signals := hooks.signals[SIGABRT := Default]);
      hooks := hooks.(signals := hooks.signals[SIGILL := Default]);
      hooks := hooks.(signals := hooks.signals[SIGSEGV := Default]);
      hooks := hooks.(signals := hooks.signals[SIGFPE := Default]);
      hooks := hooks.(signals := hooks.signals[SIGBUS := Default]);
      hooks := hooks.(signals := hooks.signals[SIGPIPE := Default]);
      hooks := hooks.(terminated := true);
    }
  }
}

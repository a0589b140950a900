/** The on/off guard of `MainViewModel` as a value: the cached presenter window,
    the foreground hook, and the Win32 calls issued so far. Each function here is
    the effect of one member of the view model; the class in module ViewModel
    is proved to change its fields exactly as these functions say. */
module FocusGuard {
  import opened Wrappers

  /** A window handle or hook handle (`IntPtr`); zero is `IntPtr.Zero`. Handles are
      only compared, never computed with, so their width does not matter here. */
  type Handle = int
  const NullHandle: Handle := 0

  const WM_ACTIVATE: int := 0x0006
  const WA_ACTIVE: int := 1
  const EVENT_SYSTEM_FOREGROUND: int := 0x0003
  const WINEVENT_OUTOFCONTEXT: int := 0

  /** One process `Process.GetProcessesByName` returns: its main window handle
      and the process id `GetWindowThreadProcessId` reports for that window. */
  datatype ProcessWindow = ProcessWindow(mainWindow: Handle, pid: int)

  /** A Win32 call with an effect outside the program, in the order issued. */
  datatype OsCall =
    | SetWinEventHook(eventMin: int, eventMax: int, flags: int, result: Handle)
    | UnhookWinEvent(hook: Handle)
    | SendMessage(hwnd: Handle, msg: int, wParam: int)

  /** The request that brings `hwnd` to the front. */
  function ActivateRequest(hwnd: Handle): OsCall {
    SendMessage(hwnd, WM_ACTIVATE, WA_ACTIVE)
  }

  /** The fields of `MainViewModel` the guard reads and writes: `isOn`,
      `_winEventHook`, `presenterHwnd`, `presenterProcessId`, and the calls made. */
  datatype Guard = Guard(isOn: bool, hook: Handle, presenterHwnd: Handle, presenterPid: int,
                         calls: seq<OsCall>)

  /** The guard of a freshly constructed view model whose restored flag is `isOn`:
      no hook is live, whatever the flag. */
  function InitialGuard(isOn: bool): (r: Guard)
    ensures NoDanglingHook(r)
  {
    Guard(isOn, NullHandle, NullHandle, 0, [])
  }

  // ---- OnMethod / OffMethod / IsOn setter ---------------------------------

  /** `OnMethod`: with a selected Id whose process lookup finds something, cache
      the first match's window and pid, install the foreground hook and activate
      that window once; otherwise (no selection, no process) change nothing. */
  function OnStep(g: Guard, selectedId: Option<string>,
                  processesByName: string -> seq<ProcessWindow>, hookResult: Handle): (r: Guard)
    ensures r.isOn == g.isOn && g.calls <= r.calls
    ensures selectedId == None ==> r == g
    ensures selectedId.Some? && processesByName(selectedId.value) == [] ==> r == g
    ensures selectedId.Some? && processesByName(selectedId.value) != [] ==>
              var first := processesByName(selectedId.value)[0];
              && r.presenterHwnd == first.mainWindow
              && r.presenterPid == first.pid
              && r.hook == hookResult
              && r.calls[|g.calls|..] == [SetWinEventHook(EVENT_SYSTEM_FOREGROUND, EVENT_SYSTEM_FOREGROUND,
                                                          WINEVENT_OUTOFCONTEXT, hookResult),
                                          ActivateRequest(first.mainWindow)]
  {
    match selectedId
    case None => g
    case Some(id) =>
      var procs := processesByName(id);
      if |procs| > 0 then
        var hwnd := procs[0].mainWindow;
        var installed := g.calls + [SetWinEventHook(EVENT_SYSTEM_FOREGROUND, EVENT_SYSTEM_FOREGROUND,
                                                    WINEVENT_OUTOFCONTEXT, hookResult)];
        Guard(g.isOn, hookResult, hwnd, procs[0].pid, installed + [ActivateRequest(hwnd)])
      else g
  }

  /** `OffMethod`: release the hook if there is one, and zero it. */
  function OffStep(g: Guard): (r: Guard)
    ensures r.hook == NullHandle
    ensures r.isOn == g.isOn && r.presenterHwnd == g.presenterHwnd && r.presenterPid == g.presenterPid
    ensures g.hook == NullHandle ==> r == g
    ensures g.hook != NullHandle ==> r.calls == g.calls + [UnhookWinEvent(g.hook)]
  {
    if g.hook != NullHandle then g.(hook := NullHandle, calls := g.calls + [UnhookWinEvent(g.hook)])
    else g
  }

  /** The `IsOn` setter: nothing when the value does not change; otherwise the
      flag is stored first and then `OnMethod` or `OffMethod` runs. */
  function IsOnStep(g: Guard, value: bool, selectedId: Option<string>,
                    processesByName: string -> seq<ProcessWindow>, hookResult: Handle): (r: Guard)
    ensures r.isOn == value
    ensures value == g.isOn ==> r == g
    ensures value && !g.isOn ==> r == OnStep(g.(isOn := true), selectedId, processesByName, hookResult)
    ensures !value && g.isOn ==> r == OffStep(g.(isOn := false))
  {
    if g.isOn == value then g
    else if value then OnStep(g.(isOn := true), selectedId, processesByName, hookResult)
    else OffStep(g.(isOn := false))
  }

  // ---- WinEventCallback --------------------------------------------------

  /** How many activation requests one foreground notification sends: none for a
      zero window or a window of the presenter's process, two otherwise. */
  function ActivationCount(hwnd: Handle, activePid: int, presenterPid: int): (n: nat)
    ensures n == 0 || n == 2
    ensures n == 0 <==> hwnd == NullHandle || activePid == presenterPid
  {
    if hwnd == NullHandle then 0
    else if activePid != presenterPid then 2
    else 0
  }

  /** `WinEventCallback` for the newly focused window `hwnd`, whose owning process
      `GetWindowThreadProcessId` reports as `activePid`: the cached state is left
      alone and the activation requests all go to the cached presenter window. */
  function CallbackStep(g: Guard, hwnd: Handle, activePid: int): (r: Guard)
    ensures r.isOn == g.isOn && r.hook == g.hook
    ensures r.presenterHwnd == g.presenterHwnd && r.presenterPid == g.presenterPid
    ensures g.calls <= r.calls
    ensures |r.calls| - |g.calls| == ActivationCount(hwnd, activePid, g.presenterPid)
    ensures forall i :: |g.calls| <= i < |r.calls| ==> r.calls[i] == ActivateRequest(g.presenterHwnd)
  {
    var n := ActivationCount(hwnd, activePid, g.presenterPid);
    g.(calls := g.calls + seq(n, _ => ActivateRequest(g.presenterHwnd)))
  }

  // ---- Hook accounting ---------------------------------------------------

  /** The hooks live after one more call: a successful `SetWinEventHook` adds
      the handle it returned, `UnhookWinEvent(h)` releases `h` (if live). */
  function AfterCall(live: multiset<Handle>, c: OsCall): multiset<Handle> {
    match c
    case SetWinEventHook(_, _, _, result) => if result != NullHandle then live + multiset{result} else live
    case UnhookWinEvent(h) => live - multiset{h}
    case SendMessage(_, _, _) => live
  }

  /** The handles installed and not yet released by a sequence of calls. */
  function LiveHooks(calls: seq<OsCall>): multiset<Handle>
    decreases |calls|
  {
    if calls == [] then multiset{}
    else AfterCall(LiveHooks(calls[..|calls| - 1]), calls[|calls| - 1])
  }

  lemma LiveHooksSnoc(calls: seq<OsCall>, c: OsCall)
    ensures LiveHooks(calls + [c]) == AfterCall(LiveHooks(calls), c)
  {
    assert (calls + [c])[..|calls|] == calls;
  }

  /** A failed installation (handle zero) never becomes live. */
  lemma {:induction false} NullHandleNeverLive(calls: seq<OsCall>)
    ensures NullHandle !in LiveHooks(calls)
    decreases |calls|
  {
    if calls != [] {
      NullHandleNeverLive(calls[..|calls| - 1]);
    }
  }

  /** Activation requests install and release nothing. */
  lemma {:induction false} ActivationsKeepLiveHooks(calls: seq<OsCall>, hwnd: Handle, n: nat)
    ensures LiveHooks(calls + seq(n, _ => ActivateRequest(hwnd))) == LiveHooks(calls)
    decreases n
  {
    if n == 0 {
      assert calls + seq(n, _ => ActivateRequest(hwnd)) == calls;
    } else {
      var prefix := calls + seq(n - 1, _ => ActivateRequest(hwnd));
      assert calls + seq(n, _ => ActivateRequest(hwnd)) == prefix + [ActivateRequest(hwnd)];
      LiveHooksSnoc(prefix, ActivateRequest(hwnd));
      ActivationsKeepLiveHooks(calls, hwnd, n - 1);
    }
  }

  /** No hook is left behind while guarding is off, and the cached hook is
      exactly the set of live hooks: `{hook}` when `hook` is non-zero, nothing
      otherwise. */
  ghost predicate NoDanglingHook(g: Guard) {
    && (!g.isOn ==> g.hook == NullHandle)
    && LiveHooks(g.calls) == (if g.hook == NullHandle then multiset{} else multiset{g.hook})
  }

  /** The `IsOn` setter keeps the hook accounting: a hook is only installed when
      none is live, and turning off releases exactly the cached one. */
  lemma IsOnStepKeepsNoDanglingHook(g: Guard, value: bool, selectedId: Option<string>,
                                    processesByName: string -> seq<ProcessWindow>, hookResult: Handle)
    requires NoDanglingHook(g)
    ensures NoDanglingHook(IsOnStep(g, value, selectedId, processesByName, hookResult))
  {
    var r := IsOnStep(g, value, selectedId, processesByName, hookResult);
    if value && !g.isOn && r != g.(isOn := true) {
      var id := selectedId.value;
      var hwnd := processesByName(id)[0].mainWindow;
      var install := SetWinEventHook(EVENT_SYSTEM_FOREGROUND, EVENT_SYSTEM_FOREGROUND,
                                     WINEVENT_OUTOFCONTEXT, hookResult);
      assert r.calls == (g.calls + [install]) + [ActivateRequest(hwnd)];
      LiveHooksSnoc(g.calls, install);
      LiveHooksSnoc(g.calls + [install], ActivateRequest(hwnd));
    } else if !value && g.isOn && g.hook != NullHandle {
      LiveHooksSnoc(g.calls, UnhookWinEvent(g.hook));
    }
  }

  /** A foreground notification never touches the hook accounting. */
  lemma CallbackStepKeepsNoDanglingHook(g: Guard, hwnd: Handle, activePid: int)
    requires NoDanglingHook(g)
    ensures NoDanglingHook(CallbackStep(g, hwnd, activePid))
  {
    var n := ActivationCount(hwnd, activePid, g.presenterPid);
    ActivationsKeepLiveHooks(g.calls, g.presenterHwnd, n);
  }

  // ---- Runs --------------------------------------------------------------

  /** One thing that can happen to the guard: the user assigns `IsOn` (with the
      selection and the OS answers at that moment), or the OS delivers a
      foreground notification, each handled as one atomic step. */
  datatype Event =
    | AssignIsOn(value: bool, selectedId: Option<string>,
                 processesByName: string -> seq<ProcessWindow>, hookResult: Handle)
    | ForegroundChanged(hwnd: Handle, activePid: int)

  function Step(g: Guard, e: Event): Guard {
    match e
    case AssignIsOn(value, selectedId, processesByName, hookResult) =>
      IsOnStep(g, value, selectedId, processesByName, hookResult)
    case ForegroundChanged(hwnd, activePid) => CallbackStep(g, hwnd, activePid)
  }

  function Run(g: Guard, events: seq<Event>): Guard
    decreases |events|
  {
    if events == [] then g else Run(Step(g, events[0]), events[1..])
  }

  /** Every run keeps the hook accounting. */
  lemma {:induction false} RunKeepsNoDanglingHook(g: Guard, events: seq<Event>)
    requires NoDanglingHook(g)
    ensures NoDanglingHook(Run(g, events))
    decreases |events|
  {
    if events != [] {
      match events[0] {
        case AssignIsOn(value, selectedId, processesByName, hookResult) =>
          IsOnStepKeepsNoDanglingHook(g, value, selectedId, processesByName, hookResult);
        case ForegroundChanged(hwnd, activePid) =>
          CallbackStepKeepsNoDanglingHook(g, hwnd, activePid);
      }
      RunKeepsNoDanglingHook(Step(g, events[0]), events[1..]);
    }
  }

  /** After any sequence of assignments and notifications starting from a new
      view model, a guard that is off holds no hook and has released every hook
      it ever installed. */
  lemma OffMeansNoHook(restoredOn: bool, events: seq<Event>)
    ensures var r := Run(InitialGuard(restoredOn), events);
            !r.isOn ==> r.hook == NullHandle && LiveHooks(r.calls) == multiset{}
  {
    RunKeepsNoDanglingHook(InitialGuard(restoredOn), events);
  }

  /** The converse does not hold: turning on for a process that is not running
      leaves the flag on with no hook installed. */
  lemma OnWithoutHookIsReachable(id: string, hookResult: Handle)
    ensures var r := Run(InitialGuard(false),
                         [AssignIsOn(true, Some(id), _ => [], hookResult)]);
            r.isOn && r.hook == NullHandle && r.calls == []
  {
  }

  /** Turning off twice releases the hook once: the second `OffMethod` issues no call. */
  lemma OffStepTwiceUnhooksOnce(g: Guard)
    ensures OffStep(OffStep(g)) == OffStep(g)
    ensures |OffStep(g).calls| <= |g.calls| + 1
  {
  }
}

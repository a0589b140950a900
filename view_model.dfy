/** `MainViewModel` and `WindowOption` as classes: the fields the C# setters and
    methods update in place, with the Win32 and file calls replaced by parameters
    (what the OS answers) and by fields (what was written). */
module ViewModel {
  import opened Wrappers
  import opened LineFormats
  import opened FocusGuard
  import opened OptionList

  /** One entry of the option list. Its display text and Id are fixed here: the
      only code that changes them, `EditOption`, is not part of this model. */
  class WindowOption {
    const displayText: string
    const id: string
    var isSelected: bool

    constructor (displayText: string, id: string)
      ensures this.displayText == displayText && this.id == id && !isSelected
    {
      this.displayText := displayText;
      this.id := id;
      isSelected := false;
    }

    /** The `IsSelected` setter; the flag is written only when it changes, which
        matters to the change notification only. */
    method SetIsSelected(value: bool)
      modifies this`isSelected
      ensures isSelected == value
    {
      if isSelected != value {
        isSelected := value;
      }
    }
  }

  /** The display text and Id of each option, in list order. */
  function EntriesOf(os: seq<WindowOption>): seq<Entry> {
    seq(|os|, i requires 0 <= i < |os| => Entry(os[i].displayText, os[i].id))
  }

  lemma EntriesOfSnoc(os: seq<WindowOption>, o: WindowOption)
    ensures EntriesOf(os + [o]) == EntriesOf(os) + [Entry(o.displayText, o.id)]
  {
  }

  /** The options a missing options file or the lines of an existing one yield. */
  function OptionFileEntries(file: Option<seq<string>>): seq<Entry> {
    match file
    case None => []
    case Some(lines) => ParseOptionLines(lines)
  }

  /** What `LoadState` restores from a missing state file or the lines of an
      existing one. */
  function StateFileContents(file: Option<seq<string>>): Option<SavedState> {
    match file
    case None => None
    case Some(lines) => DecodeState(lines)
  }

  /** The `foreach` loop of `LoadOptions`: a new, unselected option for every
      line with at least two comma-separated fields, in file order. */
  method OptionsFromLines(lines: seq<string>) returns (loaded: seq<WindowOption>)
    ensures EntriesOf(loaded) == ParseOptionLines(lines)
    ensures forall o :: o in loaded ==> fresh(o) && !o.isSelected
    ensures Distinct(loaded)
  {
    loaded := [];
    var i := 0;
    while i < |lines|
      invariant 0 <= i <= |lines|
      invariant EntriesOf(loaded) == ParseOptionLines(lines[..i])
      invariant forall o :: o in loaded ==> fresh(o) && !o.isSelected
      invariant Distinct(loaded)
    {
      ParseOptionLinesSnoc(lines, i);
      loaded := OptionFromLine(loaded, lines[i]);
      i := i + 1;
    }
    assert lines[..|lines|] == lines;
  }

  /** One pass of that loop: split the line at the commas and append an option
      made of its first two fields, if it has two. */
  method OptionFromLine(loaded: seq<WindowOption>, line: string) returns (r: seq<WindowOption>)
    requires Distinct(loaded)
    ensures var parts := Split(line, Comma);
            EntriesOf(r) == EntriesOf(loaded) + (if |parts| >= 2 then [Entry(parts[0], parts[1])] else [])
    ensures forall o :: o in r ==> o in loaded || (fresh(o) && !o.isSelected)
    ensures Distinct(r)
  {
    var parts := Split(line, Comma);
    r := loaded;
    if |parts| >= 2 {
      var option := new WindowOption(parts[0], parts[1]);
      EntriesOfSnoc(loaded, option);
      r := loaded + [option];
    }
  }

  /** The body of `LoadOptions`: nothing when the file is missing, else the loop. */
  method OptionsFromFile(file: Option<seq<string>>) returns (loaded: seq<WindowOption>)
    ensures EntriesOf(loaded) == OptionFileEntries(file)
    ensures forall o :: o in loaded ==> fresh(o) && !o.isSelected
    ensures Distinct(loaded)
  {
    loaded := [];
    if file.Some? {
      loaded := OptionsFromLines(file.value);
    }
  }

  /** The constructor's "PowerPoint option always first" step: put a new
      PowerPoint option at the front unless some option already has its Id. */
  method PowerPointFirst(os: seq<WindowOption>) returns (r: seq<WindowOption>)
    requires Distinct(os)
    ensures EntriesOf(r) == WithPowerPoint(EntriesOf(os))
    ensures forall o :: o in r ==> o in os || (fresh(o) && !o.isSelected)
    ensures Distinct(r)
  {
    r := os;
    if !HasId(EntriesOf(os), PowerPointId) {
      var ppt := new WindowOption(PowerPointText, PowerPointId);
      r := [ppt] + os;
      assert EntriesOf(r)[1..] == EntriesOf(os);
    }
  }

  /** The constructor's list: the options file's entries, with the PowerPoint
      option in front when the file has none, all new and unselected. */
  method InitialOptions(file: Option<seq<string>>) returns (r: seq<WindowOption>)
    ensures EntriesOf(r) == WithPowerPoint(OptionFileEntries(file))
    ensures |r| > 0
    ensures forall i :: 0 <= i < |r| ==> fresh(r[i]) && !r[i].isSelected
    ensures Distinct(r)
  {
    var loaded := OptionsFromFile(file);
    r := PowerPointFirst(loaded);
    assert |EntriesOf(r)| > 0;
    forall i | 0 <= i < |r|
      ensures fresh(r[i]) && !r[i].isSelected
    {
      assert r[i] in r;
    }
  }

  /** Single selection: the options are distinct objects, the selected option
      carries the flag, and no other option in the list does. */
  ghost predicate SingleSelection(options: seq<WindowOption>, selected: WindowOption?)
    reads options, selected
  {
    && Distinct(options)
    && (selected != null ==> selected.isSelected)
    && (forall i :: 0 <= i < |options| && options[i].isSelected ==> options[i] == selected)
  }

  class MainViewModel {
    var isOn: bool
    var hook: Handle                  // _winEventHook
    var presenterHwnd: Handle         // static in the C# class
    var presenterProcessId: int       // static in the C# class
    var osCalls: seq<OsCall>          // the Win32 calls issued, in order
    var options: seq<WindowOption>    // DynamicOptions
    var selected: WindowOption?       // _selectedOption
    var lastSelectedId: Option<string>
    var stateFile: Option<seq<string>>    // window_state.csv; None when absent
    var optionsFile: Option<seq<string>>  // window_options.csv; None when absent

    /** The guard fields as a value, for the functions of module FocusGuard. */
    function GuardView(): Guard
      reads this
    {
      Guard(isOn, hook, presenterHwnd, presenterProcessId, osCalls)
    }

    /** `SelectedOption?.Id`. */
    function SelectedId(): Option<string>
      reads this
    {
      if selected == null then None else Some(selected.id)
    }

    /** The `IsSelected` flags of the options, in list order. */
    function Flags(): seq<bool>
      reads this, options
    {
      seq(|options|, i reads this, options requires 0 <= i < |options| => options[i].isSelected)
    }

    /** The hook invariant alone; the methods that change only the guard fields
        keep it, and their `modifies` clauses leave the selection alone. */
    ghost predicate Guarded()
      reads this
    {
      NoDanglingHook(GuardView())
    }

    ghost predicate Valid()
      reads this, options, selected
    {
      SingleSelection(options, selected) && Guarded()
    }

    /** The constructor: load the options file and make sure a PowerPoint option
        exists, then restore the state file and select the option with the
        restored Id or else the first one. The C# constructor reads the state file
        before the options file; the two touch different fields, so the order
        does not matter. Guarding is NOT started even when the restored flag is on. */
    constructor (stateFile: Option<seq<string>>, optionsFile: Option<seq<string>>)
      ensures Valid()
      ensures this.stateFile == stateFile && this.optionsFile == optionsFile
      ensures GuardView() == InitialGuard(isOn)
      ensures isOn == (StateFileContents(stateFile).Some? && StateFileContents(stateFile).value.isOn)
      ensures lastSelectedId == if StateFileContents(stateFile).Some?
                                then Some(StateFileContents(stateFile).value.selectedId) else None
      ensures EntriesOf(options) == WithPowerPoint(OptionFileEntries(optionsFile))
      ensures HasId(EntriesOf(options), PowerPointId)
      ensures |options| > 0 && selected != null
      ensures selected == options[InitialSelection(EntriesOf(options), lastSelectedId)]
      ensures forall o :: o in options ==> fresh(o)
    {
      this.stateFile := stateFile;
      this.optionsFile := optionsFile;
      isOn := false;
      hook := NullHandle;
      presenterHwnd := NullHandle;
      presenterProcessId := 0;
      osCalls := [];
      var listed := InitialOptions(optionsFile);
      options := listed;
      selected := null;
      lastSelectedId := None;
      new;
      LoadStateAndSelection();
    }

    /** The constructor's steps after the list is built: restore the state file,
        then the selection. */
    method LoadStateAndSelection()
      requires Valid() && selected == null && |options| > 0 && GuardView() == InitialGuard(false)
      requires lastSelectedId == None
      modifies this`isOn, this`lastSelectedId, this`selected, options
      ensures Valid()
      ensures GuardView() == InitialGuard(isOn)
      ensures options == old(options) && stateFile == old(stateFile) && optionsFile == old(optionsFile)
      ensures isOn == (StateFileContents(stateFile).Some? && StateFileContents(stateFile).value.isOn)
      ensures lastSelectedId == if StateFileContents(stateFile).Some?
                                then Some(StateFileContents(stateFile).value.selectedId) else None
      ensures selected != null
      ensures selected == options[InitialSelection(EntriesOf(options), lastSelectedId)]
    {
      LoadState();
      ghost var restoredOn, restoredId := isOn, lastSelectedId;
      RestoreSelection();
      assert isOn == restoredOn && lastSelectedId == restoredId;
    }

    /** The constructor's selection step: select the first option whose Id is the
        restored one, if there is a restored Id and such an option; then, if
        nothing is selected yet, the first option. */
    method RestoreSelection()
      requires Valid() && selected == null && |options| > 0
      modifies this`selected, options
      ensures Valid()
      ensures options == old(options) && GuardView() == old(GuardView())
      ensures lastSelectedId == old(lastSelectedId)
      ensures stateFile == old(stateFile) && optionsFile == old(optionsFile)
      ensures selected == options[InitialSelection(EntriesOf(options), lastSelectedId)]
    {
      if lastSelectedId.Some? && lastSelectedId.value != "" {
        var k := IndexOfId(EntriesOf(options), lastSelectedId.value);
        if k.Some? {
          SetSelectedOption(options[k.value]);
        }
      }
      if selected == null && |options| > 0 {
        SetSelectedOption(options[0]);
      }
    }

    /** `LoadState`: adopt the flag and the selected Id of a well-formed state
        file; a missing, short or unparsable file changes nothing. Only the
        constructor calls it, before any hook exists. */
    method LoadState()
      requires Valid() && hook == NullHandle
      modifies this`isOn, this`lastSelectedId
      ensures Valid()
      ensures StateFileContents(stateFile).None? ==>
                isOn == old(isOn) && lastSelectedId == old(lastSelectedId)
      ensures StateFileContents(stateFile).Some? ==>
                isOn == StateFileContents(stateFile).value.isOn &&
                lastSelectedId == Some(StateFileContents(stateFile).value.selectedId)
    {
      if stateFile.Some? {
        var lines := stateFile.value;
        if |lines| >= 2 {
          var parsed := ParseBool(lines[0]);
          if parsed.Some? {
            isOn := parsed.value;
            lastSelectedId := Some(lines[1]);
          }
        }
      }
    }

    /** `LoadOptions`: replace the list with one new, unselected option per line
        of the options file that has at least two comma-separated fields. */
    method LoadOptions()
      requires Valid()
      modifies this`options
      ensures Valid()
      ensures EntriesOf(options) == OptionFileEntries(optionsFile)
      ensures forall o :: o in options ==> fresh(o) && !o.isSelected
    {
      options := OptionsFromFile(optionsFile);
    }

    /** `SaveState`: write the flag and the selected Id (or "") to the state file. */
    method SaveState()
      modifies this`stateFile
      ensures stateFile == Some(EncodeState(isOn, SelectedId()))
      ensures StateFileContents(stateFile) == Some(SavedState(isOn, SelectedId().GetOr("")))
    {
      stateFile := Some(EncodeState(isOn, SelectedId()));
    }

    /** `SaveOptions`: write one `DisplayText,Id` line per option, then save the state. */
    method SaveOptions()
      modifies this`optionsFile, this`stateFile
      ensures optionsFile == Some(EncodeOptions(EntriesOf(options)))
      ensures stateFile == Some(EncodeState(isOn, SelectedId()))
      ensures CommaFree(EntriesOf(options)) ==> OptionFileEntries(optionsFile) == EntriesOf(options)
    {
      optionsFile := Some(EncodeOptions(EntriesOf(options)));
      if CommaFree(EntriesOf(options)) {
        OptionsRoundTrip(EntriesOf(options));
      }
      SaveState();
    }

    /** The `SelectedOption` setter: on a change, clear the old option's flag and
        set the new one's. */
    method SetSelectedOption(value: WindowOption?)
      requires Valid()
      modifies this`selected, selected, value
      ensures Valid()
      ensures selected == value
      ensures value != null ==> value.isSelected
      ensures old(selected) != null && old(selected) != value ==> !old(selected).isSelected
      ensures old(selected) == value ==> Flags() == old(Flags())
      ensures forall i :: 0 <= i < |options| && options[i].isSelected ==> options[i] == value
    {
      if selected != value {
        if selected != null {
          selected.SetIsSelected(false);
        }
        selected := value;
        if selected != null {
          selected.SetIsSelected(true);
        }
      }
    }

    /** `AddOption`: refuse (with a dialog) when the list already holds
        `MaxOptions` or more options; otherwise append one new, unselected option. */
    method AddOption(displayText: string, id: string)
      requires Valid()
      modifies this`options
      ensures Valid()
      ensures old(|options|) >= MaxOptions ==> options == old(options)
      ensures old(|options|) < MaxOptions ==>
                && |options| == old(|options|) + 1
                && options[..|options| - 1] == old(options)
                && EntriesOf(options) == old(EntriesOf(options)) + [Entry(displayText, id)]
                && fresh(options[|options| - 1]) && !options[|options| - 1].isSelected
      ensures |options| <= MaxOptions || options == old(options)
    {
      if |options| >= MaxOptions {
        return;
      }
      var option := new WindowOption(displayText, id);
      options := options + [option];
      assert options[..|options| - 1] == old(options);
    }

    /** `DeleteOption`: remove the given option from the list. The selection is
        left as it is, so a deleted option can stay selected. */
    method DeleteOption(option: WindowOption?)
      requires Valid()
      modifies this`options
      ensures Valid()
      ensures option == null ==> options == old(options)
      ensures option != null ==> options == RemoveFirst(old(options), option) && option !in options
      ensures selected == old(selected)
    {
      if option != null {
        ghost var before := options;
        options := RemoveFirst(options, option);
        forall i | 0 <= i < |options| && options[i].isSelected
          ensures options[i] == selected
        {
          assert options[i] in before;
        }
      }
    }

    /** `OnMethod`: look up the selected option's process by name; on a match,
        cache its window and pid, install the foreground hook and activate the
        window. No selection or no process shows a dialog and changes nothing.
        `processesByName` is what `Process.GetProcessesByName` answers and
        `hookResult` what `SetWinEventHook` returns. */
    method OnMethod(processesByName: string -> seq<ProcessWindow>, hookResult: Handle)
      modifies this`hook, this`presenterHwnd, this`presenterProcessId, this`osCalls
      ensures GuardView() == OnStep(old(GuardView()), SelectedId(), processesByName, hookResult)
    {
      if selected == null {
        return;
      }
      var procs := processesByName(selected.id);
      if |procs| > 0 {
        presenterHwnd := procs[0].mainWindow;
        presenterProcessId := procs[0].pid;
        hook := hookResult;
        osCalls := osCalls + [SetWinEventHook(EVENT_SYSTEM_FOREGROUND, EVENT_SYSTEM_FOREGROUND,
                                              WINEVENT_OUTOFCONTEXT, hookResult)];
        osCalls := osCalls + [ActivateRequest(presenterHwnd)];
      }
    }

    /** `OffMethod`: unhook and zero the hook, if there is one. */
    method OffMethod()
      modifies this`hook, this`osCalls
      ensures GuardView() == OffStep(old(GuardView()))
    {
      if hook != NullHandle {
        osCalls := osCalls + [UnhookWinEvent(hook)];
        hook := NullHandle;
      }
    }

    /** The `IsOn` setter: on a change, store the flag, run `OnMethod` or
        `OffMethod`, then save the state file. Assigning the current value does
        nothing at all. */
    method SetIsOn(value: bool, processesByName: string -> seq<ProcessWindow>, hookResult: Handle)
      requires Guarded()
      modifies this`isOn, this`hook, this`presenterHwnd, this`presenterProcessId, this`osCalls,
               this`stateFile
      ensures Guarded()
      ensures GuardView() == IsOnStep(old(GuardView()), value, SelectedId(), processesByName, hookResult)
      ensures stateFile == if old(isOn) == value then old(stateFile)
                           else Some(EncodeState(value, SelectedId()))
    {
      ghost var before := GuardView();
      ghost var id := SelectedId();
      IsOnStepKeepsNoDanglingHook(before, value, id, processesByName, hookResult);
      if isOn != value {
        isOn := value;
        assert GuardView() == before.(isOn := value);
        if isOn {
          OnMethod(processesByName, hookResult);
          assert GuardView() == OnStep(before.(isOn := true), id, processesByName, hookResult);
        } else {
          OffMethod();
          assert GuardView() == OffStep(before.(isOn := false));
        }
        ghost var after := GuardView();
        SaveState();
        assert GuardView() == after;
      }
    }

    /** `WinEventCallback` for a foreground change to `hwnd`, whose owning process
        is `activePid`: activate the cached presenter window twice unless the
        new window is null or belongs to the presenter's process. */
    method WinEventCallback(hwnd: Handle, activePid: int)
      requires Guarded()
      modifies this`osCalls
      ensures Guarded()
      ensures GuardView() == CallbackStep(old(GuardView()), hwnd, activePid)
    {
      ghost var before := GuardView();
      CallbackStepKeepsNoDanglingHook(before, hwnd, activePid);
      if hwnd == NullHandle {
        return;
      }
      if activePid != presenterProcessId {
        osCalls := osCalls + [ActivateRequest(presenterHwnd)];
        osCalls := osCalls + [ActivateRequest(presenterHwnd)];
        var request := ActivateRequest(before.presenterHwnd);
        assert osCalls == before.calls + seq(2, _ => request);
      }
    }
  }
}

# AlwaysInFocus — a Dafny model of the focus guard

AlwaysInFocus is a small Windows tray tool that keeps one application window
(by default PowerPoint's presenter view) in the foreground. The user picks a
window option (a display text and a process name used as the Id) and turns the
guard on. The view model then finds the process and remembers its main window
and process id. It installs a system-wide foreground-change hook and
re-activates that window whenever another process takes the focus. The option
list and the on/off state with the selected Id are saved to two small CSV files
and restored at start-up. `AddOption` refuses to add past five options, but a
list loaded from the options file can be longer.

This project models the core of that program, the `MainViewModel` and
`WindowOption` classes of `AlwaysInFocus/MainWindow.xaml.cs`. It has five modules:

- `Wrappers` holds the `Option` type.
- `LineFormats` holds the two file formats. `window_options.csv` has one
  `DisplayText,Id` line per option and is read with `String.Split(',')`.
  `window_state.csv` has the flag as `bool.ToString()` and the selected Id, and
  its flag is read back with `bool.Parse`. Round trips are proved for both, as is
  the loss of a comma typed into a display text.
- `FocusGuard` is the on/off guard as a value. It holds `isOn`, the hook handle,
  the cached presenter window and process id, and the list of Win32 calls
  issued. Each of `OnMethod`, `OffMethod`, the `IsOn` setter and
  `WinEventCallback` is a function on that value. The hook accounting
  invariant (`NoDanglingHook`) tracks handles: the hooks installed and not yet
  released are exactly the cached one. It is proved to survive every step and
  every run.
- `OptionList` holds the list rules: the limit `AddOption` enforces, first-match lookup,
  `List.Remove`, the PowerPoint default and the selection the constructor
  restores.
- `ViewModel` holds the two classes with the fields the C# code updates in
  place. `OnMethod`, `OffMethod`, the `IsOn` setter and `WinEventCallback` are
  proved to change the guard fields exactly as the matching `FocusGuard`
  function says. Loading, saving and `DeleteOption` are stated through the
  `LineFormats` and `OptionList` functions. `AddOption` and the
  `SelectedOption` setter state their effect on the list and the flags
  directly.
- The class invariant says that at most the selected option carries
  `IsSelected` and that no hook is left open. The constructor, the
  `SelectedOption` setter, `AddOption`, `DeleteOption`, `LoadOptions` and the
  constructor's loading steps keep all of it. The `IsOn` setter and
  `WinEventCallback` keep its hook part and leave the selection fields alone.
  The private helpers `OnMethod` and `OffMethod` state only their effect: the
  invariant holds around them inside the `IsOn` setter, and not on its own
  (`OnMethod` called while off would leave a hook with the flag off).

The world outside the program becomes parameters and fields:

- `Process.GetProcessesByName` is a function parameter
  (`processesByName: string -> seq<ProcessWindow>`). `GetWindowThreadProcessId`
  is folded into it for the presenter window, and it is a plain `activePid`
  argument for the callback.
- The handle `SetWinEventHook` returns is a parameter (`hookResult`). It may be
  zero, because the code does not check it.
- `SetWinEventHook`, `UnhookWinEvent` and `SendMessage` are recorded, in order,
  in the `osCalls` field.
- The two files are the fields `stateFile` and `optionsFile`
  (`None` = file absent). The constructor takes them as arguments.

The model follows the code where its behaviour may be surprising:

- The flag stays on when `OnMethod` finds no selection or no process.
  `OnWithoutHookIsReachable` exhibits this state.
- A flag restored as on at start-up installs no hook: the constructor assigns
  the field, not the property.
- So only "off implies no hook" holds (`OffMeansNoHook`); "on implies a hook"
  does not.
- The callback re-activates the cached window without checking that it still
  exists. Its "retry" is a second, synchronous `SendMessage` after a 2 ms sleep.

## Model

| member | source | states |
|---|---|---|
| `LineFormats.Split` | AlwaysInFocus/MainWindow.xaml.cs:257 | `String.Split(',')`: at least one piece, no piece holds the separator, and joining the pieces with it gives back the line |
| `LineFormats.JoinShowsSeparator` | AlwaysInFocus/MainWindow.xaml.cs:257 | with two or more pieces the separator occurs in the line, right after the first piece; with exactly two the line is `first,second`, and with more `first,second,` is a prefix |
| `LineFormats.SplitHasTwoFieldsIff` | AlwaysInFocus/MainWindow.xaml.cs:257-258 | `parts.Length >= 2` holds exactly when the line contains a comma (both directions) |
| `LineFormats.SplitWithoutSeparator` | AlwaysInFocus/MainWindow.xaml.cs:257 | a comma-free string splits into itself alone |
| `LineFormats.SplitAfterField` | AlwaysInFocus/MainWindow.xaml.cs:257 | splitting `a,rest` with comma-free `a` yields `a` followed by the pieces of `rest` |
| `LineFormats.ParseOptionLine` | AlwaysInFocus/MainWindow.xaml.cs:257-259 | a line yields an option exactly when it has a comma; the option's fields are comma-free, and the line is its `DisplayText,Id` encoding followed either by nothing or by a comma (so the Id is the whole second field) |
| `LineFormats.ParseOptionLines` | AlwaysInFocus/MainWindow.xaml.cs:250-262 | the loaded list is never longer than the file, and is as long when every line has a comma |
| `LineFormats.ParseOptionLinesSnoc` | AlwaysInFocus/MainWindow.xaml.cs:255-260 | one more line extends the loaded list by the option its first two fields make, or by nothing |
| `LineFormats.OptionLineRoundTrip` | AlwaysInFocus/MainWindow.xaml.cs:257-259 | a saved option line reads back as the same option when neither field holds a comma |
| `LineFormats.EncodeOptionLine` | AlwaysInFocus/MainWindow.xaml.cs:305 | a saved line starts with the display text followed by a comma, so it always has two fields and `LoadOptions` never skips it |
| `LineFormats.EncodeOptions` | AlwaysInFocus/MainWindow.xaml.cs:305 | one line per option, in list order, every one holding a comma |
| `LineFormats.OptionsRoundTrip` | AlwaysInFocus/MainWindow.xaml.cs:303-306 | reading the options file `SaveOptions` wrote gives back the list, in order, when no field holds a comma |
| `LineFormats.CommaInDisplayTextIsLost` | AlwaysInFocus/MainWindow.xaml.cs:257-259 | a display text `a,b` saved with any Id reads back as display text `a` with Id `b` |
| `LineFormats.TrimStart` | AlwaysInFocus/MainWindow.xaml.cs:273 | the result is a suffix of the input that does not start with white space, and every character removed is white space |
| `LineFormats.TrimEnd` | AlwaysInFocus/MainWindow.xaml.cs:273 | the result is a prefix of the input that does not end with white space, and every character removed is white space |
| `LineFormats.TrimKeeps` | AlwaysInFocus/MainWindow.xaml.cs:273 | trimming leaves alone a string that neither starts nor ends with white space |
| `LineFormats.EqualsIgnoreCaseReflexive` | AlwaysInFocus/MainWindow.xaml.cs:273 | every string equals itself ignoring case, as `bool.Parse` compares |
| `LineFormats.DecodeState` | AlwaysInFocus/MainWindow.xaml.cs:263-286 | the state file is adopted exactly when it has two or more lines and the first parses as a boolean; then the flag is that boolean and the Id the second line |
| `LineFormats.ParseBool` | AlwaysInFocus/MainWindow.xaml.cs:273 | an accepted text gives `true` exactly when its trimmed form has the four letters of `True`, and `false` for the five of `False` |
| `LineFormats.BoolToString` | AlwaysInFocus/MainWindow.xaml.cs:293 | `bool.Parse(b.ToString()) == b` for both booleans |
| `LineFormats.EncodeState` | AlwaysInFocus/MainWindow.xaml.cs:291-295 | the state file has two lines, and reading it back restores the flag and the Id, with no selection coming back as "" |
| `FocusGuard.OnStep` | AlwaysInFocus/MainWindow.xaml.cs:134-156 | with no selection or no matching process nothing changes; otherwise the first process's window and pid are cached, the hook handle is stored, and exactly a hook installation and one activation request are issued |
| `FocusGuard.OffStep` | AlwaysInFocus/MainWindow.xaml.cs:157-165 | the hook ends up zero; a live hook is released with exactly one unhook call, and a zero hook changes nothing |
| `FocusGuard.IsOnStep` | AlwaysInFocus/MainWindow.xaml.cs:93-108 | assigning the current value changes nothing; a change stores the flag first and then runs `OnMethod` (on) or `OffMethod` (off) |
| `FocusGuard.ActivationCount` | AlwaysInFocus/MainWindow.xaml.cs:169-187 | a notification sends 0 or 2 requests, and 0 exactly when the window is null or belongs to the presenter's process |
| `FocusGuard.CallbackStep` | AlwaysInFocus/MainWindow.xaml.cs:167-188 | a notification changes no cached state and only appends that many activation requests, all for the cached presenter window |
| `FocusGuard.InitialGuard` | AlwaysInFocus/MainWindow.xaml.cs:190-221 | a new view model has no live hook, whatever flag it restored |
| `FocusGuard.LiveHooksSnoc` | AlwaysInFocus/MainWindow.xaml.cs:148-161 | one more call changes the live hook handles by that call alone: a non-zero installed handle is added, an unhooked handle removed |
| `FocusGuard.NullHandleNeverLive` | AlwaysInFocus/MainWindow.xaml.cs:148-151 | a failed installation (handle zero) never counts as a live hook |
| `FocusGuard.ActivationsKeepLiveHooks` | AlwaysInFocus/MainWindow.xaml.cs:184-186 | activation requests leave the live hook handles unchanged |
| `FocusGuard.IsOnStepKeepsNoDanglingHook` | AlwaysInFocus/MainWindow.xaml.cs:93-108 | every `IsOn` assignment keeps the invariant: off means a zero hook, and the handles installed and not yet unhooked are exactly `{hook}` (none when it is zero) |
| `FocusGuard.CallbackStepKeepsNoDanglingHook` | AlwaysInFocus/MainWindow.xaml.cs:167-188 | a foreground notification keeps that invariant |
| `FocusGuard.RunKeepsNoDanglingHook` | AlwaysInFocus/MainWindow.xaml.cs:93-188 | any interleaving of assignments and notifications keeps that invariant |
| `FocusGuard.OffMeansNoHook` | AlwaysInFocus/MainWindow.xaml.cs:157-165 | from start-up, whenever the guard is off the hook is zero and every handle ever installed has been released by an unhook call with that handle |
| `FocusGuard.OnWithoutHookIsReachable` | AlwaysInFocus/MainWindow.xaml.cs:98-103 | turning on for a process that is not running leaves the flag on with no hook and no call issued |
| `FocusGuard.OffStepTwiceUnhooksOnce` | AlwaysInFocus/MainWindow.xaml.cs:157-165 | turning off is idempotent and issues at most one call |
| `OptionList.FirstIndex` | AlwaysInFocus/MainWindow.xaml.cs:209 | `FirstOrDefault`: the result satisfies the predicate and no earlier element does; `None` means none does |
| `OptionList.RemoveAtKeepsOthers` | AlwaysInFocus/MainWindow.xaml.cs:247 | removing one position shortens by one, removes one copy of that element, keeps the others and keeps distinctness |
| `OptionList.RemoveFirst` | AlwaysInFocus/MainWindow.xaml.cs:247 | `Remove` of an absent element changes nothing; otherwise one copy goes and nothing is invented; in a list without duplicates the element is gone entirely |
| `OptionList.RemoveFirstCutsFirstOccurrence` | AlwaysInFocus/MainWindow.xaml.cs:247 | the copy `Remove` drops is the first occurrence, and the result is the list with that one position cut out, the rest in order |
| `OptionList.IndexOfId` | AlwaysInFocus/MainWindow.xaml.cs:209 | finds an option with the Id exactly when one exists, and it is the first such option |
| `OptionList.WithPowerPoint` | AlwaysInFocus/MainWindow.xaml.cs:203-204 | the result always has a "POWERPNT" option; an existing one leaves the list alone, otherwise the default is put in front of the unchanged list |
| `OptionList.InitialSelection` | AlwaysInFocus/MainWindow.xaml.cs:205-219 | selects the first option with a non-empty persisted Id when one exists, else the first option |
| `OptionList.RestartRestoresSelection` | AlwaysInFocus/MainWindow.xaml.cs:190-221 | after saving both files, a restart restores the flag and selects an option with the Id that was selected |
| `ViewModel.WindowOption.constructor` | AlwaysInFocus/MainWindow.xaml.cs:20-26 | a new option has the given display text and Id and is not selected |
| `ViewModel.WindowOption.SetIsSelected` | AlwaysInFocus/MainWindow.xaml.cs:27-38 | the flag ends up equal to the assigned value |
| `ViewModel.EntriesOfSnoc` | AlwaysInFocus/MainWindow.xaml.cs:259 | appending an option appends its display text and Id to the list's entries |
| `ViewModel.OptionsFromLines` | AlwaysInFocus/MainWindow.xaml.cs:255-260 | the loop builds new, unselected, distinct options whose entries are exactly `ParseOptionLines` of the file |
| `ViewModel.OptionFromLine` | AlwaysInFocus/MainWindow.xaml.cs:257-259 | one pass appends a new unselected option from the first two fields of a line with two or more, and nothing otherwise |
| `ViewModel.OptionsFromFile` | AlwaysInFocus/MainWindow.xaml.cs:250-262 | a missing file gives the empty list; otherwise the list the loop builds |
| `ViewModel.InitialOptions` | AlwaysInFocus/MainWindow.xaml.cs:200-204 | the constructor's list is `WithPowerPoint` of the options file's entries, never empty, made of new, distinct, unselected options |
| `ViewModel.PowerPointFirst` | AlwaysInFocus/MainWindow.xaml.cs:203-204 | the list's entries become `WithPowerPoint` of the old ones; the only new object is a fresh unselected PowerPoint option |
| `ViewModel.MainViewModel.constructor` | AlwaysInFocus/MainWindow.xaml.cs:190-221 | the invariant holds; the guard holds the restored flag with no hook, no cached window and no call; the flag and Id come from the state file; the list is the file's options with the PowerPoint default; the selection is `InitialSelection` and is never null |
| `ViewModel.MainViewModel.LoadStateAndSelection` | AlwaysInFocus/MainWindow.xaml.cs:196-220 | restores the state file, then selects per `InitialSelection`, leaving the list, the files and the hook alone |
| `ViewModel.MainViewModel.RestoreSelection` | AlwaysInFocus/MainWindow.xaml.cs:205-220 | selects `options[InitialSelection(...)]` through the `SelectedOption` setter and keeps the invariant |
| `ViewModel.MainViewModel.LoadState` | AlwaysInFocus/MainWindow.xaml.cs:263-286 | adopts the flag and Id of a well-formed state file and changes nothing otherwise, without installing a hook |
| `ViewModel.MainViewModel.LoadOptions` | AlwaysInFocus/MainWindow.xaml.cs:250-262 | replaces the list with new, unselected options whose entries are those of the options file |
| `ViewModel.MainViewModel.SaveState` | AlwaysInFocus/MainWindow.xaml.cs:287-302 | the state file holds the flag and the selected Id (or ""), and it decodes back to them |
| `ViewModel.MainViewModel.SaveOptions` | AlwaysInFocus/MainWindow.xaml.cs:303-307 | writes one line per option and then the state file; with comma-free fields the options file reads back as the list |
| `ViewModel.MainViewModel.SetSelectedOption` | AlwaysInFocus/MainWindow.xaml.cs:111-129 | the new value is selected and flagged, the previous one is unflagged, re-assigning changes no flag, and no other listed option is flagged |
| `ViewModel.MainViewModel.AddOption` | AlwaysInFocus/MainWindow.xaml.cs:222-230 | at five or more options nothing changes; otherwise one new unselected option is appended and the rest is kept; an add never makes the list longer than five (a longer loaded list is left as it is) |
| `ViewModel.MainViewModel.DeleteOption` | AlwaysInFocus/MainWindow.xaml.cs:243-249 | the list becomes `RemoveFirst` of the old one, the option is no longer listed, and the selection is left as it was |
| `ViewModel.MainViewModel.OnMethod` | AlwaysInFocus/MainWindow.xaml.cs:134-156 | the guard fields change exactly as `OnStep` says for the current selection |
| `ViewModel.MainViewModel.OffMethod` | AlwaysInFocus/MainWindow.xaml.cs:157-165 | the guard fields change exactly as `OffStep` says |
| `ViewModel.MainViewModel.SetIsOn` | AlwaysInFocus/MainWindow.xaml.cs:93-108 | the guard fields change as `IsOnStep` says and keep the hook invariant; the state file is rewritten only on a change |
| `ViewModel.MainViewModel.WinEventCallback` | AlwaysInFocus/MainWindow.xaml.cs:167-188 | the guard fields change as `CallbackStep` says and keep the hook invariant |

## Left out

- The Win32 and process calls (`GetProcessesByName`, `GetWindowThreadProcessId`, `SetWinEventHook`, `UnhookWinEvent`, `SendMessage`) are not modelled. Their answers are parameters and their effects are recorded calls, because foreign code cannot be modelled.
- When and how Windows delivers foreground notifications is not modelled, nor is the `Thread.Sleep(2)` between the two requests. Each notification is one atomic step here, because the model has no clock and no message loop.
- The presenter window and process id are `static` in the C# class. They are instance fields here, because the program has a single view model.
- `GetProcessesByName` matches process names without regard to case. That lookup belongs to the parameter, so nothing about it is modelled.
- `bool.Parse` trims Unicode white space and folds case over all of Unicode. Only the ASCII white space, NUL and ASCII case folding are modelled, because the two literals it accepts are ASCII. As a result, a state file whose flag line is padded with other white space, such as a no-break space before `True`, is adopted by the program but rejected by the model.
- ParseBool: its contract states only which boolean an accepted text gives. Which texts it accepts (the trimmed text equal to `True` or `False` ignoring case) is stated by its definition alone, because as a postcondition it makes the proofs that use `ParseBool` too costly.
- `File.ReadAllLines` / `File.WriteAllLines` line splitting and encodings are not modelled. A file is its sequence of lines, because the line format is what the program relies on. As a result, a display text or Id holding `\r` or `\n` does not round-trip in the program, although `OptionsRoundTrip` asks only for comma-free fields and `EncodeState` for nothing.
- I/O exceptions are not modelled. `LoadState`'s `catch` covers a malformed flag, which is modelled as "no change". Errors from the file system itself are out of scope.
- `MessageBox` dialogs, `Debug`/`Console` output and `INotifyPropertyChanged` events are not modelled, because they change no modelled state.
- `EditOption` and `EditOptionDialog` are not modelled, because they belong to the dialog UI. For the same reason, `WindowOption`'s `DisplayText` and `Id` setters are absent and those fields are constant.
- `MainWindow`, the tray icon, `RelayCommand`, the value converters and `App.xaml.cs` are not part of this model. They are UI wiring.
- `IsPowerPointSelected`, `OnOffLabel` and `IsThisSelected` are not modelled, because they are display-only properties.
- The C# constructor reads the state file first and the options file second. The modelled constructor reads the options file first. The two loads touch disjoint fields and files, so the order does not change the result.

# Morgen: a verified model of the morning-routine app's logic

Morgen is a browser app that walks children through their morning: each child
has a list of tasks to tick off, a wake-up time and a bus time. An alarm
engine watches the clock and rings at wake-up time, five minutes before the
bus and at bus time, and a countdown shows how long remains until the bus.
Parents edit the roster in two editors. The roster and the chosen language
are kept in the browser's `localStorage`.

This Dafny project models the app's logic, one module per source file:

- `AlarmSystem` (alarm_system.dfy) is the alarm provider.
  - `Evaluate` is the reference definition of which alarm, if any, is due at a minute of the day.
  - `FindAlarm` is the source's `for` loop with `break`, proved equal to `Evaluate`.
  - The `AlarmProvider` class holds the three state cells (`currentAlarm`, audio context, audio element), the roster, and which of the two once-only `click` and `touchstart` listeners that run `initAudio` are still attached.
  - Its methods are proved against the transition functions `AudioInitialized`, `Triggered`, `Dismissed`, `Checked` and `Gestured`.
  - `initAudio` stores the context before it builds the sound, so a construction can stop after the context: the model keeps that state, in which no alarm ever sounds.
  - Because the checking effect re-runs whenever one of its dependencies changes, a dismissal, a manual trigger, a roster change or a newly stored audio context is followed at once by another evaluation.
- `AlarmOverlay` is the pure alarm-type to screen-content mapping.
- `ChildView` holds the bus countdown, task toggling, the completion celebration and the screen's state cells.
- `MorningRoutine` holds the main screen: child navigation, swipe gestures, selection clamping, loading with save-back, and saves from the editors.
- `ChildManager` is the roster editor, with temporary task inputs per child and stripping them on save.
- `EditMode` is the single-child editor.
  - Field defaults.
  - The drag reorder, written as two in-place shifts on an array copy.
  - Task add, remove and update.
- `TaskCard` is a task card's click guard and its celebration.
- `Translation` is `t(key, params)`: the lookup chain and first-occurrence placeholder substitution.
- `LanguageStorage` and `PeopleStorage` are the stored settings and the roster with their fallbacks.
- `SoundService` is the init-once audio context and the URL-to-buffer cache.

Shared modules:

- `Wrappers` defines `Option` and `Result`.
- `Strings` defines the JavaScript string operations the app uses: `trim`, `split`, `Number()` on decimal text, `indexOf`, first-occurrence `replace` and `HH:MM` formatting.
- `Roster` defines the `Task` and `Child` records and the list updaters several components share.
- `LocalStorage` is an abstract key-to-decoded-value store whose reads and writes can fail.

Inputs the app takes from the browser are parameters of the model:

- the current time, as a minute of the day for alarms and milliseconds since midnight for the countdown;
- how far building an audio context and the alarm sound gets, and whether the context is running;
- the random emoji index;
- generated ids and timestamps;
- fetched and decoded sound buffers.

## Model

| member | source | states |
|---|---|---|
| AlarmSystem.Evaluate | src/Components/AlarmSystem.tsx:59-89 | No candidate exactly when no child of the roster has an alarm due; a candidate is a roster child together with that child's own due alarm type. |
| AlarmSystem.FindAlarm | src/Components/AlarmSystem.tsx:55-89 | The loop over the roster with its mutable `alarmToPlay` and `break` yields exactly the first-match evaluation `Evaluate`. |
| AlarmSystem.BusClock | src/Components/AlarmSystem.tsx:70-71 | A bus clock is read only from a text that contains `:`; a single part has no minutes and reads as NaN. |
| AlarmSystem.WarningMinute | src/Components/AlarmSystem.tsx:72-75 | The warning minute plus five minutes is the bus minute of the day, mod 1440. |
| AlarmSystem.WarningMatches | src/Components/AlarmSystem.tsx:69-75 | The warning check of a child holds exactly when its bus time parses and its warning minute is `now`: the two `HH:MM` texts agree exactly when the minutes do. |
| AlarmSystem.ChildAlarm | src/Components/AlarmSystem.tsx:60-88 | An alarm is due only for a child with both times set and is one of the three kinds; a departure only when the bus time reads as now and some task is undone. |
| AlarmSystem.BusClockOfFormat | src/Components/AlarmSystem.tsx:70-71 | Splitting a formatted `HH:MM` at `:` and taking `Number` of both parts gives back the hours and minutes of that minute. |
| AlarmSystem.WarningBeforeBus | src/Components/AlarmSystem.tsx:72-75 | The warning minute is never the bus minute itself. |
| AlarmSystem.WarningRollsOverMidnight | src/Components/AlarmSystem.tsx:72-75 | A bus at 00:02 has its warning minute at 23:57, since five minutes before 00:02 the clock reads 23:57 of the previous day. |
| AlarmSystem.IncompleteChildSkipped | src/Components/AlarmSystem.tsx:60 | A child without a wake-up time or without a bus time never has an alarm. |
| AlarmSystem.WakeupTakesPrecedence | src/Components/AlarmSystem.tsx:63-67 | When the wake-up time is the current time, the child's alarm is the wake-up alarm, whatever the bus time says. |
| AlarmSystem.WarningIff | src/Components/AlarmSystem.tsx:63-80 | The warning is due exactly when both times are set, wake-up does not match, the bus time parses, and bus time minus five minutes (mod 1440) is now. |
| AlarmSystem.DepartureIff | src/Components/AlarmSystem.tsx:63-88 | Departure is due exactly when both times are set, wake-up does not match, the bus string is the current `HH:MM`, and some task is undone. |
| AlarmSystem.UnparsableBusTime | src/Components/AlarmSystem.tsx:70-88 | A bus time whose parts are not numbers rules out the warning and the departure; only the wake-up alarm remains possible. |
| AlarmSystem.FirstMatchWins | src/Components/AlarmSystem.tsx:59-89 | The first child in roster order with an alarm due decides the candidate, whatever later children have due. |
| AlarmSystem.WarningFiveMinutesBefore | src/Components/AlarmSystem.tsx:70-80 | A child whose bus leaves at minute `bus` gets the warning at `(bus - 5) mod 1440` unless the wake-up time also matches. |
| AlarmSystem.DepartureAtBusMinute | src/Components/AlarmSystem.tsx:83-88 | At the bus minute, departure is due if some task is undone and nothing is due if all tasks are done or there are none. |
| AlarmSystem.WarningAcrossMidnight | src/Components/AlarmSystem.tsx:70-80 | A bus at 00:02 raises the warning at 23:57. |
| AlarmSystem.AudioInitialized | src/Components/AlarmSystem.tsx:18-35 | Nothing changes once a context exists or when `new AudioContext()` throws; otherwise the context is stored, and the paused, rewound, never-played sound too when building it does not throw. |
| AlarmSystem.Triggered | src/Components/AlarmSystem.tsx:119-139 | The alarm becomes active unconditionally; with an audio element and a running context it is rewound to 0 and played once more; otherwise the sound is untouched. |
| AlarmSystem.Dismissed | src/Components/AlarmSystem.tsx:141-148 | No alarm is active afterwards, and the sound, if any, is paused and rewound; it is safe with no active alarm. |
| AlarmSystem.Checked | src/Components/AlarmSystem.tsx:48-116 | When not ready nothing changes; otherwise the active alarm either stays or becomes the evaluated candidate; context, whether there is a sound, roster and listeners are kept. |
| AlarmSystem.DismissedAndChecked | src/Components/AlarmSystem.tsx:141-155 | Afterwards no alarm is active, or, when one was active and the provider is ready, the candidate of the re-run evaluation is; with nothing active it is a plain dismissal. |
| AlarmSystem.TriggeredAndChecked | src/Components/AlarmSystem.tsx:119-155 | The active alarm is the triggered one or the candidate of the re-run evaluation; when not ready it is a plain trigger. |
| AlarmSystem.RosterChanged | src/Components/AlarmSystem.tsx:150-155 | The roster is replaced, and the active alarm stays or becomes the new roster's candidate; an empty roster changes nothing else. |
| AlarmSystem.Gestured | src/Components/AlarmSystem.tsx:37-46 | A gesture without its listener does nothing; one whose `initAudio` stores no context only detaches its own listener; a newly stored context re-attaches both listeners, and there is a sound exactly when it was built too. |
| AlarmSystem.Armed | src/Components/AlarmSystem.tsx:39-40 | With both listeners attached every gesture finds its listener; with neither, none does. |
| AlarmSystem.Disarmed | src/Components/AlarmSystem.tsx:39-40 | A `{ once: true }` listener that fired is gone, the other listener is as it was, and nothing else changes. |
| AlarmSystem.ConsistentPreserved | src/Components/AlarmSystem.tsx:18-148 | No transition, gestures included, ever creates a sound without a context. |
| AlarmSystem.ContextWithoutSoundIsSilent | src/Components/AlarmSystem.tsx:18-52 | A context stored without its sound is never completed: `initAudio` returns at once, evaluations skip, gestures never make a sound or an alarm, and a manual trigger plays nothing. |
| AlarmSystem.ContextWithoutSoundNeverAlarms | src/Components/AlarmSystem.tsx:49-52 | Any run of evaluations leaves a context without a sound exactly as it was. |
| AlarmSystem.FailedGestureSpendsListener | src/Components/AlarmSystem.tsx:37-46 | A gesture whose `new AudioContext()` throws detaches its listener, so that gesture afterwards does nothing whatever construction would give. |
| AlarmSystem.TwoFailuresDisableAudio | src/Components/AlarmSystem.tsx:37-46 | After one failed click and one failed touch no listener is left, and no later gesture can initialise audio. |
| AlarmSystem.NotReadyNoAlarm | src/Components/AlarmSystem.tsx:49-52 | Without a context, without the sound, or with an empty roster, an evaluation changes nothing. |
| AlarmSystem.NoAutoDismiss | src/Components/AlarmSystem.tsx:96-115 | When no alarm is due, an evaluation leaves the active alarm and the sound as they are. |
| AlarmSystem.SameCandidateIgnored | src/Components/AlarmSystem.tsx:91-95 | A candidate with the same type and child id as the active alarm changes nothing. |
| AlarmSystem.OtherCandidateRetriggers | src/Components/AlarmSystem.tsx:91-95 | A candidate that differs in type or child id becomes the active alarm, and with a running context the sound restarts from 0 with one more play. |
| AlarmSystem.CheckIdempotent | src/Components/AlarmSystem.tsx:48-116 | Evaluating twice at the same minute gives the same state as evaluating once. |
| AlarmSystem.RunStaysWhileActive | src/Components/AlarmSystem.tsx:91-116 | Once an alarm is active, any sequence of evaluations that yields that alarm or nothing leaves the whole state unchanged. |
| AlarmSystem.EdgeTriggered | src/Components/AlarmSystem.tsx:91-95 | Over any run of ticks whose due alarm is always the same one or none, the sound is started at most once, and if it was due at some tick it is active at the end. |
| AlarmSystem.DismissInMatchingMinuteRefires | src/Components/AlarmSystem.tsx:141-155 | Dismissing while the alarm's minute still matches re-runs the evaluation, which makes the due alarm active again and, with a running context, replays the sound. |
| AlarmSystem.DismissSettles | src/Components/AlarmSystem.tsx:141-155 | Outside a matching minute a dismissal sticks, and dismissing again changes nothing. |
| AlarmSystem.ManualTriggerOverridden | src/Components/AlarmSystem.tsx:119-121 | A manual trigger that differs from the alarm due this minute is replaced by the due alarm on the evaluation that follows it. |
| AlarmSystem.InitAudioOnce | src/Components/AlarmSystem.tsx:18-35 | A second `initAudio` has an effect only when the first one stored no context. |
| AlarmSystem.AlarmProvider.constructor | src/Components/AlarmSystem.tsx:13-40 | The provider starts with no alarm, no context and no sound, over the given roster, with both listeners attached. |
| AlarmSystem.AlarmProvider.InitAudio | src/Components/AlarmSystem.tsx:18-35 | The new state is `AudioInitialized` of the old one. |
| AlarmSystem.AlarmProvider.TriggerAlarm | src/Components/AlarmSystem.tsx:119-139 | The new state is `Triggered` of the old one. |
| AlarmSystem.AlarmProvider.DismissAlarm | src/Components/AlarmSystem.tsx:141-148 | The new state is `Dismissed` of the old one. |
| AlarmSystem.AlarmProvider.CheckAlarms | src/Components/AlarmSystem.tsx:48-116 | The new state is the old one after one evaluation at `now`: trigger on a differing candidate, otherwise unchanged. |
| AlarmSystem.AlarmProvider.OnGesture | src/Components/AlarmSystem.tsx:37-46 | A click or touchstart: the new state is `Gestured` of the old one. |
| AlarmSystem.AlarmProvider.OnDismiss | src/Components/AlarmSystem.tsx:150-155 | Dismissing an active alarm is followed by an evaluation; dismissing with nothing active only pauses the sound. |
| AlarmSystem.AlarmProvider.OnManualTrigger | src/Components/AlarmSystem.tsx:150-155 | A trigger from outside is followed by an evaluation. |
| AlarmSystem.AlarmProvider.OnRosterChange | src/Components/AlarmSystem.tsx:150-155 | A new roster is installed and evaluated at once. |
| AlarmOverlay.Overlay | src/Components/AlarmOverlay.tsx:11 | Nothing is rendered exactly when no alarm is active; otherwise the active alarm's content is. |
| AlarmOverlay.AlarmContent | src/Components/AlarmOverlay.tsx:13-53 | Exactly the three known types get content other than the fallback, and only a known type can be urgent. |
| AlarmOverlay.UrgentIffDeparture | src/Components/AlarmOverlay.tsx:41 | Only the departure alarm is urgent. |
| AlarmOverlay.UnknownTypeFallback | src/Components/AlarmOverlay.tsx:43-51 | Any type other than the three known ones gets the 'Attention!' / 'Dismiss' fallback. |
| AlarmOverlay.MessageNamesChild | src/Components/AlarmOverlay.tsx:15-42 | Each of the three known messages contains the child's name. |
| AlarmOverlay.TitleAndActionIdentifyType | src/Components/AlarmOverlay.tsx:13-53 | Two alarms share a title, and likewise an action, exactly when they have the same type or both have unknown types. |
| ChildView.Hms | src/Components/ChildView.tsx:61-64 | Hours, minutes and seconds recombine to the total seconds, with minutes and seconds below 60. |
| ChildView.RemainingText | src/Components/ChildView.tsx:60-72 | The text starts with "Bus in ", shows hours exactly when an hour or more is left, and ends in minutes then and in seconds otherwise. |
| ChildView.DiffText | src/Components/ChildView.tsx:53-72 | The text starts with "Bus in " exactly when the bus is still ahead. |
| ChildView.BusCountdown | src/Components/ChildView.tsx:44-72 | The countdown is empty exactly when there is no bus time; a bus time without `:` shows "Bus in NaNs". |
| ChildView.ClockOffset | src/Components/ChildView.tsx:49-51 | A parsed clock gives a non-negative whole number of minutes after midnight in milliseconds, `hours * 60 + minutes` of them; an unparsed one gives none. |
| ChildView.OffsetCountdown | src/Components/ChildView.tsx:51-72 | Without an offset (an invalid `Date`) the text is "Bus in NaNs"; with one it starts with "Bus in " exactly while the bus is still ahead of `now`. |
| ChildView.NoBusTimeNoCountdown | src/Components/ChildView.tsx:44-47 | Without a bus time the countdown is empty. |
| ChildView.CountdownOfFormattedTime | src/Components/ChildView.tsx:49-53 | For a bus time written `HH:MM`, the countdown is the text for the bus minute's offset minus now, in milliseconds. |
| ChildView.OffsetCountdownOf | src/Components/ChildView.tsx:53-73 | The countdown depends on the time difference alone; a bus time that does not parse gives the text of a NaN difference. |
| ChildView.CountdownNotANumber | src/Components/ChildView.tsx:49-72 | A non-empty bus time that does not parse shows "Bus in NaNs", since every comparison with NaN is false. |
| ChildView.BusHasLeftIff | src/Components/ChildView.tsx:56-57 | "Bus has left" is shown exactly when the bus was 30 minutes ago or earlier. |
| ChildView.BusTimeIff | src/Components/ChildView.tsx:58-59 | "Bus time!" is shown exactly when the bus is due now or left less than 30 minutes ago. |
| ChildView.RemainingShape | src/Components/ChildView.tsx:60-72 | For a future bus the text starts with "Bus in " and shows hours and minutes, else minutes and seconds, else seconds of the remaining whole seconds. |
| ChildView.CountdownMinutes | src/Components/ChildView.tsx:61-69 | 45 minutes ahead reads "Bus in 45m 0s". |
| ChildView.CountdownHours | src/Components/ChildView.tsx:61-67 | 105 minutes ahead reads "Bus in 1h 45m". |
| ChildView.CountdownEdges | src/Components/ChildView.tsx:56-71 | 30 seconds ahead reads "Bus in 30s", 31 minutes past reads "Bus has left", and exactly now reads "Bus time!". |
| ChildView.ToggleInChild | src/Components/ChildView.tsx:77-83 | Only the tasks change: those with the id have `done` flipped, and every other task and field is kept, in order. |
| ChildView.ToggleInChildTwice | src/Components/ChildView.tsx:77-83 | Toggling the same task twice gives back the child. |
| ChildView.Celebrates | src/Components/ChildView.tsx:30-34 | A celebration needs every task done and a previous count below the total. |
| ChildView.CelebratesIff | src/Components/ChildView.tsx:30-34 | The celebration starts exactly when there are tasks, all are done, and fewer were counted done before. |
| ChildView.ToggleCount | src/Components/ChildView.tsx:77-87 | Toggling a task with a unique id moves the completed count by one, down if it was done and up if not. |
| ChildView.CelebrationRearms | src/Components/ChildView.tsx:29-40 | Once all done and counted, the celebration does not start again; unticking one task and ticking it back starts it again. |
| ChildView.ChildScreen.constructor | src/Components/ChildView.tsx:15-18 | The screen starts with nothing counted, no celebration, an empty countdown and the current time. |
| ChildView.ChildScreen.CheckCompletion | src/Components/ChildView.tsx:29-40 | The count becomes the current number of done tasks, and the celebration turns on when `Celebrates` holds of the old count. |
| ChildView.ChildScreen.HideCelebration | src/Components/ChildView.tsx:36 | The three-second timeout turns the celebration off and touches nothing else. |
| ChildView.ChildScreen.Tick | src/Components/ChildView.tsx:21-26 | A clock tick stores the new time and recomputes the countdown from it; the counts and celebration are untouched. |
| ChildManager.Initial | src/Components/ChildManager.tsx:18-24 | Each child becomes an edited entry with empty temporary task inputs, in the same order. |
| ChildManager.Strip | src/Components/ChildManager.tsx:108-115 | Saving emits the same children in the same order with the temporary fields removed. |
| ChildManager.StripInitial | src/Components/ChildManager.tsx:18-24 | Saving right after opening gives back exactly the roster passed in. |
| ChildManager.FindChild | src/Components/ChildManager.tsx:80 | The first entry with the id is found, and nothing is found exactly when no entry has it. |
| ChildManager.UpdateChildProperty | src/Components/ChildManager.tsx:57-61 | Only entries with the id change, and only in the named field; length, order and ids are kept. |
| ChildManager.UpdateChildTaskProperty | src/Components/ChildManager.tsx:64-76 | Only the matching child's matching tasks change, in the named field; the other children are untouched. |
| ChildManager.TempFieldsNotSaved | src/Components/ChildManager.tsx:108-115 | Typing into a child's temporary task inputs never changes what is saved. |
| ChildManager.NewChild | src/Components/ChildManager.tsx:32-41 | A new child has the trimmed name, wake-up 07:00, bus 08:00 and no tasks. |
| ChildManager.RemoveChild | src/Components/ChildManager.tsx:48-49 | Exactly the entries without the id remain, and an absent id changes nothing. |
| ChildManager.RemoveChildOrder | src/Components/ChildManager.tsx:48-49 | Removal works piecewise on a split list, so the remaining entries keep their order. |
| ChildManager.AddChildTaskSteps | src/Components/ChildManager.tsx:90-98 | The three successive updates (tasks, title input, emoji input) amount to one combined update of the matching entries. |
| ChildManager.AddChildTask | src/Components/ChildManager.tsx:79-99 | The length is kept, entries of other ids are untouched, and an unknown child id changes nothing. |
| ChildManager.AddChildTaskAppends | src/Components/ChildManager.tsx:79-99 | For a child with a unique id and a non-empty chosen title, exactly one undone task is appended, its inputs are reset, and all else is unchanged. |
| ChildManager.BlankTaskIgnored | src/Components/ChildManager.tsx:83-87 | Without a preset, a blank or whitespace-only typed title changes nothing. |
| ChildManager.RemoveChildTask | src/Components/ChildManager.tsx:102-106 | The length is kept, entries of other ids are untouched, and the child's entries hold no task with the id afterwards. |
| ChildManager.RemoveChildTaskOnly | src/Components/ChildManager.tsx:102-106 | Only that child's tasks with the id are removed; the other children are unchanged. |
| ChildManager.AddedNewChild | src/Components/ChildManager.tsx:29-46 | A blank name changes nothing; otherwise one new child is appended at the end, the name input is cleared, and the new child is selected. |
| ChildManager.RemovedChild | src/Components/ChildManager.tsx:48-54 | The child goes, and the selection is cleared only when it was the removed child. |
| ChildManager.AddThenSave | src/Components/ChildManager.tsx:29-46 | The saved roster after adding a child is the old saved roster followed by the new child. |
| ChildManager.ChildManagerState.constructor | src/Components/ChildManager.tsx:18-27 | The editor starts with the wrapped roster, the first child selected (none if empty) and an empty name input. |
| ChildManager.ChildManagerState.SetNewChildName | src/Components/ChildManager.tsx:160 | Only the name input changes. |
| ChildManager.ChildManagerState.SelectChild | src/Components/ChildManager.tsx:186 | Only the selection changes. |
| ChildManager.ChildManagerState.AddNewChild | src/Components/ChildManager.tsx:29-46 | The new state is `AddedNewChild` of the old one. |
| ChildManager.ChildManagerState.RemoveChildById | src/Components/ChildManager.tsx:48-54 | The new state is `RemovedChild` of the old one. |
| ChildManager.ChildManagerState.UpdateProperty | src/Components/ChildManager.tsx:57-61 | Only the edited list changes, by `UpdateChildProperty`. |
| ChildManager.ChildManagerState.UpdateTaskProperty | src/Components/ChildManager.tsx:64-76 | Only the edited list changes, by `UpdateChildTaskProperty`. |
| ChildManager.ChildManagerState.AddTask | src/Components/ChildManager.tsx:79-99 | Only the edited list changes, by `AddChildTask`. |
| ChildManager.ChildManagerState.RemoveTask | src/Components/ChildManager.tsx:102-106 | Only the edited list changes, by `RemoveChildTask`. |
| ChildManager.ChildManagerState.HandleSave | src/Components/ChildManager.tsx:108-115 | The emitted list is the edited list with the temporary inputs stripped. |
| EditMode.EditDefaults | src/Components/EditMode.tsx:29-36 | An empty avatar, wake-up time or bus time becomes the default avatar, '07:00' or '08:00'; id, name and tasks are kept. |
| EditMode.EditDefaultsSettled | src/Components/EditMode.tsx:29-36 | Applying the defaults twice is the same as once; afterwards no defaulted field is empty; a child with all fields set is unchanged. |
| EditMode.WithDetail | src/Components/EditMode.tsx:134-180 | Each detail input changes its own field only; id and tasks are kept. |
| EditMode.Moved | src/Components/EditMode.tsx:44-48 | The reordered list has the same length, with the dragged task at the drop index. |
| EditMode.DragEnd | src/Components/EditMode.tsx:41-49 | Without a destination the list is unchanged; in every case the result is a permutation of the tasks, with the dragged one at the destination when there is one. |
| EditMode.MovedPermutation | src/Components/EditMode.tsx:44-48 | The reorder is a permutation that puts the dragged task at the drop index. |
| EditMode.MovedKeepsOrder | src/Components/EditMode.tsx:44-48 | Without the moved task, the other tasks are in their original relative order. |
| EditMode.MovedBack | src/Components/EditMode.tsx:44-48 | Dragging the task back from the drop index to its original index restores the list. |
| EditMode.SpliceOut | src/Components/EditMode.tsx:45 | The in-place shift leaves the array's prefix equal to the list with the dragged item removed. |
| EditMode.SpliceIn | src/Components/EditMode.tsx:46 | The in-place shift makes the array the list with the item inserted at the drop index. |
| EditMode.Reorder | src/Components/EditMode.tsx:44-48 | Copying the tasks into an array and splicing out and in yields exactly `Moved`. |
| EditMode.AddedTask | src/Components/EditMode.tsx:51-73 | An empty chosen title changes nothing; otherwise one undone task is appended, and the inputs are reset only for a typed (non-preset) task. |
| EditMode.BlankTitleIgnored | src/Components/EditMode.tsx:52-55 | Without a preset, a whitespace-only typed title changes nothing. |
| EditMode.PresetAlwaysAdds | src/Components/EditMode.tsx:51-67 | A preset with a title always appends one task, carrying the preset's title. |
| EditMode.EditModeState.constructor | src/Components/EditMode.tsx:29-39 | The editor starts with the defaulted child and empty task inputs. |
| EditMode.EditModeState.SetNewTask | src/Components/EditMode.tsx:227-234 | Only the two task inputs change. |
| EditMode.EditModeState.SetDetail | src/Components/EditMode.tsx:134-180 | Only the edited child changes, by `WithDetail`. |
| EditMode.EditModeState.HandleDragEnd | src/Components/EditMode.tsx:41-49 | Without a destination the tasks are unchanged; otherwise they become the reorder of the old tasks. |
| EditMode.EditModeState.AddTask | src/Components/EditMode.tsx:51-73 | The new state is `AddedTask` of the old one. |
| EditMode.EditModeState.HandleSave | src/Components/EditMode.tsx:91-93 | The saved child is the edited child, with the original id. |
| EditMode.EditModeState.RemoveTask | src/Components/EditMode.tsx:75-80 | Only the tasks with the id are removed. |
| EditMode.EditModeState.UpdateTask | src/Components/EditMode.tsx:82-89 | Only the tasks with the id change, in the named field. |
| MorningRoutine.RoutineDefaults | src/MorningRoutine.tsx:17-44 | The built-in roster is maya then alex, with every task undone. |
| MorningRoutine.LoadedRoutine | src/MorningRoutine.tsx:61-85 | The shown list is never empty: the stored list when it is a non-empty array, else the defaults; it is written back exactly when the defaults were used. |
| MorningRoutine.LoadSettles | src/MorningRoutine.tsx:61-97 | After a load, whatever was written back is accepted as it is on the next load, with no further write. |
| MorningRoutine.NextIndex | src/MorningRoutine.tsx:127-130 | The next index stays in range and wraps from the last child to the first. |
| MorningRoutine.PrevIndex | src/MorningRoutine.tsx:132-135 | The previous index stays in range and wraps from the first child to the last. |
| MorningRoutine.Next | src/MorningRoutine.tsx:127-130 | `nextChild` leaves the index in range, sets the forward slide and changes nothing else. |
| MorningRoutine.Prev | src/MorningRoutine.tsx:132-135 | `prevChild` leaves the index in range, sets the backward slide and changes nothing else. |
| MorningRoutine.TouchStarted | src/MorningRoutine.tsx:149-154 | Behind an open editor nothing changes; otherwise the gesture starts at `x` with no end yet, and only the touch record changes. |
| MorningRoutine.TouchMoved | src/MorningRoutine.tsx:156-159 | Behind an open editor nothing changes; otherwise only the end of the gesture is set, to `x`. |
| MorningRoutine.NextPrevInverse | src/MorningRoutine.tsx:127-135 | Next then previous, and previous then next, give back the index. |
| MorningRoutine.ClampIndex | src/MorningRoutine.tsx:121-124 | An index in range is kept; otherwise it becomes max(0, len - 1), so it is in range whenever the list is non-empty. |
| MorningRoutine.ReplaceChild | src/MorningRoutine.tsx:109-113 | Exactly the entries with the updated child's id are replaced; length and order are kept. |
| MorningRoutine.ReplaceChildUnchanged | src/MorningRoutine.tsx:109-113 | Saving a child unchanged leaves the roster as it was, when ids are unique. |
| MorningRoutine.Swipe | src/MorningRoutine.tsx:161-175 | There is no move with an editor open or with one child at most; a move needs both coordinates truthy and more than 50 pixels in its direction. |
| MorningRoutine.SwipeIff | src/MorningRoutine.tsx:161-175 | With no modal, both coordinates truthy and more than one child, moving more than 50 to the left means next and more than 50 to the right means previous; otherwise nothing. |
| MorningRoutine.SwipeMirror | src/MorningRoutine.tsx:165-167 | Swapping the start and end of a swipe turns "next" into "previous". |
| MorningRoutine.ZeroCoordinateCancels | src/MorningRoutine.tsx:163 | A zero start or end coordinate, being falsy, cancels the swipe. |
| MorningRoutine.ValidPreserved | src/MorningRoutine.tsx:109-175 | Every handler keeps the selected index on a child of the list, or at 0 when the list is empty. |
| MorningRoutine.TouchEnded | src/MorningRoutine.tsx:161-175 | Only the index and direction can change, by one `Next` or `Prev` step, with no editor open and more than one child; the list, the editors and the touch record are kept. |
| MorningRoutine.EditSaved | src/MorningRoutine.tsx:268-275 | The editor closes; the entries with the edited child's id become it, and every other entry and the selection are kept. |
| MorningRoutine.ManagerSaved | src/MorningRoutine.tsx:282-289 | The roster becomes the new list and the manager closes; the selection is kept when still in range and is otherwise clamped into range. |
| MorningRoutine.TouchIgnoredWhileModal | src/MorningRoutine.tsx:149-162 | While an editor is open, the touch handlers change nothing. |
| MorningRoutine.SwipeThereAndBack | src/MorningRoutine.tsx:149-175 | A left swipe selects the next child, and the mirrored right swipe comes back to the original one. |
| MorningRoutine.Routine.constructor | src/MorningRoutine.tsx:47-52 | The screen starts with no children, index 0, no editor open and no touch recorded. |
| MorningRoutine.Routine.LoadChildren | src/MorningRoutine.tsx:61-85 | The shown list is `LoadedRoutine` of what the store holds; the store gets the defaults written back exactly when they were used and writing works. |
| MorningRoutine.Routine.NextChild | src/MorningRoutine.tsx:127-130 | The direction becomes forward and the index moves to `NextIndex`. |
| MorningRoutine.Routine.PrevChild | src/MorningRoutine.tsx:132-135 | The direction becomes backward and the index moves to `PrevIndex`. |
| MorningRoutine.Routine.SelectChild | src/MorningRoutine.tsx:219 | A dot click sets the index and nothing else. |
| MorningRoutine.Routine.OnTouchStart | src/MorningRoutine.tsx:149-154 | Without an open editor, the start coordinate is recorded and the end is cleared. |
| MorningRoutine.Routine.OnTouchMove | src/MorningRoutine.tsx:156-159 | Without an open editor, the end coordinate is recorded. |
| MorningRoutine.Routine.OnTouchEnd | src/MorningRoutine.tsx:161-175 | The swipe classification decides next, previous or no change. |
| MorningRoutine.Routine.OpenEditMode | src/MorningRoutine.tsx:260 | The single-child editor opens on the selected child. |
| MorningRoutine.Routine.OpenChildManager | src/MorningRoutine.tsx:137-139 | The roster editor opens. |
| MorningRoutine.Routine.CloseEditors | src/MorningRoutine.tsx:275 | Closing an editor clears its own flag only. |
| MorningRoutine.Routine.HandleChildUpdate | src/MorningRoutine.tsx:109-115 | The roster becomes `ReplaceChild` of the old one, and exactly that list is saved when writing works. |
| MorningRoutine.Routine.HandleChildrenUpdate | src/MorningRoutine.tsx:117-125 | The roster becomes the given list, the index is clamped, and that list is saved when writing works. |
| MorningRoutine.Routine.OnEditSave | src/MorningRoutine.tsx:268-275 | The edited child replaces its entry, the editor closes, and the new roster is saved. |
| MorningRoutine.Routine.OnManagerSave | src/MorningRoutine.tsx:282-289 | The new roster replaces the old, the index is clamped, the manager closes, and the roster is saved. |
| TaskCard.Clicked | src/Components/TaskCard.tsx:18-50 | A disabled card does nothing. On an undone task an enabled click shows an emoji from the list and the animation; when the audio context can be built it also beeps, schedules one timeout and hands the task id on, and when it cannot, none of the three happens. On a done task it only hands the id on. |
| TaskCard.TimedOut | src/Components/TaskCard.tsx:43-46 | A pending timeout turns the animation off, clears the emoji and is used up; with none pending nothing changes. |
| TaskCard.CelebratesIff | src/Components/TaskCard.tsx:19-46 | A click starts the animation exactly when the card is enabled and the task was undone; it adds a beep and a pending timeout exactly when, besides, the audio context could be built. |
| TaskCard.FailedBeepStrandsCelebration | src/Components/TaskCard.tsx:23-49 | When the context cannot be built and no timeout is pending, the task is not toggled and the animation stays on, since no timeout can end it. |
| TaskCard.EveryEmojiPossible | src/Components/TaskCard.tsx:6-8 | Each emoji of the celebration list can be the one shown, and the timeout clears whichever was shown. |
| TaskCard.TaskCardState.constructor | src/Components/TaskCard.tsx:15-16 | The card starts with no animation, no emoji, no beeps and no pending timeout. |
| TaskCard.TaskCardState.HandleToggle | src/Components/TaskCard.tsx:18-50 | The new card state and the id passed to `onToggle` are those of `Clicked`. |
| TaskCard.TaskCardState.Timeout | src/Components/TaskCard.tsx:43-46 | The new state is `TimedOut` of the old one. |
| Translation.T | src/hooks/useTranslation.ts:157-168 | The lookup followed by the loop over the parameter entries yields exactly `Translate`. |
| Translation.Lookup | src/hooks/useTranslation.ts:158 | A non-empty text of the current language wins; without one a non-empty English text; without both the key itself. The result is never empty for a non-empty key. |
| Translation.UnknownLanguageIsEnglish | src/hooks/useTranslation.ts:158 | A language without a table reads as English. |
| Translation.MissingKeyIsItself | src/hooks/useTranslation.ts:158 | A key found in neither table is returned as it is. |
| Translation.Translate | src/hooks/useTranslation.ts:161-165 | Without parameters, or with none at all, the looked-up text is returned unchanged. |
| Translation.ApplyParamsAppend | src/hooks/useTranslation.ts:162-164 | Parameters are applied one after another in entry order. |
| Translation.FirstPlaceholderOnly | src/hooks/useTranslation.ts:163 | For a brace-free parameter name and a text whose prefix holds no placeholder of that name, the parameter fills the placeholder right after the prefix and leaves any later occurrence in place. |
| Translation.PlaceholdersDisjoint | src/hooks/useTranslation.ts:163 | Occurrences of two different brace-free placeholders never overlap. |
| Translation.ReplaceKeepsPlaceholder | src/hooks/useTranslation.ts:163 | Filling one placeholder keeps every occurrence of another in the text. |
| Translation.UnmatchedPlaceholderRemains | src/hooks/useTranslation.ts:162-167 | A placeholder that no parameter names remains literally in the output. |
| Translation.ApplyParams | src/hooks/useTranslation.ts:162-164 | A parameter whose placeholder does not occur in the text so far is skipped: the rest apply to the text unchanged. |
| Translation.NoPlaceholdersNoChange | src/hooks/useTranslation.ts:162-165 | Parameters whose placeholders do not occur leave the text unchanged. |
| LanguageStorage.Find | src/services/languageStorage.ts:48 | `find` gives the first entry with the code, and nothing exactly when no entry has it. |
| LanguageStorage.GetLanguageInfo | src/services/languageStorage.ts:47-49 | The result is always a supported language: the matching one, else English. |
| LanguageStorage.SupportedCodes | src/services/languageStorage.ts:8-13 | Exactly "en" and "he" are supported, and the default is the first. |
| LanguageStorage.LoadedLanguage | src/services/languageStorage.ts:16-31 | The result is always supported; anything other than the default comes from a stored, parsed, string `language` field. |
| LanguageStorage.FallbacksGiveDefault | src/services/languageStorage.ts:17-30 | A read error, a missing or empty entry, text that does not parse, or `null` all give 'en'. |
| LanguageStorage.NoStringGivesDefault | src/services/languageStorage.ts:22 | A record whose `language` is missing, not a string, or empty gives 'en'. |
| LanguageStorage.SaveThenLoadLanguage | src/services/languageStorage.ts:34-44 | Loading a saved record gives its code if that code is supported, else 'en'. |
| LanguageStorage.LoadLanguageSettings | src/services/languageStorage.ts:16-31 | The method returns `LoadedLanguage` of the stored entry, always a supported code. |
| LanguageStorage.SaveLanguageSettings | src/services/languageStorage.ts:34-44 | The record is written under the language key when writing works; otherwise nothing changes, and no error escapes. |
| LanguageStorage.SaveAndReloadLanguage | src/services/languageStorage.ts:16-44 | With working storage, saving a supported code and loading gives that code back. |
| PeopleStorage.DefaultChildren | src/services/peopleStorage.ts:19-46 | The defaults are maya then alex, with every task undone. |
| PeopleStorage.LoadedChildren | src/services/peopleStorage.ts:49-62 | Loading never returns an empty list, even on read or parse errors. |
| PeopleStorage.LoadedIff | src/services/peopleStorage.ts:52-61 | The stored list is returned exactly when `children` is a non-empty array; otherwise the defaults are. |
| PeopleStorage.FallbacksGiveDefaults | src/services/peopleStorage.ts:50-61 | A read error, a missing or empty entry, text that does not parse, or `null` all give the defaults. |
| PeopleStorage.SaveThenLoad | src/services/peopleStorage.ts:65-74 | Loading a saved non-empty list gives it back; loading a saved empty list gives the defaults. |
| PeopleStorage.LoadChildren | src/services/peopleStorage.ts:49-62 | The method returns `LoadedChildren` of the stored entry, never empty. |
| PeopleStorage.SaveChildren | src/services/peopleStorage.ts:65-74 | The record is written under the roster key when writing works; otherwise nothing changes, and no error escapes. |
| PeopleStorage.SaveAndReload | src/services/peopleStorage.ts:49-74 | With working storage, save then load gives the list, or the defaults for an empty list. |
| LocalStorage.Member | src/services/peopleStorage.ts:55 | Reading a field of `null` throws; on an object it gives the field's value or `undefined`. |
| LocalStorage.StoredChildren | src/services/peopleStorage.ts:51-57 | A list is found exactly when the entry exists, parses, is not `null`, and has a non-empty array as `children`. |
| LocalStorage.StoredChildrenOfRecord | src/services/peopleStorage.ts:65-74 | A written record reads back as its list when that list is non-empty, and as nothing otherwise. |
| LocalStorage.Storage.GetItem | src/services/peopleStorage.ts:51 | `getItem` gives the stored entry, or an error when storage cannot be read. |
| LocalStorage.Storage.SetItem | src/services/peopleStorage.ts:67-70 | `setItem` succeeds exactly when storage is writable, and then only that key changes. |
| Roster.Filter | src/Components/ChildManager.tsx:49 | `filter` keeps exactly the elements the test accepts, and keeps the list when all pass. |
| Roster.FilterAppend | src/Components/ChildManager.tsx:49 | Filtering distributes over concatenation, so the kept elements stay in order. |
| Roster.MapWhere | src/Components/ChildManager.tsx:58-60 | The conditional `map` replaces exactly the selected elements and keeps length and order. |
| Roster.MapWhereTwice | src/Components/ChildView.tsx:78-80 | An involution applied twice to the selected elements restores the list. |
| Roster.RemoveTasks | src/Components/EditMode.tsx:75-80 | Exactly the tasks without the id remain, and an absent id changes nothing. |
| Roster.UpdateTasks | src/Components/EditMode.tsx:82-89 | Only the tasks with the id change, in the named field; ids, length and order are kept. |
| Roster.ToggleTasks | src/Components/ChildView.tsx:78-80 | Tasks with the id have `done` flipped and nothing else; other tasks are kept. |
| Roster.ToggleTwice | src/Components/ChildView.tsx:78-80 | Toggling twice restores the task list. |
| Roster.CompletedCount | src/Components/ChildView.tsx:85-86 | The done count is at most the total, equals it exactly when all are done, and is 0 exactly when none is done. |
| Roster.IncompleteCount | src/Components/AlarmSystem.tsx:83 | The undone count and the done count add up to the total, and it is positive exactly when some task is undone. |
| Roster.ChosenTitle | src/Components/EditMode.tsx:52-55 | A titled preset's title wins; otherwise the trimmed typed title; it is empty exactly when there is no titled preset and the typed title is blank. |
| Roster.ChosenEmoji | src/Components/EditMode.tsx:53 | A preset's emoji wins when it has one; otherwise the typed emoji is used. |
| Roster.NewTask | src/Components/EditMode.tsx:57-62 | A new task is undone and carries the given id, title and emoji. |
| Strings.Trim | src/Components/ChildManager.tsx:30-34 | The result is the input without leading and trailing whitespace (the white-space characters and line terminators that JavaScript's `trim` removes): a contiguous slice surrounded only by whitespace, itself starting and ending with non-whitespace. |
| Strings.TrimEmptyIff | src/Components/ChildManager.tsx:30 | The trimmed text is empty exactly when the input is all whitespace. |
| Strings.TrimUnchanged | src/Components/ChildManager.tsx:34 | A text without surrounding whitespace is its own trim. |
| Strings.Split | src/Components/AlarmSystem.tsx:70 | `split` gives at least one part, and no part holds the separator. |
| Strings.JoinSplit | src/Components/AlarmSystem.tsx:70 | Joining the parts with the separator gives back the text. |
| Strings.SplitNoSeparator | src/Components/ChildView.tsx:49 | A text without the separator splits into itself alone. |
| Strings.SplitOnce | src/Components/ChildView.tsx:49 | A text with one separator splits into the parts before and after it. |
| Strings.ToNumber | src/Components/AlarmSystem.tsx:70-71 | `Number` of a text is a number exactly when the trimmed text is all decimal digits. |
| Strings.NatToStringValue | src/Components/ChildView.tsx:67-71 | The decimal text of a number reads back as that number. |
| Strings.Pad2Value | src/Components/AlarmSystem.tsx:55 | A two-digit zero-padded number reads back as itself. |
| Strings.SplitFormat | src/Components/AlarmSystem.tsx:55 | `HH:MM` of a minute splits at ':' into the padded hours and minutes. |
| Strings.FormatHHMM | src/Components/AlarmSystem.tsx:55 | The `HH:MM` text of a minute of the day has five characters with the colon third. |
| Strings.FormatHHMMInjective | src/Components/AlarmSystem.tsx:55 | Two minutes of the day have the same `HH:MM` text exactly when they are the same minute. |
| Strings.IndexOf | src/hooks/useTranslation.ts:163 | The first occurrence is found; nothing is found exactly when the pattern does not occur. |
| Strings.ReplaceFirst | src/hooks/useTranslation.ts:163 | Without an occurrence the text is unchanged; otherwise the first occurrence, and only it, is replaced. |
| SoundService.Initialized | src/services/SoundService.ts:10-19 | Once initialized nothing changes; otherwise the service becomes initialized exactly when a context can be built; the cache is kept. |
| SoundService.LoadedAudio | src/services/SoundService.ts:21-45 | Loading never drops or changes a cached buffer, and a failed load caches nothing. |
| SoundService.PlayedSound | src/services/SoundService.ts:47-72 | Playing loads as `LoadedAudio` does (its own context guard changes nothing); a returned buffer is cached under its URL, and without a context the error is "Audio context not available". |
| SoundService.PlayedTaskCompletion | src/services/SoundService.ts:86-111 | The beep starts exactly when a context exists afterwards, and it never fails. |
| SoundService.ValidPreserved | src/services/SoundService.ts:10-111 | Every operation keeps "initialized" and "has a context" together. |
| SoundService.InitializeOnce | src/services/SoundService.ts:11 | Once initialized, initializing again does nothing, whatever the browser would do. |
| SoundService.FailedConstruction | src/services/SoundService.ts:16-18 | A failed construction leaves the service uninitialized and without a context. |
| SoundService.CacheHit | src/services/SoundService.ts:31-33 | A cached URL gives its cached buffer, and what a fetch would give plays no part. |
| SoundService.LoadCaches | src/services/SoundService.ts:36-39 | A successful load caches the buffer under the URL and returns it. |
| SoundService.LoadFails | src/services/SoundService.ts:35-44 | A failed fetch or decode of an uncached URL is passed on by `loadAudioFile` and by `playSound` (SoundService.ts:57-71) with nothing cached, so the next load of that URL fetches again and gives whatever that fetch gives. |
| SoundService.NoContextFails | src/services/SoundService.ts:26-28 | Without a context that can be built, loading and playing fail with 'Audio context not available', and the completion beep quietly does nothing. |
| SoundService.SecondLoadCached | src/services/SoundService.ts:31-39 | After a successful load, loading the same URL again returns the same buffer without changing the state. |
| SoundService.SoundServiceState.constructor | src/services/SoundService.ts:2-4 | The service starts uninitialized, with no context and an empty cache. |
| SoundService.SoundServiceState.InitializeAudioContext | src/services/SoundService.ts:10-19 | The new state is `Initialized` of the old one. |
| SoundService.SoundServiceState.LoadAudioFile | src/services/SoundService.ts:21-45 | The new state and the result are those of `LoadedAudio`. |
| SoundService.SoundServiceState.PlaySound | src/services/SoundService.ts:47-72 | The new state and the result are those of `PlayedSound`. |
| SoundService.SoundServiceState.PlayBeep | src/services/SoundService.ts:74-76 | `playSound` of the beep file. |
| SoundService.SoundServiceState.PlayAlarm | src/services/SoundService.ts:78-80 | `playSound` of the alarm file. |
| SoundService.SoundServiceState.PlayNotification | src/services/SoundService.ts:82-84 | `playSound` of the notification file. |
| SoundService.SoundServiceState.PlayTaskCompletion | src/services/SoundService.ts:86-111 | The new state and whether a beep starts are those of `PlayedTaskCompletion`. |

## Left out

- Time is a minute of the day (0..1439) for the alarm engine and milliseconds since midnight for the countdown. Dates, time zones and daylight-saving changes are not modelled. The bus time is taken on the same day as "now". The warning minute's rollover past midnight is arithmetic mod 1440, which is what subtracting five minutes from a `Date` does to its hours and minutes.
- Strings.ToNumber: models `Number` only on decimal digit strings, after trimming, with the empty text giving 0. Signs, fractions, exponents, hexadecimal and `Infinity` are read as NaN; the app writes times as `HH:MM` digits. Its values are unbounded naturals: the loss of precision above 2^53, and the Invalid Date that `new Date(…, h, m)` and `setHours` give once the time is beyond 8.64e15 ms (so no warning in AlarmSystem.tsx:72-75 and a NaN countdown in ChildView.tsx:51-53, where AlarmSystem.BusClock, AlarmSystem.WarningMinute and ChildView.ClockOffset compute a minute mod 1440 or an offset), are not modelled. Both time inputs are `type="time"` fields (ChildManager.tsx:331, EditMode.tsx:178), so only stored data can hold such values.
- Audio is a small record: whether an element exists, whether it plays, its position, and how many times it was started. The model gives `play()`, `pause()`, `resume()`, oscillator ramps and their promises no further content.
- AlarmSystem.AudioInitialized: a throw after the context is stored, from `new Audio()` or setting its fields, is one outcome (`ContextOnly`); which of those steps threw is not told apart.
- TaskCard.Clicked: only `new AudioContext()` is taken as able to throw; the oscillator and gain calls after it are taken to succeed. The contexts it opens are counted in `beeps` and never closed, as in the source.
- AlarmSystem.Triggered: with a suspended context, the source calls `resume()` and plays in its `.then` branch. That asynchronous continuation is not modelled, so the sound stays as it was. A rejected `play()` is not modelled either.
- Timers are explicit method calls, none of them driven by real time: the alarm interval (`CheckAlarms`), the screen clock (`ChildScreen.Tick`), the celebration timeout (`HideCelebration`) and the card's one-second timeout (`Timeout`). Effect scheduling is folded into the `On…` methods, which evaluate right after the change that re-runs the effect.
- Randomness and generated values are parameters: the celebration emoji index, ids built from `Date.now()`, and `toISOString` timestamps. No uniqueness of ids is assumed; the lemmas that need it state it as a precondition.
- `localStorage` and JSON are an abstract map of already-decoded values. Stored entries can be empty, unparsable or parsed values. Reads and writes fail by flags, and `console.error` logging is dropped.
- A stored array is taken as a list of children without looking at its elements, as the source's cast does. Malformed children inside a stored array, `null` entries and `undefined` task lists are not modelled. On the model's `Child`, tasks are always a list, so EditMode's tasks default has nothing to replace.
- An empty string stands for both `''` and `undefined` in the optional child fields (name, avatar, wake-up and bus time). Every input the app writes stores a string, so `undefined` comes only from stored data or a direct `triggerAlarm` call (AlarmSystem.AlarmProvider.OnManualTrigger). Two readers tell them apart, and the model follows the `''` path in both: AlarmSystem.tsx:104 calls `busTime.split(':')` unguarded, so with a warning active and no new alarm due an `undefined` bus time throws a TypeError in the effect or the interval, where `''` is skipped as NaN; and AlarmOverlay.tsx:19, 28 and 37 interpolate `child.name`, so an `undefined` name prints "undefined" where the model prints nothing.
- `Object.entries` of the translation parameters is taken as a list, in the order given. Values are already converted to text. Values containing `$`, whose replacement patterns `String.prototype.replace` would expand, are excluded by a precondition of `Translation.T`.
- The translation tables' literal texts are abstract: a map from language code to key-to-text map that always has English.
- EditMode.Reorder: requires the source and drop indices to be in range. The drag-and-drop library supplies them and is not modelled.
- The drag library, the confetti, framer-motion animations, CSS classes and icons are presentation only. So are the display-only values: MorningRoutine's `updateTime` clock text, ChildView's `progressPercentage` and `toLocaleTimeString`.
- `LanguageSelector.tsx`, `LanguageProvider.tsx`, the React context modules and `main.tsx` are glue and user interface, and are not part of this model.
- Touch coordinates are whole numbers; fractional `clientX` values are not modelled.
- Concurrent `loadAudioFile` calls that could both fetch the same URL are not modelled; each call runs to completion before the next.
- A number of navigation steps summed into one step mod n is not proved for `NextIndex`/`PrevIndex`; single steps and their inverses are.

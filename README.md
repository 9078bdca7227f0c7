# tgmd3-viewer core in Dafny

tgmd3-viewer is a desktop application for annotating videos of motor-skill tests
(TGMD-3). A project holds imported video clips, participants, and labels that tie
moments of a clip to a skill and a participant. This project models the parts of
the application that are logic rather than widgets:

- **Timeline** (`timeline.dfy`): the timeline's interaction state machine. Dropping a
  skill creates an annotation. A press picks the last annotation under the mouse
  and decides between a left-edge resize, a right-edge resize or a body drag; a
  press on the video track starts a clip drag; a press anywhere else seeks. While
  the mouse moves, the grabbed annotation is edited in place (start floored at
  0 s, duration floored at 0.1 s). A release asks for a clip reorder and seeks to a
  clicked annotation. Signals are the `Signal` values the methods return.
- **Editor** (`editor.dfy`): playback and seek bookkeeping of the editor window.
  This covers the global playhead time over the clip list, the arrow-key steps, the
  same-clip and cross-clip seek, and the pending seek that gates position updates
  while a clip loads. It also covers the minimum loading delay, the paging of the
  timeline's scroll bar, the dirty flag and the save barrier. The media player is
  observed through `playerLog`, the commands sent to it in order.
- **Settings** (`settings_manager.dfy`): the recent-projects list (move to front,
  de-duplicated by path, at most ten entries).
- **ProjectSettings** (`project_settings.dfy`): participant management. This covers
  smallest-free id generation, adding with a sort by numeric id, deletion, the usage
  count, and the unlinking of labels that reference a deleted participant.
- **TopBarModule** (`top_bar.dfy`): the `"* "` dirty marker on the project name and
  the last-saved text.
- **SkillList** (`skill_list.dfy`): the drag payload, colour and icon of each skill
  button.
- **CreateProject** (`create_project.dfy`): the file-name sanitiser, the JSON
  skeleton of a new project and the guard of the create button.
- Shared modules:
  - `Config` holds the constants of `src/config.py`.
  - `Text` stands for the Python built-ins the core relies on: `str.strip`,
    `str.replace` of one character, `int(str)`, `str(int)` and `int(float)`
    (truncation toward zero).
  - `ProjectData` holds the records of a project document.
  - `Sorting` is a stable insertion sort by an integer key (Python's
    `list.sort(key=...)`).

Modelling choices:
- Times are exact `real`s.
- Conversions to milliseconds and scroll pixels use `Trunc`.
- Python references to annotation records (`dragging_annotation`,
  `resizing_annotation`) are indices into `annotations`.
- Several things are parameters: the clock, the viewport width, the timeline zoom,
  the user's answers to message boxes and the context menu, and the success of file
  writes.
- A timer callback is returned as a `ScheduledSeek` and run by calling
  `EditorWindow.PerformDelayedSeekAndHide`.
- Python keeps the later definitions of `handle_seek_request` and
  `ensure_playhead_visible` (`editor_window.py:393` and `:412`). The model follows
  those definitions. Likewise it follows the second `CreateProjectDialog` class
  (`create_project_dialog.py:59`).

## Model

| member | source | states |
|---|---|---|
| Text.Strip | src/ui/dialogs/project_settings_dialog.py:132 | the stripped name has no whitespace (CPython's set) at either end |
| Text.StripEmptyIffBlank | src/ui/dialogs/project_settings_dialog.py:132-134 | a typed name strips to the empty string exactly when every character is whitespace |
| Text.StripNoop | src/ui/dialogs/project_settings_dialog.py:189 | a text with no whitespace at either end is its own strip |
| Text.RemoveChar | src/ui/dialogs/project_settings_dialog.py:120 | `replace("p", "")` leaves no `p`, never lengthens, and leaves a text without `p` unchanged |
| Text.RemoveCharSingle | src/ui/dialogs/project_settings_dialog.py:120 | a one-character text loses its character exactly when it is the removed one |
| Text.RemoveCharAppend | src/ui/dialogs/project_settings_dialog.py:120 | removal works piecewise over a concatenation, so every other character is kept in its order |
| Text.ParseInt | src/ui/dialogs/project_settings_dialog.py:120-123 | `int()` succeeds only on a non-blank string; `None` stands for the `ValueError` path |
| Text.ParseNatToString | src/ui/dialogs/project_settings_dialog.py:120-129 | parsing the digits of `str(n)` gives back n |
| Text.DigitsValueOfNatToString | src/ui/dialogs/project_settings_dialog.py:129 | the decimal digits of `str(n)` have value n |
| Text.NatToString | src/ui/components/skill_list_widget.py:12 | `str(n)` is a non-empty string of decimal digits |
| Text.Trunc | src/ui/windows/editor_window.py:355 | `int(x)` truncates toward zero: within 1 of x, on the side of 0 |
| ProjectData.SumDurationsAppend | src/ui/windows/editor_window.py:231-237 | the duration sum over two lists of clips is the sum of the two sums |
| ProjectData.SumDurations | src/ui/windows/editor_window.py:231-237 | the `duracao` total of a list of clips, first to last; `SumDurationsAppend` makes it additive |
| ProjectData.SumDurationsNonNegative | src/ui/windows/editor_window.py:231-237 | clips with no negative duration have a non-negative sum |
| Sorting.InsertBy | src/ui/dialogs/project_settings_dialog.py:138 | inserting adds exactly x: one more element and the multiset grows by x |
| Sorting.InsertBySplits | src/ui/dialogs/project_settings_dialog.py:138 | insertion keeps the list's order and places x after its first `InsertPos` elements |
| Sorting.InsertPosBounds | src/ui/dialogs/project_settings_dialog.py:138 | the elements before the insertion point have keys up to x's; the one after it has a greater key |
| Sorting.InsertBySorted | src/ui/dialogs/project_settings_dialog.py:138 | inserting into a sorted list gives a sorted list |
| Sorting.SortBySorted | src/ui/dialogs/project_settings_dialog.py:138 | the sort's result is ordered by key |
| Sorting.SortBy | src/ui/dialogs/project_settings_dialog.py:138 | `list.sort(key=...)` as an insertion sort; `SortBySorted`, `SortByPermutes` and `SortByStable` state what it yields |
| Sorting.InsertByWithKey | src/ui/dialogs/project_settings_dialog.py:138 | inserting into a sorted list places x after every element with its key and changes no other key's order |
| Sorting.SortByStable | src/ui/dialogs/project_settings_dialog.py:138 | the sort is stable: the elements with any one key appear in the result in their input order |
| Sorting.SortByPermutes | src/ui/dialogs/project_settings_dialog.py:138 | the sort's result is a permutation of its input |
| Sorting.InsertLargest | src/ui/dialogs/project_settings_dialog.py:138 | an element with the largest key is inserted at the end |
| Sorting.SortSortedNoop | src/ui/dialogs/project_settings_dialog.py:138 | sorting an already sorted list leaves it unchanged |
| Sorting.SortAfterAppend | src/ui/dialogs/project_settings_dialog.py:137-138 | appending to a sorted list and sorting is a single insertion |
| Settings.WithoutPath | src/core/settings_manager.py:30 | the filter leaves no entry with the path and never lengthens the list |
| Settings.WithoutPathMembers | src/core/settings_manager.py:30 | every entry with another path is kept, and no entry is added |
| Settings.WithoutPathAppend | src/core/settings_manager.py:30 | the filter works element by element, so kept entries keep their order |
| Settings.AddedRecentShape | src/core/settings_manager.py:30-34 | after `add_recent` the new entry is first, it is the only entry with its path, and there are 1 to 10 entries |
| Settings.AddedRecent | src/core/settings_manager.py:28-34 | the list after `add_recent`: filter the path, put the new entry first, keep ten; `AddedRecentShape`, `AddedRecentKeepsOthers` and `AddedRecentIdempotent` state its properties |
| Settings.AddedRecentKeepsOthers | src/core/settings_manager.py:30-34 | entries with other paths keep their relative order; only those beyond the ninth of them are dropped |
| Settings.AddedRecentIdempotent | src/core/settings_manager.py:28-34 | adding the same entry twice gives the same list as adding it once |
| Settings.SettingsManager.constructor | src/core/settings_manager.py:5-16 | the manager starts with the stored list |
| Settings.SettingsManager.AddRecent | src/core/settings_manager.py:28-34 | `recents` becomes `AddedRecent` of the old list |
| Settings.SettingsManager.GetRecents | src/core/settings_manager.py:37-38 | returns the stored list and changes nothing |
| TopBarModule.Marked | src/ui/components/top_bar.py:108-110 | the dirty name starts with `"* "`; a name that already does is unchanged |
| TopBarModule.Unmarked | src/ui/components/top_bar.py:114-115 | a name without the prefix is unchanged |
| TopBarModule.MarkedIdempotent | src/ui/components/top_bar.py:109 | marking twice is marking once, so no second prefix is ever added |
| TopBarModule.UnmarkedRemovesOnePrefix | src/ui/components/top_bar.py:114-115 | cleaning removes exactly one leading `"* "` |
| TopBarModule.CleanAfterDirtyRestores | src/ui/components/top_bar.py:108-115 | for a name without the prefix, dirty then clean restores the name |
| TopBarModule.TopBar.constructor | src/ui/components/top_bar.py:58-64 | initial name and last-saved texts, white name |
| TopBarModule.TopBar.SetProjectName | src/ui/components/top_bar.py:103-104 | the name text becomes exactly the given name |
| TopBarModule.TopBar.SetDirtyState | src/ui/components/top_bar.py:106-117 | the name is `Marked`/`Unmarked`, the last-saved text is the "unsaved" text or the saved-at time, and the name is gold exactly while dirty |
| TopBarModule.TopBar.UpdateLastSaved | src/ui/components/top_bar.py:119-121 | the last-saved text shows the given "HH:mm" time |
| TopBarModule.SavedAt | src/ui/components/top_bar.py:121 | the last-saved text for an "HH:mm" time; `CleanAfterDirtyRestores` relates it to the dirty state |
| SkillList.MakeDraggableLabel | src/ui/components/skill_list_widget.py:12-59 | the label shows exactly the text it drags |
| SkillList.Payload | src/ui/components/skill_list_widget.py:12 | the drag payload `"{index}. {text}"`; `PayloadRoundTrip` proves `SplitPayload` inverts it |
| SkillList.SplitPayload | src/ui/components/skill_list_widget.py:11-12 | reads a payload back as its leading number and the name after `". "`, the format the widget promises the timeline |
| SkillList.SkillButtons | src/ui/components/skill_list_widget.py:118-128 | the buttons of the labels tab; `SkillButtonsNumbered` states each one |
| SkillList.ColorFor | src/ui/components/skill_list_widget.py:122 | orange exactly for the 0-based indices below 6, cyan exactly for the rest |
| SkillList.IconFor | src/ui/components/skill_list_widget.py:124 | the icon is `icon_files[i]` within the list and `""` past it |
| SkillList.LeadingDigits | src/ui/components/skill_list_widget.py:12 | the count runs over digits and stops at the first non-digit |
| SkillList.PayloadRoundTrip | src/ui/components/skill_list_widget.py:12 | the payload `"{index}. {text}"` splits back into exactly index and text |
| SkillList.SkillButtonsNumbered | src/ui/components/skill_list_widget.py:118-128 | button i carries skill i under number i + 1 (numbers 1..13), with colour and icon of index i, and shows its payload |
| CreateProject.LowerChar | src/ui/dialogs/create_project_dialog.py:124 | `lower()` of a character keeps it alphanumeric and never gives an upper-case letter |
| CreateProject.Lower | src/ui/dialogs/create_project_dialog.py:124 | `lower()` maps each character to its lower-case form |
| CreateProject.Underscored | src/ui/dialogs/create_project_dialog.py:124 | the join keeps the length of the name |
| CreateProject.SafeNameCharwise | src/ui/dialogs/create_project_dialog.py:124 | each character becomes its lower-case form if alphanumeric and `_` otherwise |
| CreateProject.SafeName | src/ui/dialogs/create_project_dialog.py:124 | the sanitised name; `SafeNameCharwise` and `SafeNameIsSafe` state it character by character |
| CreateProject.SafeNameIsSafe | src/ui/dialogs/create_project_dialog.py:124-126 | a sanitised name has only lower-case alphanumerics and `_` (no separator), and sanitising again changes nothing |
| CreateProject.FullPath | src/ui/dialogs/create_project_dialog.py:125-126 | the path ends with the sanitised name followed by `.json` |
| CreateProject.FileName | src/ui/dialogs/create_project_dialog.py:125 | the sanitised name followed by `.json` |
| CreateProject.JoinPath | src/ui/dialogs/create_project_dialog.py:126 | POSIX `os.path.join` for a relative file name: a `/` is added unless the folder is empty or ends with one |
| CreateProject.Skeleton | src/ui/dialogs/create_project_dialog.py:129-139 | schema `"3.1"`, the given name, not locked, no participants, no videos, UTC time with `Z`, author "Usuário" |
| CreateProject.CreateProjectFile | src/ui/dialogs/create_project_dialog.py:118-147 | exactly when the write succeeds it returns the path, which ends with the sanitised name plus `.json`, and the record written there: schema 3.1, the given name, the UTC time with `Z`, unlocked, no participants and no videos; otherwise `None` |
| CreateProject.Finish | src/ui/dialogs/create_project_dialog.py:149-158 | emits (name, full path) exactly when name and folder are non-empty and the file was created |
| ProjectSettings.ParsedIdsHas | src/ui/dialogs/project_settings_dialog.py:116-123 | every id whose numeric part parses is in `existing_ids` |
| ProjectSettings.Key | src/ui/dialogs/project_settings_dialog.py:120 | `int(id.replace("p", ""))`, or none where that raises; `IdForParsesBack` fixes it on generated ids |
| ProjectSettings.ParsedIds | src/ui/dialogs/project_settings_dialog.py:116-123 | the set `existing_ids`; `ParsedIdsHas` and `ParsedIdsExact` give both directions of membership |
| ProjectSettings.ParsedIdsExact | src/ui/dialogs/project_settings_dialog.py:116-123 | every element of `existing_ids` is the parsed id of some participant, so ids that do not parse contribute nothing |
| ProjectSettings.FirstFree | src/ui/dialogs/project_settings_dialog.py:125-127 | the search ends at the smallest integer ≥ 1 missing from the set |
| ProjectSettings.SmallestFreeIn | src/ui/dialogs/project_settings_dialog.py:125-127 | the `while` loop returns that smallest free number |
| ProjectSettings.IdForParsesBack | src/ui/dialogs/project_settings_dialog.py:120-129 | a generated `"p{n}"` parses back to n |
| ProjectSettings.SortKey | src/ui/dialogs/project_settings_dialog.py:138 | on a parsable id the key is its numeric id |
| ProjectSettings.SortParticipantsCorrect | src/ui/dialogs/project_settings_dialog.py:138 | on parsable ids the sort is a permutation, keeps every id parsable and orders by numeric id |
| ProjectSettings.SortParticipants | src/ui/dialogs/project_settings_dialog.py:138 | the sort by numeric id; `SortParticipantsCorrect` and `SortParticipantsStable` state its result |
| ProjectSettings.SortParticipantsStable | src/ui/dialogs/project_settings_dialog.py:138 | participants with equal numeric ids (such as "p1" and "p01") keep their order, as Python's stable sort does |
| ProjectSettings.WithoutId | src/ui/dialogs/project_settings_dialog.py:237 | no remaining participant has the deleted id |
| ProjectSettings.WithoutIdKeepsOthers | src/ui/dialogs/project_settings_dialog.py:237 | every participant with another id keeps its number of occurrences |
| ProjectSettings.WithoutIdAppend | src/ui/dialogs/project_settings_dialog.py:237 | deletion filters each part of a list separately, so the others keep their order |
| ProjectSettings.WithoutIdSingle | src/ui/dialogs/project_settings_dialog.py:237 | a single participant is removed exactly when it has the id |
| ProjectSettings.UnlinkedSpec | src/ui/dialogs/project_settings_dialog.py:241-245 | every label referencing the id gets `None`; every other label and every video field stays as it was |
| ProjectSettings.Unlinked | src/ui/dialogs/project_settings_dialog.py:241-245 | the videos after `remove_participant_links`; `UnlinkedSpec` states what changes and what stays |
| ProjectSettings.LabelCountUnlinked | src/ui/dialogs/project_settings_dialog.py:214-245 | after unlinking one clip's labels none counts as using the id |
| ProjectSettings.UsageCountUnlinked | src/ui/dialogs/project_settings_dialog.py:214-245 | after unlinking, the usage count of the id is 0 |
| ProjectSettings.LabelCount | src/ui/dialogs/project_settings_dialog.py:216-219 | the labels of one clip that reference the id; `LabelCountUnlinked` says none do after unlinking |
| ProjectSettings.UsageCount | src/ui/dialogs/project_settings_dialog.py:214-219 | the usage count across all clips; `CountUsage` computes it with the nested loop and `UsageCountUnlinked` makes it 0 after unlinking |
| ProjectSettings.AppendFreshKeyed | src/ui/dialogs/project_settings_dialog.py:136-138 | a generated id always parses, so the sort raises after the append exactly when it would have raised before |
| ProjectSettings.WithNewParticipantKeyed | src/ui/dialogs/project_settings_dialog.py:131-138 | the list `add_participant` builds has every id parsing exactly when the old list did |
| ProjectSettings.NewIdIsFresh | src/ui/dialogs/project_settings_dialog.py:125-137 | the new participant has the stripped name; its numeric id is the smallest free one and differs from every parsed existing id |
| ProjectSettings.WithNewParticipant | src/ui/dialogs/project_settings_dialog.py:131-137 | the list with the stripped name appended under the generated id; `NewIdIsFresh` and `AddKeepsSortedAndAddsOne` state its properties |
| ProjectSettings.AddKeepsSortedAndAddsOne | src/ui/dialogs/project_settings_dialog.py:137-138 | adding to a sorted list with parsable ids gives a sorted list holding the old participants, in their order, and the new one at its place |
| ProjectSettings.ProjectSettingsDialog.constructor | src/ui/dialogs/project_settings_dialog.py:11-15 | the dialog starts with the project's participants and videos and no changes |
| ProjectSettings.ProjectSettingsDialog.OnChange | src/ui/dialogs/project_settings_dialog.py:110-112 | marks the dialog changed |
| ProjectSettings.ProjectSettingsDialog.GenerateNewId | src/ui/dialogs/project_settings_dialog.py:114-129 | returns `"p"` followed by the smallest free number of the parsed ids |
| ProjectSettings.ProjectSettingsDialog.AddParticipant | src/ui/dialogs/project_settings_dialog.py:131-142 | a blank name changes nothing. Otherwise, with parsable ids, the list becomes the sorted list with the new participant, the input is cleared and the dialog is changed. With an unparsable id the append happens and then the sort raises |
| ProjectSettings.ProjectSettingsDialog.TypeNewParticipant | src/ui/dialogs/project_settings_dialog.py:59-67 | the new-participant input holds what was typed |
| ProjectSettings.ProjectSettingsDialog.CountUsage | src/ui/dialogs/project_settings_dialog.py:214-219 | the nested loop counts the labels, across all videos, that reference the id |
| ProjectSettings.ProjectSettingsDialog.RemoveParticipantLinks | src/ui/dialogs/project_settings_dialog.py:241-245 | the videos become `Unlinked` of the old videos |
| ProjectSettings.ProjectSettingsDialog.DeleteParticipant | src/ui/dialogs/project_settings_dialog.py:213-239 | a used participant whose deletion is declined stays. Otherwise its labels are unlinked (when used), it is filtered out and the dialog is changed |
| ProjectSettings.ProjectSettingsDialog.SaveEdit | src/ui/dialogs/project_settings_dialog.py:188-194 | a non-blank edit renames that row to the stripped text; a blank one reverts the shown text and changes nothing |
| Timeline.LastCovering | src/ui/components/timeline_widget.py:168-170 | the last annotation in list order whose half-open interval holds the time, or none covers it |
| Timeline.TimeAt | src/ui/components/timeline_widget.py:147 | the time under a widget position, x / 50 |
| Timeline.FirstClipCovering | src/ui/components/timeline_widget.py:181-184 | the first clip in list order whose interval holds the time, or none covers it |
| Timeline.PressZoneSpec | src/ui/components/timeline_widget.py:172-175 | left edge iff within 0.5 s of the start; right edge iff not that and within 0.5 s of the end; else body drag at offset time − start |
| Timeline.PressZone | src/ui/components/timeline_widget.py:172-175 | the grab a left press on an annotation makes; `PressZoneSpec` states its three zones |
| Timeline.ClipsBefore | src/ui/components/timeline_widget.py:230-237 | the index of the first clip whose midpoint lies after the drop time, else the clip count |
| Timeline.DropIndexInRange | src/ui/components/timeline_widget.py:230-240 | after the clamp the target is a valid index (−1 only without clips) and every earlier clip's midpoint is not after the drop time |
| Timeline.DropIndex | src/ui/components/timeline_widget.py:230-240 | the clamped drop target; `DropIndexInRange` states its range and placement |
| Timeline.Dragged | src/ui/components/timeline_widget.py:197-198 | a body drag keeps label and duration and moves the start to time − offset, floored at 0 |
| Timeline.ResizedLeft | src/ui/components/timeline_widget.py:202-205 | start = max(0, t); the end stays unless the 0.1 s minimum duration pushes it |
| Timeline.ResizedRight | src/ui/components/timeline_widget.py:206-207 | the start stays; the end follows the mouse, with a duration of at least 0.1 s |
| Timeline.EditsKeepWellFormed | src/ui/components/timeline_widget.py:197-207 | drags keep start ≥ 0 and duration ≥ 0.1 s; resizes establish them |
| Timeline.DroppedWellFormed | src/ui/components/timeline_widget.py:141-142 | a drop at a non-negative position creates an annotation with start ≥ 0 and duration ≥ 0.1 s |
| Timeline.TotalDurationNonNegative | src/ui/components/timeline_widget.py:43-46 | clips with no negative duration have a non-negative total |
| Timeline.TotalDuration | src/ui/components/timeline_widget.py:43-46 | `sum(c["duration"] for c in clips)`; `TotalDurationNonNegative` bounds it |
| Timeline.MinimumWidthFor | src/ui/components/timeline_widget.py:49-50 | the minimum width is at least the parent's width |
| Timeline.MinimumWidthCoversClips | src/ui/components/timeline_widget.py:49-50 | the width is at least 100 px and wider than 50 px per second of total duration |
| Timeline.TimelineWidget.constructor | src/ui/components/timeline_widget.py:19-38 | empty lists, zero durations, no gesture in progress |
| Timeline.TimelineWidget.SetData | src/ui/components/timeline_widget.py:40-51 | stores the lists, the total duration and the minimum width |
| Timeline.TimelineWidget.AddThumbnail | src/ui/components/timeline_widget.py:53-56 | sets exactly one frame of one path, creating the path's map if needed; other paths unchanged |
| Timeline.TimelineWidget.ClearThumbnails | src/ui/components/timeline_widget.py:58-60 | no thumbnails remain |
| Timeline.TimelineWidget.UpdatePlayheadPosition | src/ui/components/timeline_widget.py:62-64 | the playhead is at the given time |
| Timeline.TimelineWidget.DropEvent | src/ui/components/timeline_widget.py:139-143 | exactly one annotation (text, x/50, 5.0) is appended; earlier ones are unchanged |
| Timeline.TimelineWidget.HitAnnotation | src/ui/components/timeline_widget.py:168-170 | the reverse loop finds `LastCovering` |
| Timeline.TimelineWidget.HitClip | src/ui/components/timeline_widget.py:181-184 | the forward loop finds `FirstClipCovering` |
| Timeline.TimelineWidget.MousePress | src/ui/components/timeline_widget.py:146-190 | right press: remove offer only. Left press: annotation band first (exactly one grab field set, as `PressZone` says), then clip drag, else a seek to x/50 |
| Timeline.TimelineWidget.OnAnyEdge | src/ui/components/timeline_widget.py:217-222 | true exactly when some annotation has its start or end within 0.5 s of the mouse |
| Timeline.NearEdge | src/ui/components/timeline_widget.py:220 | the strict `abs(...) < 0.5` test at one annotation's start or end; `OnAnyEdge` ranges it over all annotations |
| Timeline.TimelineWidget.MouseMove | src/ui/components/timeline_widget.py:192-222 | clears the pending click; applies `Dragged`/`ResizedLeft`/`ResizedRight` to the grabbed annotation only; otherwise only the cursor changes |
| Timeline.TimelineWidget.ClipsBeforeDrop | src/ui/components/timeline_widget.py:230-237 | the `break` loop computes `ClipsBefore` |
| Timeline.TimelineWidget.MouseRelease | src/ui/components/timeline_widget.py:224-254 | emits a reorder only when the clamped target differs from the source, then a seek to a still-pending clicked annotation's start; clears all gesture fields |
| Editor.GlobalTimeInClip | src/ui/windows/editor_window.py:233-239 | a local time inside clip k maps to a global time inside clip k's global span |
| Editor.OffsetStep | src/ui/windows/editor_window.py:233-237 | the next clip starts where a clip ends |
| Editor.OffsetMonotonic | src/ui/windows/editor_window.py:233-237 | with no negative duration the global offsets grow with the index |
| Editor.PagedScroll | src/ui/windows/editor_window.py:412-445 | no write without a zoom or inside the band. A forward jump happens only past 95 % of the viewport and lands at `int(x − 0.02·width)`; leaving the band on either side always writes; a backward jump puts the playhead at the middle of the viewport (`int(x − 0.5·width)`, within one pixel) or, where that is negative, shows the start |
| Editor.PagingSettles | src/ui/windows/editor_window.py:433-445 | right after a jump, paging again at the same time writes nothing |
| Editor.ElapsedAsWritten | src/ui/windows/editor_window.py:359 | the elapsed time as written, `now - start` with no wrap; `MidnightWrapDelay` shows it going negative across midnight |
| Editor.Elapsed | src/ui/windows/editor_window.py:359 | time elapsed on a clock that wraps at midnight: now − start, plus a day when now is earlier |
| Editor.LoadDelay | src/ui/windows/editor_window.py:358-390 | the delay is at least 50 ms, at most 1050 ms for a non-negative elapsed time, and ends the wait at 1050 ms after the load |
| Editor.MidnightWrapDelay | src/ui/windows/editor_window.py:359-390 | a load at 23:59:59.900 ready at 00:00:00.100 waits 86 400 850 ms as written and 850 ms with the wrap |
| Editor.LoadDelayBounded | src/ui/windows/editor_window.py:358-390 | with the wrap the delay always lies within [50, 1050] ms, and is 50 ms after a load of at least 1000 ms |
| Editor.LeftTarget | src/ui/windows/editor_window.py:212 | the left key's target is never negative, never later than now, and exactly 2 s earlier when possible |
| Editor.RightTarget | src/ui/windows/editor_window.py:223 | the right key's target is the clip's end or 2 s later, whichever is earlier |
| Editor.RightStepStaysInClip | src/ui/windows/editor_window.py:215-224 | a right step lands at the clip's end at the latest |
| Editor.SaveBarrier | src/ui/windows/editor_window.py:153-163 | proceed iff clean or not cancelled; save iff dirty and Save was chosen |
| Editor.EditorWindow.constructor | src/ui/windows/editor_window.py:114-120 | no clips, no file, clean, no clip loaded, nothing pending |
| Editor.EditorWindow.SetDirty | src/ui/windows/editor_window.py:143-145 | the flag and the top bar's name, text and colour follow the new dirty state |
| Editor.EditorWindow.CheckSaveBarrier | src/ui/windows/editor_window.py:153-163 | returns `SaveBarrier` of the dirty flag and the reply |
| Editor.EditorWindow.ClipOffset | src/ui/windows/editor_window.py:231-237 | the `global_offset` loop sums the durations of the clips before the current one |
| Editor.OffsetBefore | src/ui/windows/editor_window.py:231-237 | the `global_offset` of a clip; `OffsetStep`, `OffsetMonotonic` and `GlobalTimeInClip` state how it grows |
| Editor.EditorWindow.EnsurePlayheadVisible | src/ui/windows/editor_window.py:412-445 | the scroll value becomes what `PagedScroll` writes, or stays |
| Editor.EditorWindow.LoadVideoAtIndex | src/ui/windows/editor_window.py:323-346 | out of range changes nothing; otherwise sets the index and the pending seek, and shows loading, stops, loads |
| Editor.EditorWindow.HandleSeekRequest | src/ui/windows/editor_window.py:393-410 | playhead and paging always. Another clip is loaded paused with the local time pending; the same clip gets an optional pause, then a position of `int(local·1000)` |
| Editor.EditorWindow.PerformSeekShortcut | src/ui/windows/editor_window.py:226-246 | without a clip nothing changes; otherwise a same-clip seek at global time offset + local, with no pause |
| Editor.EditorWindow.OnLeftKey | src/ui/windows/editor_window.py:210-213 | the playhead and the player seek to `LeftTarget` of the local time within the clip, and the scroll bar pages as `PagedScroll` says; without a clip nothing changes |
| Editor.EditorWindow.OnRightKey | src/ui/windows/editor_window.py:215-224 | without a loaded clip in range nothing changes; otherwise the playhead and the player seek to `RightTarget` and the scroll bar pages as `PagedScroll` says |
| Editor.EditorWindow.OnPlayerPositionChanged | src/ui/windows/editor_window.py:250-279 | ignored without a clip or while a seek is pending; otherwise the local time is taken and the playhead follows at offset + local, with paging |
| Editor.EditorWindow.OnMediaStatusChanged | src/ui/windows/editor_window.py:349-391 | a seek is scheduled iff the media is loaded or buffered and one is pending, to `int(seek·1000)` after `max(0, 1000 − (now − start)) + 50` ms: at least 50 ms, and at most 1050 ms when the clock has not passed midnight since the load |
| Editor.EditorWindow.OnMediaStatusChangedCorrected | src/ui/windows/editor_window.py:349-391 | as above with the elapsed time taken modulo one day, so the delay always lies in [50, 1050] ms |
| Editor.EditorWindow.PerformDelayedSeekAndHide | src/ui/windows/editor_window.py:363-386 | with a seek pending: set position, then pause or play as stored, then hide loading, and the pending seek is cleared; otherwise nothing |
| Editor.EditorWindow.OnImportFinished | src/ui/windows/editor_window.py:180-191 | an empty list changes nothing, the top bar included; otherwise it appends the clips, marks the project dirty (the top bar shows the marked name, the "unsaved" text, in gold) and, for a player that has `set_has_video`, tells the player it has video, then stops at the missing `set_videos` (:191), so no clip is loaded. With the repository's own player it stops at :188 instead |
| Editor.EditorWindow.OnImportFinishedCorrected | src/ui/windows/editor_window.py:180-196 | as above, and then the first clip is loaded, paused at 0, when none was |
| Editor.EditorWindow.ResetUiState | src/ui/windows/editor_window.py:460-473 | no clips, no file, clean, no clip; the top bar shows "Sem Nome", white, with the saved-at time |

## Findings

| source | as written | input that shows it | evidently intended | confidence | as-written member | corrected member |
|---|---|---|---|---|---|---|
| src/ui/windows/editor_window.py:359-360 | elapsed = `msecsSinceStartOfDay()` now minus at load, which goes negative when midnight passes during a load | load at 86 399 900 ms (23:59:59.900), media ready at 100 ms: elapsed −86 399 800, delay 86 400 850 ms (about a day) | elapsed modulo one day: delay 850 ms, never above 1050 ms | not executed | Editor.EditorWindow.OnMediaStatusChanged, Editor.ElapsedAsWritten, Editor.MidnightWrapDelay | Editor.EditorWindow.OnMediaStatusChangedCorrected, Editor.Elapsed, Editor.LoadDelayBounded |
| src/ui/windows/editor_window.py:191 | `self.timeline.set_videos(...)`, which `TimelineWidget` does not define, so with a player that has `set_has_video` the handler raises at :191, before lines 195-196 (with the repository's own player it already stops at :188) | the first import into a project with no clip loaded (`current_video_index == -1`): the clips are appended but none is loaded | refresh the timeline, then load the first clip when none was loaded | not executed | Editor.EditorWindow.OnImportFinished | Editor.EditorWindow.OnImportFinishedCorrected |

## Left out

- File and JSON I/O are not modelled: `save_settings`/`load_settings`, `save_project`, `load_project_data`, the file write of `create_project_file` (its success is a parameter) and the dialog's `save_changes`.
- Threads and workers: the import and thumbnail workers are not modelled, and neither is `reset_ui_state` stopping them. Their results enter as parameters of `OnImportFinished` and `AddThumbnail`.
- Painting, stylesheets, layouts, cursors other than the three shapes, and `QApplication.processEvents` are not modelled.
- Message boxes, file dialogs and the context menu are not modelled; the user's answer is a parameter.
- Timers and clocks are not modelled. `QTimer.singleShot` is returned as a `ScheduledSeek`; `QTime` and `QDateTime` readings are parameters.
- Editor.EditorWindow: the media player is modelled as the interface the editor calls (`set_has_video`, `set_position`, `pause`, `play`, `show_loading`, `hide_loading`, `stop`, loading a file, `positionChanged`). Every call is recorded in `playerLog`. The repository's `VideoPlayerWidget` (src/ui/components/video_player_widget.py) defines none of these members, so as written the window's constructor raises `AttributeError` at editor_window.py:107 and `on_import_finished` raises at :188.
- Editor.EditorWindow.EnsurePlayheadVisible: it reads `self.timeline.pixels_per_second`, which `TimelineWidget` does not define, so as written it raises `AttributeError` at editor_window.py:414. The model takes the zoom as the parameter `pps` (0 for a falsy value) instead of stopping there. So `HandleSeekRequest`, `PerformSeekShortcut`, `OnLeftKey`, `OnRightKey` and `OnPlayerPositionChanged` go on to their loads, player seeks and playhead updates, which the program as written never reaches after the playhead update.
- Editor.EditorWindow.HandleSeekRequest: the timeline's `seek_requested` signal carries one float, while the handler takes four arguments. Each side is modelled on its own, with no wiring between them.
- Editor.EditorWindow.EnsurePlayheadVisible: Qt clamps the scroll-bar value to its range, and the model keeps the value written without clamping.
- The editor keeps `project_data` as a dictionary shared with the settings dialog. The model has separate copies (`videos`, `participants`) and does not capture that aliasing.
- Editor clip records use `duracao`, while timeline clips use `startTime`/`duration`. The two are separate datatypes and no conversion between them is modelled.
- Timeline.TimelineWidget.MouseMove: the dragged or resized annotation is an index. After `set_data` in mid-gesture, Python would edit the orphaned old record, while the index points into the new list (or, past its end, edits nothing).
- Timeline.TimelineWidget.MousePress: the icon and position of the context menu are not modelled; a remove request is emitted when `removeChosen` holds.
- Text.ParseInt: Python's `int()` also accepts non-ASCII Unicode decimal digits, which the model rejects.
- CreateProject.SafeName: `str.isalnum` and `str.lower` are modelled exactly only for U+0000..U+00FF.
- Times are exact reals rather than binary floating point.
- ProjectData.DurationOf: a `duracao` stored as JSON `null` reads as `None`, and the `+=` that sums offsets or the total (editor_window.py:237, :271) raises `TypeError`. The model reads an absent or null duration as 0.
- ProjectSettings.SortKey: where an id does not parse, Python's sort raises instead of using a key. `AddParticipant` sorts only when every id parses, and the model gives `SortKey` 0 only so that the function is total.
- ProjectSettings.ProjectSettingsDialog.SaveEdit: the edited row is an index. In Python it is the participant's dictionary, which is the same record as long as the list is not rebuilt between the edit's start and end.
- The export panel, home screen, splash screen, window dragging and the app's wiring are not modelled; they are widgets only.

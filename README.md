# AI document editor: a verified model of its core

This project models the logic at the heart of a browser-based plain-text editor that has an AI
assistant. Each module follows one source file:

- **ExecuteFunction**: the tool executor the assistant calls. It has five editing tools (replace a
  line range, replace a string, insert a line, delete lines, append) over the document's
  `split('\n')` lines, plus the unknown-function error.
- **ChatRoute**: the chat endpoint. It covers the line-numbered view of the document, the two line
  counts, the conversation history and the response built from the executor's result. Both model
  answers are inputs.
- **Versions**: the version history kept in the browser's key/value storage. A class holds the
  stored values and the keys in an enumeration order, which the model fixes as insertion order. It
  covers snapshots, the 50-entry cap, paging, lookup across documents and restore.
- **Diff**: the line annotator over a `diffLines` change list. The change list is an input.
- **UndoRedo** and **EditorPage**: the undo history and the page's handlers that reset it or push into
  it, plus the keyboard shortcuts.
- **AutoSave**: the debounced autosave as a state machine. Its events are a render, the timer firing,
  a manual save and a store answer.
- **AutoSnapshot**: the interval snapshotter.
- **Collaboration**: the realtime session. It covers the presence roster and colours, the typing list
  and its timers, and the outgoing broadcasts.
- **DiffModal** and **VersionTimeline**: the comparison dialog and the history panel.
- **DocsSidebar** and **Documents**: the document list and the query arithmetic behind it.
- **DocumentEditor** and **PresenceIndicator**: the cursor position, the gutter count, initials and
  the presence badge.
- **Debounce** and **Throttle**: the two timing hooks, with timers and clocks as explicit events.

Two shared modules support the rest:

- **Wrappers** holds `Option` and `Result`.
- **Text** holds JavaScript's string semantics as the source uses them:
  - `split`, `join`, `indexOf`, `lastIndexOf`, `includes`;
  - `replace` and `replaceAll` with string patterns;
  - `trim`, with the ECMAScript whitespace set;
  - `slice`, with negative bounds;
  - decimal printing.

How the model is built:

- Components and hooks whose state changes step by step are classes. Their fields are the React
  state and refs.
- Each method is specified against a pure step function or by its whole new state. The lemmas prove
  what the source promises about those functions.
- The current time, generated ids, the database's answers, confirmation dialogs and whether a
  storage write succeeds are all parameters.

Two behaviours are modelled exactly as written:

- The autosave effect's cleanup cancels the pending timer whenever any hook argument changes. This
  happens before the guards run, so a rejected change cancels a save that an earlier change armed.
- The undo history's `push` caps the index at 100. It is logged under Findings, and the class uses
  the corrected cap.

## Model

| member | source | states |
|---|---|---|
| ExecuteFunction.ExecuteFunctionCall | src/lib/execute-function.ts:29-131 | a result succeeds exactly when it carries new content, and exactly when it carries no error |
| ExecuteFunction.UpdateByLineSpec | src/lib/execute-function.ts:38-55 | fails iff `start < 1`, `end > len` or `start > end`, with the range message and no content; on success the content is the prefix before `start`, the new line, then the lines after `end`; for a newline-free line that is also its line list, `len - (end - start)` lines long |
| ExecuteFunction.DeleteLinesSpec | src/lib/execute-function.ts:99-115 | same failure condition; on success the prefix before `start` and the suffix after `end` remain, `len - (end - start + 1)` lines in all, and deleting every line leaves "" |
| ExecuteFunction.InsertAtLineSpec | src/lib/execute-function.ts:79-97 | fails iff the line number is outside `1..len`; otherwise the new line sits at index `n - 1` ("before") or `n` (any other position), giving `len + 1` lines with both sides unchanged |
| ExecuteFunction.InsertIntoLines | src/lib/execute-function.ts:89-96 | inserting a newline-free line into newline-free lines and re-splitting gives exactly the prefix, the line, then the suffix |
| ExecuteFunction.UpdateByReplaceFailsIff | src/lib/execute-function.ts:60-62 | string replace fails iff `old_string` occurs nowhere, and the error quotes it |
| ExecuteFunction.UpdateByReplaceFirst | src/lib/execute-function.ts:65-66 | "first" rewrites exactly the leftmost occurrence |
| ExecuteFunction.UpdateByReplaceLast | src/lib/execute-function.ts:67-71 | "last" rewrites exactly the rightmost occurrence |
| ExecuteFunction.UpdateByReplaceAll | src/lib/execute-function.ts:72-74 | any other occurrence value rewrites every occurrence: split on `old_string`, joined with `new_string` |
| ExecuteFunction.ReplaceAllByItselfIsIdentity | src/lib/execute-function.ts:73 | replacing every occurrence of a string by itself leaves the document unchanged |
| ExecuteFunction.AppendSpec | src/lib/execute-function.ts:117-123 | append never fails; an empty document becomes the content, any other gains `'\n' + content`, and its lines are the old lines followed by the content's |
| ExecuteFunction.LinesOfAppend | src/lib/execute-function.ts:119-120 | the lines of `a + "\n" + b` are the lines of `a` followed by those of `b` |
| ExecuteFunction.UnknownFunctionSpec | src/lib/execute-function.ts:125-126 | a name that is none of the five tools fails with no content and an error quoting the name |
| ExecuteFunction.InvertedRangeAlwaysFails | src/lib/execute-function.ts:41-46 | start 5, end 3 fails for line update and for delete on every document |
| ExecuteFunction.DeleteMiddleLineExample | src/lib/execute-function.ts:109-114 | deleting line 2 of `line1\nline2\nline3` gives `line1\nline3` |
| ExecuteFunction.DeleteFromLines | src/lib/execute-function.ts:109-114 | deleting a good range from a document given by its lines yields the join of the remaining lines |
| ExecuteFunction.AppendExamples | src/lib/execute-function.ts:119-122 | appending "footer" gives "footer" on "" and `body\nfooter` on "body" |
| ExecuteFunction.LinesOfUnlines | src/lib/execute-function.ts:54 | joining newline-free lines with '\n' and splitting again returns the same lines |
| ChatRoute.NumberLines | src/app/api/ai-editor/chat/route.ts:17 | one output per line, the k-th reading `first + k`, ". ", then the line |
| ChatRoute.FormatDocumentSpec | src/app/api/ai-editor/chat/route.ts:14-18 | "" is shown as "(empty document)"; any other document with exactly as many lines, line k (from 1) reading `k. ` and the original line |
| ChatRoute.LineCountsSpec | src/app/api/ai-editor/chat/route.ts:26 | for a non-empty document both counts are the number of newlines plus one; on "" the first prompt's count is 0 and the follow-up's is 1 |
| ChatRoute.History | src/app/api/ai-editor/chat/route.ts:70-73 | every message but the last, in order, with the role mapped and the content kept |
| ChatRoute.RoleMapping | src/app/api/ai-editor/chat/route.ts:71 | a turn is the user's iff the role is "user"; "assistant" and any other role become the model's |
| ChatRoute.HandleChatSpec | src/app/api/ai-editor/chat/route.ts:96-173 | a failed tool run replies with the executor's error and no new document; a successful one returns exactly the executor's content; a new document appears only after success |
| ChatRoute.PlainChatSpec | src/app/api/ai-editor/chat/route.ts:176-181 | without a function call there is no new document and no call info, and the reply reads "No response" iff the answer text is missing or empty (or is that text) |
| ChatRoute.UnknownToolReply | src/app/api/ai-editor/chat/route.ts:107-119 | an unknown tool name is answered with the error naming it and leaves the document alone |
| Versions.StorageKey | src/lib/versions.ts:18-20 | every key starts with `doc_versions_` |
| Versions.StorageKeyInjective | src/lib/versions.ts:18-20 | distinct documents have distinct keys, so a write to one leaves the others alone |
| Versions.Retain | src/lib/versions.ts:34-35 | keeps `min(len, 50)` entries, and they are the first (newest) ones |
| Versions.Summaries | src/lib/versions.ts:93-95 | same length, each entry the version without its content |
| Versions.FindById | src/lib/versions.ts:111 | a found version is the first entry with the id; nothing is found iff no entry has the id |
| Versions.VersionStore.SaveVersions | src/lib/versions.ts:32-37 | a successful write stores the first 50 entries under the document's key and changes no other key; a refused write changes nothing |
| Versions.VersionStore.CreateSnapshot | src/lib/versions.ts:45-79 | the answer is the snapshot outcome for the current log; only a created version changes the store, by storing `[new] + log` cut to 50; a valid log stays valid |
| Versions.SnapshotOutcomeSpec | src/lib/versions.ts:51-72 | missing ids throw, a repeat of the head answers null, and a new version is numbered head + 1 (1 for an empty log) and carries the content, document, label and author |
| Versions.VersionStore.GetVersionContent | src/lib/versions.ts:102-119 | returns the version the ordered key scan finds (the first match, by Versions.FindFromFirst), or throws "Versi tidak ditemukan" |
| Versions.VersionStore.RestoreVersion | src/lib/versions.ts:123-139 | a missing version throws and changes nothing; otherwise its content is snapshotted with the label "Restored from v<N>", writing the new log under the document's key (a new key goes last in insertion order) and nothing else |
| Versions.NumberOffset | src/lib/versions.ts:62-75 | in a well-numbered log entry k is `len - 1 - k` above the oldest |
| Versions.NumbersStrictlyDecrease | src/lib/versions.ts:62-75 | version numbers strictly decrease from the head |
| Versions.UncutLogNumbers | src/lib/versions.ts:62 | a log never cut holds exactly the numbers `len, ..., 1` |
| Versions.NextNumberIsFresh | src/lib/versions.ts:62 | the next number exceeds every stored number and the log length |
| Versions.SnapshotKeepsLogValid | src/lib/versions.ts:62-75 | prepending a version numbered head + 1 and cutting to 50 keeps the log valid: at most 50 entries, consecutive numbers, the oldest numbered 1 unless older ones were cut |
| Versions.TwoSnapshots | src/lib/versions.ts:62-75 | two snapshots in a row are numbered n + 1 and n + 2, newest first, and the log stays valid |
| Versions.VersionListPage | src/lib/versions.ts:83-98 | a page is entries `[page*size, page*size + size)` without content; `hasMore` iff an entry exists at `(page+1)*size` |
| Versions.WindowPage | src/lib/versions.ts:89-95 | the `size + 1` window cut to `size` is the page, and it overflowed iff more entries follow |
| Versions.FirstPageIsNewest | src/lib/versions.ts:83-98 | the first page of the default size lists the newest 20 versions |
| Versions.FindFromSound | src/lib/versions.ts:106-116 | what the scan finds has the id and sits in a parsed list under a version key |
| Versions.FindFromFirst | src/lib/versions.ts:106-116 | the scan answers from the first version key, in store order, whose parsed list holds the id, with that list's first match; nothing iff no key from the start holds the id |
| Versions.FindFromComplete | src/lib/versions.ts:106-116 | if any version key holds a version with the id, the scan finds one |
| Versions.FindFailsIff | src/lib/versions.ts:102-119 | the lookup fails exactly when no version key holds that id |
| Versions.RestoreOfHeadIsNull | src/lib/versions.ts:128-138 | restoring a version whose content is the head's answers null and stores nothing |
| Diff.ChangeLines | src/lib/diff.ts:34-39 | no line of a change contains '\n' |
| Diff.Tagged | src/lib/diff.ts:41-71 | one entry for every line of the change |
| Diff.ComputeDiff | src/lib/diff.ts:23-75 | the lines are the change lines tagged with their type, in change order; they are numbered per side; the stats are the per-type counts |
| Diff.EmitLines | src/lib/diff.ts:41-71 | one pass of the inner loop extends the lines by the change's tagged lines and keeps numbering, counters and stats consistent |
| Diff.PushLine | src/lib/diff.ts:42-70 | one line: its type from the flags (`added` first), the old number null for added, the new number null for removed, the right counters advanced and one stat bumped |
| Diff.EmitStep | src/lib/diff.ts:41-71 | appending a pushed line extends the entries, preserves the numbering and advances the counts of its type |
| Diff.AppendNumbered | src/lib/diff.ts:28-29 | a line numbered from the current side counts keeps the whole list numbered |
| Diff.CountsCoverAll | src/lib/diff.ts:30 | the three type counts add up to the number of lines |
| Diff.StatsTotal | src/lib/diff.ts:30-72 | `added + removed + unchanged == lines.length` |
| Diff.NumbersBySide | src/lib/diff.ts:42-70 | added lines carry only a new number, removed lines only an old one, unchanged lines both |
| Diff.OldNumbersConsecutive | src/lib/diff.ts:55-67 | old numbers along the non-added lines rise by exactly one |
| Diff.FirstNumbersAreOne | src/lib/diff.ts:28-29 | the first old-side and the first new-side line are number 1 |
| Diff.EmptyChangeEmitsNothing | src/lib/diff.ts:34-39 | an empty value emits no lines and "\n" emits one empty line |
| Diff.ChangeLinesRoundTrip | src/lib/diff.ts:34-39 | the change lines, re-joined with the dropped trailing '\n' restored, give back the value |
| Diff.UnflaggedIsUnchanged | src/lib/diff.ts:60-70 | an unflagged change list emits only unchanged lines |
| Diff.UnflaggedStats | src/lib/diff.ts:60-70 | then added and removed are 0 and unchanged is the line count |
| UndoRedo.History.constructor | src/app/ai-editor/page.tsx:32-35 | history `[initial]` at index 0, skip flag off |
| UndoRedo.History.Push | src/app/ai-editor/page.tsx:39-51 | the state after is the corrected push step and stays in bounds |
| UndoRedo.History.Undo | src/app/ai-editor/page.tsx:53-58 | the state after is the undo step |
| UndoRedo.History.Redo | src/app/ai-editor/page.tsx:60-65 | the state after is the redo step |
| UndoRedo.History.Reset | src/app/ai-editor/page.tsx:67-70 | the state after is the reset step |
| UndoRedo.PushKeepsInBounds | src/app/ai-editor/page.tsx:44-50 | a skipped push only clears the flag; otherwise the entries after the cursor are discarded, the value appended (the oldest dropped past 100), and the new value is current with nothing to redo |
| UndoRedo.PushAsWrittenLeavesRange | src/app/ai-editor/page.tsx:50 | as written, a push at index 99 over 100 entries leaves index 100 with 100 entries, so `history[index]` is undefined |
| UndoRedo.PushAgreesBelowCap | src/app/ai-editor/page.tsx:44-50 | below the cap the written and the corrected push agree |
| UndoRedo.UndoSpec | src/app/ai-editor/page.tsx:53-58 | undo steps back and sets the skip flag only when `canUndo` (`index > 0`); otherwise nothing changes |
| UndoRedo.RedoSpec | src/app/ai-editor/page.tsx:60-65 | redo steps forward and sets the flag only when `canRedo` (`index < len - 1`); otherwise nothing changes |
| UndoRedo.UndoAfterPush | src/app/ai-editor/page.tsx:39-58 | undo after a recorded push returns to the previous value and enables redo |
| UndoRedo.RedoAfterUndo | src/app/ai-editor/page.tsx:53-65 | redo after undo restores the state, with the skip flag set |
| UndoRedo.SkipOnlyOnce | src/app/ai-editor/page.tsx:40-43 | the first push after an undo is dropped whatever its value, and the next one is recorded |
| UndoRedo.ResetSpec | src/app/ai-editor/page.tsx:67-70 | reset gives `[v]` at index 0 and keeps the skip flag; nothing to undo or redo |
| UndoRedo.PushAllInBounds | src/app/ai-editor/page.tsx:44-50 | any sequence of corrected pushes keeps the index in range and at most 100 entries |
| UndoRedo.PushAllKeepsNewest | src/app/ai-editor/page.tsx:38-51 | a run of corrected pushes leaves the newest 100 of the entries up to the cursor followed by the pushed values, with the cursor on the last; an armed skip flag swallows only the first push; no pushes change nothing |
| UndoRedo.ManyPushesKeepLastHundred | src/app/ai-editor/page.tsx:38-51 | 150 corrected pushes after the first render leave exactly the 100 most recent values, in order, with the cursor on the last |
| EditorPage.Shortcut | src/app/ai-editor/page.tsx:235-244 | a key press triggers at most one action |
| EditorPage.ShortcutSpec | src/app/ai-editor/page.tsx:236-243 | Ctrl+z without Shift undoes; Ctrl+y or Ctrl+Shift+z redoes; nothing without Ctrl or for other keys |
| EditorPage.Page.constructor | src/app/ai-editor/page.tsx:152-167 | no active document, empty title, history `[""]` |
| EditorPage.Page.HandleDocumentSelect | src/app/ai-editor/page.tsx:186-199 | selecting the active document, or a failed fetch, changes nothing; otherwise id and title are taken and the history is reset to the content |
| EditorPage.Page.HandleDocumentDelete | src/app/ai-editor/page.tsx:202-208 | deleting the active document clears id and title and resets the history to ""; deleting another changes nothing |
| EditorPage.Page.HandleContentChange | src/app/ai-editor/page.tsx:210-212 | an edit is a push |
| EditorPage.Page.HandleContentRestore | src/app/ai-editor/page.tsx:439-446 | after a restore the refetched content resets the history; a failed fetch changes nothing |
| EditorPage.Page.HandleKeyDown | src/app/ai-editor/page.tsx:235-244 | the history takes the undo step, the redo step or no step, as the shortcut says |
| AutoSave.Controller.constructor | src/hooks/useAutoSave.ts:13-15 | the mount state with status 'saved' and the ref at the first content |
| AutoSave.Controller.PerformSave | src/hooks/useAutoSave.ts:18-39 | the state after is the perform-save step |
| AutoSave.Controller.Render | src/hooks/useAutoSave.ts:48-71 | the state after is the render step and the invariant holds |
| AutoSave.Controller.TimerFires | src/hooks/useAutoSave.ts:60-66 | the state after is the timer step and the invariant holds |
| AutoSave.Controller.SaveNow | src/hooks/useAutoSave.ts:42-45 | the state after is the save-now step and the invariant holds |
| AutoSave.Controller.SaveResult | src/hooks/useAutoSave.ts:24-38 | the state after is the answer step, AutoSave.SaveResultSpec states it; `thrown` is whether the error reaches the caller |
| AutoSave.EventsKeepInv | src/hooks/useAutoSave.ts:48-71 | every event keeps the invariant (a pending timer belongs to the current arguments and will save them) |
| AutoSave.DisabledNeverWrites | src/hooks/useAutoSave.ts:19-21 | without a document id or ownership no path sends a write or changes the status |
| AutoSave.DisabledRenderRecordsNothing | src/hooks/useAutoSave.ts:49 | a render without an id or ownership records nothing and changes no status |
| AutoSave.IgnoredContent | src/hooks/useAutoSave.ts:50-53 | content equal to the recorded one, or empty over non-empty, is not recorded, and the cleanup leaves no timer |
| AutoSave.AcceptedContent | src/hooks/useAutoSave.ts:55-66 | an accepted change is recorded, sets 'saving' and arms exactly one timer for that content |
| AutoSave.SaveNowWritesRecorded | src/hooks/useAutoSave.ts:42-45 | save now cancels the timer and sends the recorded content, not the latest prop |
| AutoSave.SaveResultSpec | src/hooks/useAutoSave.ts:30-38 | success sets 'saved', records the text in the ref and stores it under the document when that row exists (an update of an absent id changes nothing); failure sets 'error' and leaves the store; only the save-now path rethrows |
| AutoSave.FailedSaveIsNotRetried | src/hooks/useAutoSave.ts:50-65 | after a failed timed save of accepted content the error is swallowed and the same content is not re-armed |
| AutoSave.MountSpec | src/hooks/useAutoSave.ts:13-14 | the initial status is 'saved', it satisfies the invariant and no timer is pending |
| AutoSnapshot.Snapshotter.constructor | src/hooks/useAutoSnapshot.ts:13-20 | the ref holds the first content; an interval runs iff both ids are present |
| AutoSnapshot.Snapshotter.Render | src/hooks/useAutoSnapshot.ts:19-53 | every render overwrites the ref, and afterwards an interval runs iff both ids are present |
| AutoSnapshot.Snapshotter.Tick | src/hooks/useAutoSnapshot.ts:43-50 | no interval, no write; otherwise the ref's latest content is snapshotted, only the document's key and (when new) the key list change, and a failure is swallowed with the interval kept |
| AutoSnapshot.Snapshotter.SaveNamedVersion | src/hooks/useAutoSnapshot.ts:23-37 | missing ids alert without a snapshot; otherwise the label is passed through, only the document's key and (when new) the key list change, and a store failure is rethrown |
| AutoSnapshot.TickOutcome | src/hooks/useAutoSnapshot.ts:43-50 | with both ids a tick adds a version, answers null for a repeat of the head, or fails only on a refused write |
| Collaboration.ColorsWrap | src/hooks/useCollaboration.ts:15-22 | ranks eight apart share a colour, every colour is from the palette, and the first eight ranks get eight different colours |
| Collaboration.FirstEntries | src/hooks/useCollaboration.ts:76 | the first entry under every key, in key order |
| Collaboration.Others | src/hooks/useCollaboration.ts:84 | exactly the roster entries whose user is not the local one |
| Collaboration.OthersKeepsOrder | src/hooks/useCollaboration.ts:84 | the filter keeps roster order: it distributes over concatenation and keeps a single entry iff its user is not the local one |
| Collaboration.InsertSpec | src/hooks/useCollaboration.ts:78-80 | inserting into a list sorted by join time keeps it sorted and adds exactly that entry (as a multiset) |
| Collaboration.SortBySeen | src/hooks/useCollaboration.ts:78-80 | the sorted roster is ordered by join time and is a permutation of the roster |
| Collaboration.SortBySeenStable | src/hooks/useCollaboration.ts:78-80 | the sort is stable: the entries seen at any one time keep their roster order |
| Collaboration.IndexOfUser | src/hooks/useCollaboration.ts:81 | the least index with the user id, or -1 iff there is none |
| Collaboration.AbsentKeepsColor | src/hooks/useCollaboration.ts:81-82 | without the local user in the roster the colour is kept |
| Collaboration.RankIsJoinOrder | src/hooks/useCollaboration.ts:78-82 | with distinct join times and users, the local rank is the number of users who joined earlier, and the colour is that rank's |
| Collaboration.AddTyping | src/hooks/useCollaboration.ts:92-94 | a new user is appended at the end, a listed one leaves the list as it is; the list stays duplicate-free |
| Collaboration.RemoveTyping | src/hooks/useCollaboration.ts:97 | removes exactly that user |
| Collaboration.RemoveTypingKeepsOrder | src/hooks/useCollaboration.ts:97 | removal keeps the order of the remaining ids: it distributes over concatenation and keeps a single id iff it is another user's |
| Collaboration.Session.constructor | src/hooks/useCollaboration.ts:37-42 | no channel, not connected, no ids, the first palette colour, no timers and empty lists and outbox |
| Collaboration.Session.Teardown | src/hooks/useCollaboration.ts:120-129 | clears every typing timer, the roster and the typing list, and disconnects; the ids, the colour and the outbox stay |
| Collaboration.Session.Connect | src/hooks/useCollaboration.ts:64-72 | takes the new ids; a channel opens iff the document id and the user id are present, not yet connected, with every list and timer cleared; the colour and the outbox stay |
| Collaboration.Session.Subscribed | src/hooks/useCollaboration.ts:105-116 | on SUBSCRIBED: connected, and the presence with `cursor: null`, the current ids and colour is tracked; no other field changes; other statuses change nothing |
| Collaboration.Session.PresenceSync | src/hooks/useCollaboration.ts:74-86 | the roster becomes the others and the colour the one for the local rank (kept if absent); no other field changes |
| Collaboration.Session.BroadcastReceived | src/hooks/useCollaboration.ts:88-103 | a user's own broadcast changes nothing; another user is added once to the typing list with one re-armed timer, and the callback gets the content; no other field changes |
| Collaboration.Session.TypingTimerFires | src/hooks/useCollaboration.ts:96-98 | expiry removes only that user and its timer; no other field changes |
| Collaboration.Session.BroadcastContentChange | src/hooks/useCollaboration.ts:44-51 | with a channel that was open and connected, appends the content change with our id and changes nothing else; otherwise nothing changes |
| Collaboration.Session.UpdateCursor | src/hooks/useCollaboration.ts:53-62 | with a channel that was open and connected, tracks `{line, col}` with the current ids and colour and changes nothing else; otherwise nothing changes |
| Collaboration.TypingListScenario | src/hooks/useCollaboration.ts:92-98 | adding twice equals adding once; expiry drops that user and keeps the others |
| DiffModal.OrderSpec | src/components/DiffModal.tsx:35-36 | the pair is ordered by version number, holds both versions, and on a tie B is taken as older |
| DiffModal.ChangeIndicesUpTo | src/components/DiffModal.tsx:51-54 | strictly increasing indices of exactly the changed lines |
| DiffModal.ChangeIndicesPrefix | src/components/DiffModal.tsx:51-54 | the index list up to m is a prefix of the list up to n |
| DiffModal.ChangesBeforeIsCount | src/components/DiffModal.tsx:110-117 | the running count of changes equals the length of the index list so far |
| DiffModal.LineToChangeIndex | src/components/DiffModal.tsx:110-117 | unchanged lines get -1 and each changed line the number of changes before it |
| DiffModal.ChangeNumberIsInverse | src/components/DiffModal.tsx:110-117 | the number given to a changed line indexes `changeLineIndices` at exactly that line |
| DiffModal.NavigationSpec | src/components/DiffModal.tsx:63-73 | next and previous move by one, stay in range, and stop at the ends |
| DiffModal.LeftPanel | src/components/DiffModal.tsx:255 | exactly the non-added lines |
| DiffModal.RightPanel | src/components/DiffModal.tsx:285 | exactly the non-removed lines |
| DiffModal.PanelsKeepOrder | src/components/DiffModal.tsx:255-285 | both panels keep the diff's line order: each distributes over concatenation and keeps a single line iff it is not added (old panel) or not removed (new panel) |
| DiffModal.PanelSizes | src/components/DiffModal.tsx:255 | each panel holds its side's removed/added plus unchanged count |
| DiffModal.LinePrefix | src/components/DiffModal.tsx:98-107 | '+' iff added, '-' iff removed, ' ' iff unchanged |
| DiffModal.Modal.constructor | src/components/DiffModal.tsx:17-22 | nothing loaded, loading, split view, first change |
| DiffModal.Modal.Load | src/components/DiffModal.tsx:25-48 | a failed lookup changes nothing but the spinner; otherwise the versions are ordered and the lines are those of the line diff of the older content against the newer, numbered, with their counts |
| DiffModal.Modal.GoToNextChange | src/components/DiffModal.tsx:63-67 | the index becomes `min(i + 1, len - 1)`; no other field changes |
| DiffModal.Modal.GoToPrevChange | src/components/DiffModal.tsx:69-73 | the index becomes `max(i - 1, 0)`; no other field changes |
| DiffModal.Modal.SetViewMode | src/components/DiffModal.tsx:175-182 | only the view mode changes |
| VersionTimeline.FormatRelativeTimeSpec | src/components/VersionTimeline.tsx:19-29 | "Baru saja" iff under a minute (future times included), then floored minutes below 60, hours below 24, else days |
| VersionTimeline.Without | src/components/VersionTimeline.tsx:70 | exactly the other ids |
| VersionTimeline.ToggleSelectSpec | src/components/VersionTimeline.tsx:68-74 | the selection stays at most two, duplicate-free; the toggled id flips; with two picked the older is dropped |
| VersionTimeline.ToggleTwice | src/components/VersionTimeline.tsx:68-74 | toggling a new id twice from under two picks restores the selection |
| VersionTimeline.Timeline.constructor | src/components/VersionTimeline.tsx:37-44 | empty list, loading, page 0, nothing selected |
| VersionTimeline.Timeline.LoadVersions | src/components/VersionTimeline.tsx:46-62 | append concatenates the page, otherwise it replaces the list; `hasMore` is the page's |
| VersionTimeline.Timeline.ToggleSelect | src/components/VersionTimeline.tsx:68-74 | the selection takes the toggle step and stays at most two distinct ids; no other field changes |
| VersionTimeline.Timeline.HandleLoadMore | src/components/VersionTimeline.tsx:97-101 | the page counter advances, that page is appended and its `hasMore` taken; the selection and the restore marker are kept |
| VersionTimeline.Timeline.HandleRestore | src/components/VersionTimeline.tsx:76-95 | unconfirmed: nothing; a missing version alerts and stores nothing; otherwise it succeeds iff the snapshot of the found content succeeds, a failure alerts, the store changes only by that snapshot, and a success reloads page 0 (its list and `hasMore`, loading ended) without touching the page counter or the selection; without a success the loading flags stay |
| VersionTimeline.QuickCompareNewest | src/components/VersionTimeline.tsx:110-113 | after loading the first page, quick compare is offered iff the document has two versions, as (previous, newest) numbered one apart, a pair the dialog keeps as (older, newer) |
| VersionTimeline.CompareSelectedInPickOrder | src/components/VersionTimeline.tsx:121-123 | one pick offers nothing, two picks offer them in pick order, a third pick offers the last two, and unpicking either of two withdraws the offer |
| VersionTimeline.RestoreOfferedBelowNewest | src/components/VersionTimeline.tsx:201-203 | on the first page of a well-numbered log a row offers restore iff some listed version has a higher number |
| VersionTimeline.LoadMorePages | src/components/VersionTimeline.tsx:97-101 | loading more after the first page lists the newest 40 |
| VersionTimeline.SummariesAppend | src/components/VersionTimeline.tsx:51-53 | summaries of a concatenation are the concatenated summaries |
| DocsSidebar.Retitle | src/components/DocsSidebar.tsx:120-122 | only entries with the id take the title; the rest are unchanged |
| DocsSidebar.RemoveIdMembers | src/components/DocsSidebar.tsx:134 | the filter keeps exactly the entries with another id |
| DocsSidebar.RemoveIdSpec | src/components/DocsSidebar.tsx:134 | with unique ids, deleting one removes exactly that entry and keeps the rest in order |
| DocsSidebar.RetitleKeepsIds | src/components/DocsSidebar.tsx:120-122 | a rename keeps every id, so ids stay unique |
| DocsSidebar.Sidebar.constructor | src/components/DocsSidebar.tsx:41-60 | the initial list state |
| DocsSidebar.Sidebar.LoadDocuments | src/components/DocsSidebar.tsx:63-87 | the state after is the load step, DocsSidebar.LoadStepSpec states what it shows |
| DocsSidebar.LoadStepSpec | src/components/DocsSidebar.tsx:63-87 | a load ends the spinner and changes only the list, the error and the counts; search mode shows the results as one page of `results.length`; otherwise the rows `[10 page, 10 page + 10)` of the sorted list, the count (0 when absent) as total and the least page count that holds it; a failure sets the error and keeps the list and counts |
| DocsSidebar.Sidebar.SetSearchQuery | src/components/DocsSidebar.tsx:160-172 | typing or clearing sets only the typed query; a non-empty one hides the page controls at once |
| DocsSidebar.Sidebar.SettleQuery | src/components/DocsSidebar.tsx:94-96 | the settled query is set, and a changed one resets the page to 0; no other field changes |
| DocsSidebar.Sidebar.SetSort | src/components/DocsSidebar.tsx:94-96 | the sort is set, and a changed one resets the page to 0; no other field changes |
| DocsSidebar.Sidebar.HandleCreate | src/components/DocsSidebar.tsx:99-109 | the new document goes first, is selected and opens for renaming as "Untitled"; a failure changes nothing; no other field changes |
| DocsSidebar.Sidebar.StartRename | src/components/DocsSidebar.tsx:112-115 | renaming opens with the document's id and title; no other field changes |
| DocsSidebar.Sidebar.SubmitRename | src/components/DocsSidebar.tsx:117-128 | an accepted rename retitles only that entry with the trimmed value; the field closes either way; no other field changes |
| DocsSidebar.Sidebar.HandleDelete | src/components/DocsSidebar.tsx:131-142 | a delete drops the id and clears the confirmation, a failed one changes nothing; the parent is told iff it was the open document; no other field changes |
| DocsSidebar.Sidebar.PrevPage | src/components/DocsSidebar.tsx:278-279 | enabled off page 0, steps back one; no other field changes |
| DocsSidebar.Sidebar.NextPage | src/components/DocsSidebar.tsx:288-289 | enabled before the last page, steps forward one; no other field changes |
| DocsSidebar.PaginationSpec | src/components/DocsSidebar.tsx:275 | the page controls hide while any query is typed, before it settles; with an empty query they show iff there is more than one page; a successful search load leaves one page, so they stay hidden |
| Documents.RenameOutcomeSpec | src/lib/documents.ts:76-92 | a blank title is refused with its message; success iff non-blank and no database error, storing the trimmed title with no whitespace at either end |
| Documents.SearchFallback | src/lib/documents.ts:112-114 | an all-whitespace query falls back to the full list; any other is searched as given |
| Documents.SortMapInjective | src/lib/documents.ts:139-145 | the four options map to four different sorts |
| Documents.PageRangeSpec | src/lib/documents.ts:152 | the range holds `pageSize` rows and consecutive pages adjoin |
| Documents.PageRows | src/lib/documents.ts:152 | a page is the window `[page*size, page*size + size)` of the result, cut at its end |
| Documents.TotalPagesSpec | src/lib/documents.ts:156-162 | the total is the count or 0; `totalPages` is its ceiling over the page size |
| DocumentEditor.CursorPositionSpec | src/components/DocumentEditor.tsx:18-27 | the line is the newlines before the cursor plus one; the column counts back to the last newline or the start |
| DocumentEditor.LinesShape | src/components/DocumentEditor.tsx:22-25 | a text has one more line than newlines, the last being what follows the last newline |
| DocumentEditor.LastLine | src/components/DocumentEditor.tsx:25 | the last part of a split is the tail after the last separator |
| DocumentEditor.EditorExamples | src/components/DocumentEditor.tsx:40-42 | the gutter shows at least one line, newlines plus one, and one for a missing content; a missing cursor is at (1, 0) |
| PresenceIndicator.Initials | src/components/PresenceIndicator.tsx:10-17 | at most two characters |
| PresenceIndicator.UpperAscii | src/components/PresenceIndicator.tsx:15 | each character upper-cased in place |
| PresenceIndicator.HeadsAreFirstLetters | src/components/PresenceIndicator.tsx:13-14 | joining the first letters skips empty words |
| PresenceIndicator.InitialsSpec | src/components/PresenceIndicator.tsx:10-17 | the initials are the upper-cased first letters of the first two non-empty words |
| PresenceIndicator.InitialsAroundEmptyWord | src/components/PresenceIndicator.tsx:12-14 | a double space between two words still gives both initials |
| PresenceIndicator.InitialsExamples | src/components/PresenceIndicator.tsx:10-17 | "ada  lovelace" gives "AL", "bob" gives "B", "" gives "" |
| PresenceIndicator.PresenceViewSpec | src/components/PresenceIndicator.tsx:19-57 | disconnected shows connecting; otherwise the first five collaborators as avatars, in order; a `+(n-5)` badge iff more than five; no count label for nobody, the singular label for one, the plural for more |
| Debounce.Debouncer.constructor | src/hooks/useDebouncedCallback.ts:9-11 | no timer pending |
| Debounce.Debouncer.Render | src/hooks/useDebouncedCallback.ts:10-11 | the function ref is replaced |
| Debounce.Debouncer.Call | src/hooks/useDebouncedCallback.ts:14-17 | the pending call is cancelled and rearmed with the new arguments |
| Debounce.Debouncer.TimerFires | src/hooks/useDebouncedCallback.ts:16 | the armed arguments go to the current function |
| Debounce.LastCallWins | src/hooks/useDebouncedCallback.ts:15-16 | after a burst only the last arguments are pending |
| Debounce.FireDeliversLatest | src/hooks/useDebouncedCallback.ts:11-16 | the firing calls the latest function with the last arguments |
| Debounce.NothingArmedNothingFires | src/hooks/useDebouncedCallback.ts:9-16 | with nothing armed nothing fires, and a call fires once |
| Throttle.Throttler.constructor | src/hooks/useThrottle.ts:9-11 | last run at 0 |
| Throttle.Throttler.Render | src/hooks/useThrottle.ts:10-11 | the function ref and limit are replaced |
| Throttle.Throttler.Call | src/hooks/useThrottle.ts:13-19 | the state and the run are the call step's: the current callback with the call's own arguments, or nothing |
| Throttle.CallSpec | src/hooks/useThrottle.ts:15-17 | runs iff `now - lastRun >= limit`, recording `now` and passing the call's arguments to the current callback unchanged; otherwise nothing changes; a single call's run time agrees with RunTimes |
| Throttle.FirstCall | src/hooks/useThrottle.ts:9-17 | the first call runs iff the clock is past the limit |
| Throttle.RunsAreSpaced | src/hooks/useThrottle.ts:15-17 | successive runs are at least the limit apart |
| Text.IndexOf | src/lib/execute-function.ts:60 | the least index where the pattern occurs, or -1 iff it occurs nowhere |
| Text.LastIndexOf | src/lib/execute-function.ts:68 | the greatest index where the pattern occurs, or -1 |
| Text.Split | src/lib/execute-function.ts:35 | at least one part |
| Text.JoinSplit | src/lib/execute-function.ts:35 | joining the split with the same separator gives the text back |
| Text.SplitJoin | src/lib/execute-function.ts:54 | splitting a join of separator-free parts gives the parts back |
| Text.SplitAtChar | src/lib/execute-function.ts:35 | the first part runs to the first separator, and the rest is split again |
| Text.SplitPartsAvoidChar | src/lib/execute-function.ts:35 | no part contains the separator |
| Text.SplitCount | src/components/DocumentEditor.tsx:41-42 | the number of parts is the number of separators plus one |
| Text.JoinAppend | src/lib/execute-function.ts:48-54 | joining two lists is joining each with one separator between |
| Text.ReplaceAllIsSplitJoin | src/lib/execute-function.ts:73 | `replaceAll` is split on the pattern joined with the replacement |
| Text.ReplaceAllSelf | src/lib/execute-function.ts:73 | replacing a pattern by itself changes nothing |
| Text.TrimStart | src/lib/documents.ts:80 | strips exactly the leading whitespace |
| Text.TrimEnd | src/lib/documents.ts:80 | strips exactly the trailing whitespace |
| Text.TrimEnds | src/lib/documents.ts:80 | a non-empty trimmed string starts and ends with non-whitespace |
| Text.TrimEmptyIff | src/lib/documents.ts:81 | trims to nothing iff every character is whitespace |
| Text.Slice | src/lib/versions.ts:90 | bounds clamped into the sequence; an empty or inverted range gives [] |
| Text.NatToString | src/components/VersionTimeline.tsx:26 | a non-empty string of decimal digits |
| Text.ParseNatToString | src/lib/versions.ts:135 | reading the printed number back gives the number |
| Text.NatToStringInjective | src/lib/versions.ts:135 | different numbers print differently, so restore labels name one version |

## Left out

- Browser and server I/O is not modelled: rendering, the server-side `window` guard, `console` output, scrolling and refs to elements. The JSON encoding of stored values is also left out; a value is either a parsed list or unparseable.
- The database, the language model and the `diffLines` library are not modelled. Their answers are inputs: query results, error pairs, model text and function calls; the line differ is a function parameter of the dialog's load.
- The system prompt texts are not modelled; only the line counts they embed are.
- `ilike` matching in the document search is left out. Only the blank-query fallback is modelled.
- `generateId`, `Date.now()` and ISO dates become parameters. Times are integers in milliseconds.
- `confirm` and `alert` become a boolean parameter and an outcome value.
- Timers become explicit events. This covers the 2000 ms autosave and typing timers, the interval, the debounce and the throttle clock. The React render and batching order is therefore chosen by the caller.
- `useDebounce` in the sidebar is the setter `SettleQuery`; the 300 ms delay between `SetSearchQuery` and it is the caller's choice of event order.
- `$` patterns in `replace` replacement strings are not modelled. An empty `old_string` is modelled with JavaScript's own meaning.
- `toUpperCase` is modelled for ASCII letters only.
- The storage quota error appears only as the `writeOk` flag and the message "QuotaExceededError".
- A thrown exception inside the executor is not modelled, because none of its branches throws. Neither is the route's 500 for a missing message list beyond its error text.
- Documents.Paginate: requires `pageSize > 0`. The source divides by the page size and is only called with 10.
- ChatRoute.HandleChat: takes `documentContent` as a string, so the request's missing or non-string content is not modelled.
- Collaboration.Session.PresenceSync: requires every presence key to hold at least one entry, as the realtime service guarantees.
- Collaboration.SortBySeen: stands in for `Array.prototype.sort` with a stable insertion sort. Join times are compared as numbers, not parsed from ISO strings.
- DocsSidebar.Sidebar.LoadDocuments: leaves out the transient `isLoading = true` and cleared error set before the request, because the answers are arguments; the model states only the state after the answer.
- Versions.VersionStore.SaveVersions: fixes the key enumeration order as insertion order, so a new key is stated to be enumerated last. The Web Storage standard leaves that order to the user agent, so this clause is a modelling choice, not a browser guarantee.
- Versions.VersionStore.CreateSnapshot: states that a new key is enumerated last, under the same insertion-order choice as SaveVersions.
- Versions.VersionStore.RestoreVersion: states that a new key is enumerated last, under the same insertion-order choice as SaveVersions.
- AutoSnapshot.Snapshotter.Tick: states that a new key is enumerated last, under the same insertion-order choice as SaveVersions.
- AutoSnapshot.Snapshotter.SaveNamedVersion: states that a new key is enumerated last, under the same insertion-order choice as SaveVersions.
- VersionTimeline.Timeline.HandleRestore: states that a new key is enumerated last, under the same insertion-order choice as SaveVersions.
- Versions.VersionStore.GetVersionContent: scans the keys in the model's insertion order. When two documents hold the same version id, a browser with another enumeration order could answer from the other one.
- VersionTimeline.Timeline.LoadVersions: leaves out the transient `isLoading = true` set before the request, because the request is not split into steps; the model states only the final `isLoading = false`. The caught error path is not modelled, since the local store read cannot fail.
- Diff.EmitLines: the inner loop of `computeDiff` is a separate method, and Diff.PushLine is its loop body. The statements are the same, but the loop is not inline.
- PresenceIndicator.UpperAscii: does not model Unicode case mapping.
- ExecuteFunction.Args: every argument is present and has its declared type, so a call whose arguments are missing, fractional or of another JSON type is not modelled (JavaScript would read `undefined`, or slice and index with a fractional or `NaN` number).
- Strings are sequences of Unicode code points, while JavaScript strings are sequences of UTF-16 code units. Lengths, `slice` and indices therefore differ on characters outside the Basic Multilingual Plane, for example the cursor column of the editor and the initials of a name that starts with an emoji.

## Findings

| source | as written | input that shows it | evidently intended | confidence | as-written member | corrected member |
|---|---|---|---|---|---|---|
| src/app/ai-editor/page.tsx:50 | after a push the index becomes `Math.min(prev + 1, 100)` while the history is capped at 100 entries | 100 entries at index 99, then `push("w")`: the history keeps 100 entries but the index is 100, so `current` is `undefined` | keep the index on the last entry, `Math.min(prev + 1, 99)` (the new length minus one) | not executed | UndoRedo.PushAsWrittenLeavesRange | UndoRedo.PushKeepsInBounds |

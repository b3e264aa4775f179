# AI web-novel assistant: book store, autopilot and corrector in Dafny

This project models the core of a desktop assistant for writing web novels.

**The book.** A book (a *project*) has a title, a global outline and a character roster. It holds an ordered list of volumes. Each volume holds an ordered list of chapters, and each chapter has a name, the author's synopsis (`synopsis`) and a machine-written synopsis (`ai_synopsis`). The prose of each chapter is a document stored under the pair (volume name, chapter name). Here that store is a map from the pair to the document's paragraphs.

**The language model is never modelled.** Each reply is an input:
- a stream of (reasoning, content) deltas for prose;
- a decoder from the received text to an optional record for structured answers.

A cancellation request is a `CancelFlag`. It answers "cancelled" from a chosen poll onwards, so every point at which the code checks `_is_cancelled` is one poll. A signal from a worker to the main window is a direct call of the window's handler.

The modules follow the program:

- `Text`: the parts of Python's `str` the code relies on:
  - `strip` with Python's whitespace set;
  - `split` on a separator, with its exact segments;
  - `join` and `in`.
- `DataManager`: `NovelProject` from `data_manager.py`, a class whose methods add, rename and delete volumes and chapters. Each method moves or drops the stored documents together with the entry it changes. Reading joins the paragraphs with newlines and saving splits on them.
- `Context`: the context assembly. It covers:
  - the chronologically previous chapter, searched backwards over empty volumes;
  - the last 1500 characters of that chapter;
  - the history of earlier chapters, in the four line styles the code uses (main window, autopilot, setting repair, book audit);
  - the fall-back to volume lines past 15000 characters.
- `Delimiter`: the `[AI_SUMMARY]` protocol:
  - the live state machine of `append_content`;
  - the split of a finished buffer into prose and summary.
- `UiComponents`: the most-recently-used project list and the trimming character card.
- `Window`: `MainWindow`, with the fields the handlers update. Its handlers:
  - start and finish a generation;
  - receive streamed text;
  - apply corrected text;
  - apply the autopilot's updates;
  - delete and rename items of the tree;
  - save the page on screen (`save_all`).
- `Workers`: the cancellation flag, the delta stream and `AIWorker`, which streams one chapter into the window.
- `Autopilot`: `AutoPilotWorker`, in three phases:
  - plan volumes;
  - plan chapters;
  - write every unwritten chapter.

  The module also holds the skip tests, the protective merges and the name-collision guards.
- `Corrector`: `CorrectionWorker`, which repairs one chapter or the whole book. It covers:
  - the setting repair and the typo repair;
  - the whole-book audit;
  - the fallbacks when a structured answer is missing;
  - Python's negative indices in audit results.

## Model

| member | source | states |
|---|---|---|
| Text.Strip | ui_components.py:172-175 | the result is empty exactly when the input is all whitespace, and otherwise starts and ends with a non-space |
| Text.StripIdempotent | ui_components.py:172-175 | stripping twice is stripping once |
| Text.StripIsSlice | main_window.py:673 | the stripped text is the slice of the input left between a white-space prefix and a white-space suffix; with `Strip`'s non-space ends this fixes its value |
| Text.FindFrom | main_window.py:968 | the result is the first occurrence of the pattern at or after the start, or none when there is none |
| Text.JoinSplit | data_manager.py:95-101 | joining the segments of a split with the separator gives back the original text |
| Text.SplitHeadHasNoSeparator | main_window.py:1003-1004 | the first segment of a split never contains the separator |
| Text.NatToString | ai_worker.py:698 | a number prints as a non-empty string of decimal digits |
| Text.NatToStringValue | ai_worker.py:698 | the digits denote the number, `int(str(n)) == n`, and a positive number has no leading zero |
| DataManager.RemoveAt | data_manager.py:79 | removing index i keeps every element before i and shifts every later one down by one |
| DataManager.MoveVolumeContent | data_manager.py:56-59 | after a volume folder moves, every document of the old name is found under the new name, none remains under the old, and every other volume's documents are untouched |
| DataManager.DropVolumeContent | data_manager.py:75-78 | exactly the documents of the removed volume disappear |
| DataManager.MoveChapterContent | data_manager.py:67-70 | the chapter's document, if any, moves to the new key, and no other key changes |
| DataManager.WithChapter | data_manager.py:46-50 | the volume gains exactly one chapter, at its end, and keeps its name, synopsis and earlier chapters |
| DataManager.Paragraphs | data_manager.py:101-102 | the paragraphs saved for a text join back, with newlines, to exactly that text |
| DataManager.ChapterText | data_manager.py:91-96 | an absent document reads as the empty text, and a present one as its paragraphs joined with newlines |
| DataManager.SavedTextReadsBack | data_manager.py:91-103 | reading a chapter right after saving a text to it gives that text back |
| DataManager.NovelProject.constructor | data_manager.py:8-17 | a new project has the given title, an empty outline, an empty roster, no volumes and no documents |
| DataManager.NovelProject.AddVolume | data_manager.py:30-35 | exactly one volume with the given name and synopsis and no chapters is appended, with no duplicate check, and no document changes |
| DataManager.NovelProject.AddChapter | data_manager.py:37-51 | only volume v changes, by one appended chapter with the given synopses, and an existing document under the new key is kept rather than overwritten |
| DataManager.NovelProject.RenameVolume | data_manager.py:53-61 | an unchanged name is a no-op; a folder move onto a folder that holds documents, or onto the empty name (the project's own folder), fails and changes nothing; otherwise only that volume's name changes and its documents move to the new name |
| DataManager.NovelProject.RenameChapter | data_manager.py:63-72 | an unchanged name is a no-op; otherwise only that chapter's name changes and its document moves to the new key |
| DataManager.NovelProject.DeleteVolume | data_manager.py:74-80 | exactly index v is removed, the others keep their order, and all documents of that volume go |
| DataManager.NovelProject.DeleteChapter | data_manager.py:82-89 | exactly chapter c of volume v is removed along with its document; nothing else changes |
| DataManager.NovelProject.ReadChapterContent | data_manager.py:91-96 | reading returns the stored text, and the empty text for an absent key |
| DataManager.NovelProject.SaveChapterContent | data_manager.py:98-103 | saving replaces only that chapter's document, leaves the meta alone, and reads back as the saved text |
| Context.HistoryCoversEarlierChapters | main_window.py:857-870 | the history lists exactly the chapters strictly before the target, and the volume headers up to the target's volume |
| Context.WindowDisplay | main_window.py:866-868 | a history line shows the non-blank AI synopsis, else the author's synopsis |
| Context.AuditDisplay | ai_worker.py:694-696 | a repair-context line shows the non-blank AI synopsis, else the non-blank author's synopsis, else a placeholder, and is never blank |
| Context.RenderAppend | main_window.py:857-870 | rendering two runs of entries one after the other is rendering their concatenation |
| Context.AssembleHistory | main_window.py:856-870 | the accumulating loop produces exactly the rendering of the history entries, headers and chapters in book order |
| Context.AssembleVolumeLines | main_window.py:873-876 | the fall-back loop produces exactly the volume lines for volumes 0..n-1 |
| Context.OpeningUnreachable | main_window.py:872-879 | the window history is the full history, or the volume-only fall-back when that exceeds 15000 characters; it always starts with a volume header, so the "opening" text is never produced |
| Context.LastNonEmptyBelow | main_window.py:841-846 | the result is the nearest earlier volume that has chapters, or none when all earlier volumes are empty |
| Context.PrevChapterIsLatestEarlier | main_window.py:838-846 | the previous chapter is none exactly when no chapter precedes the target, and otherwise is the latest chapter that precedes it |
| Context.FindPrevChapter | main_window.py:838-846 | the backward search finds exactly that previous chapter |
| Context.PreviousTail | main_window.py:852-853 | a text of at most 1500 characters is kept whole; a longer one becomes the elision marker followed by exactly its last 1500 characters |
| Delimiter.SplitReplyWithoutDelimiter | main_window.py:1003-1005 | without the delimiter the whole stripped buffer is prose and the summary is empty |
| Delimiter.ContentHasNoDelimiter | main_window.py:1003-1004 | the committed prose never contains the delimiter |
| Delimiter.SplitReplyAtFirstDelimiter | main_window.py:1003-1005 | the prose is the stripped text before the first delimiter, and the summary is the stripped first segment after it |
| Delimiter.SecondDelimiterEndsSummary | ai_worker.py:403-405 | with a second delimiter the summary ends there, and the text after it is dropped |
| Delimiter.Feed | main_window.py:964-986 | every delta grows the buffer by exactly itself, and the hit flag is set once the delimiter is anywhere in the buffer |
| Delimiter.FeedShowsStream | main_window.py:964-986 | for the chapter on screen, the editor holds the whole buffer until the delimiter arrives, then the stripped prose, and never the delimiter |
| Delimiter.FeedAllShowsStream | main_window.py:964-986 | the same holds after any number of deltas |
| Delimiter.FeedAllBuffer | main_window.py:966 | after any number of deltas the buffer is the old buffer followed by all of them |
| UiComponents.RemoveFirstAt | ui_components.py:79-80 | `remove` deletes the first occurrence of the path, and the rest keeps its order |
| UiComponents.MoveToFrontHead | ui_components.py:81 | after the update the path is at index 0 |
| UiComponents.MoveToFrontLength | ui_components.py:79-81 | an absent path is put in front of the old list unchanged; a present one leaves the length unchanged |
| UiComponents.MoveToFrontPermutes | ui_components.py:79-81 | the update rearranges the list, and adds the path once when it was absent |
| UiComponents.RemoveFirstDistinct | ui_components.py:79-80 | in a list without duplicates, removing the path leaves no copy of it |
| UiComponents.MoveToFrontDistinct | ui_components.py:79-81 | a list without duplicates stays without duplicates |
| UiComponents.WelcomeDialog.UpdateRecent | ui_components.py:77-82 | the stored list becomes the path followed by the old list without its first copy of the path |
| UiComponents.Trimmed | ui_components.py:170-176 | each of the four card fields is stripped |
| UiComponents.TrimmedIdempotent | ui_components.py:170-176 | trimming a trimmed card changes nothing |
| UiComponents.CharacterWidget.constructor | ui_components.py:164-168 | a card shows the given character's four fields, or four empty fields without one |
| UiComponents.CharacterWidget.GetData | ui_components.py:170-176 | the card's data are its four fields, each stripped |
| Window.WithChapterAt | main_window.py:1011-1012 | replacing one chapter changes that chapter only, and keeps the book's other fields, volumes and chapters |
| Window.WithVolumeSynopsis | main_window.py:1097-1100 | replacing a volume's synopsis changes nothing else |
| Window.WithChapterAtOutline | main_window.py:1011-1012 | a synopsis update keeps every volume's and chapter's name and the book's shape |
| Window.ReadPrevious | main_window.py:848-853 | the previous-chapter text read for the prompt is the tail of the latest earlier chapter, or empty |
| Window.AssembleWindowHistory | main_window.py:856-879 | the history block is the full history, or the volume-only fall-back past 15000 characters |
| Window.PromptFor | main_window.py:808-910 | the prompt holds the stripped history, the stripped previous text, and the chapter's own name and author's synopsis |
| Window.NoEarlierChapterNoPrevious | main_window.py:838-853 | with no earlier chapter the previous text is empty |
| Window.PreviousIsLatestEarlier | main_window.py:838-853 | otherwise it is the tail of the latest chapter before the target |
| Window.KeepFilled | main_window.py:674-678 | the roster never holds more cards than there are |
| Window.KeepFilledKeeps | main_window.py:674-678 | a card is kept exactly when one of its fields is non-empty, and no card is kept more often than it occurs |
| Window.KeepFilledAppend | main_window.py:674-678 | keeping the cards of two lists in turn is keeping those of each list, one after the other: order and repetitions are kept |
| Window.KeepFilledOne | main_window.py:676-678 | a single card is kept exactly when it is filled |
| Window.KeepFilledAll | main_window.py:674-678 | when every card has content, all are kept |
| Window.CollectCharacters | main_window.py:674-679 | the loop collects exactly the trimmed data of the non-empty cards, in order |
| Window.DeleteShiftsGenerationTarget | main_window.py:569-573 | as written, deleting an earlier chapter while a later one is generated is allowed and makes the stored target index name another chapter |
| Window.Retarget | main_window.py:564-611 | without a generation target the target stays unset |
| Window.RetargetFollowsChapter | main_window.py:564-611 | after an allowed deletion the adjusted target names the same chapter as before |
| Window.BlankRenameAsWritten | main_window.py:547-548 | as written, a whitespace-only name is accepted and renames the item to the empty name |
| Window.RenameAcceptedGivesName | main_window.py:547-553 | an accepted name is non-blank and differs from the old one, and acceptance is the written test plus non-blankness |
| Window.DeleteKeepsOtherChapters | main_window.py:600-603 | with distinct names, a deleted volume leaves no document, a deleted chapter's document is gone, and every chapter left in the book reads as before |
| Window.AfterRename | main_window.py:548-553 | only the name changes: the renamed item carries the new name; a renamed volume keeps its synopsis and chapters; a renamed chapter keeps both synopses, its volume and its siblings; every other volume is unchanged |
| Window.RenameKeepsChapterTexts | main_window.py:548-553 | with distinct names before and after, every chapter reads under its new name the text it had |
| Window.SavedMeta | main_window.py:672-712 | `save_all` keeps every name and the book's shape; on the chapter page the chapter's synopsis becomes the stripped editor text, and only the global page touches the outline or the roster |
| Window.CommitChapter | main_window.py:1007-1013 | the chapter's document becomes the prose, and the AI synopsis changes only to a non-empty summary |
| Window.MainWindow.constructor | main_window.py:17-30 | nothing is selected, generating, autopiloting or correcting, no target is set and all buffers are empty |
| Window.MainWindow.BuildPrompts | main_window.py:808-910 | the prompt built for the selected chapter is that chapter's prompt |
| Window.MainWindow.StartGeneration | main_window.py:912-943 | the page is saved first; the prompt is the chapter's prompt over the saved book and carries the synopsis in the editor; the selected chapter becomes the target, and buffers and views start empty |
| Window.MainWindow.AppendThinking | main_window.py:957-962 | reasoning always joins its buffer and is shown only when the target is on screen |
| Window.MainWindow.AppendContent | main_window.py:964-986 | one step of the delimiter state machine, with nothing else changing |
| Window.MainWindow.GenerationFinished | main_window.py:996-1022 | with a valid target, the prose before the first delimiter is stored and a non-empty summary becomes the AI synopsis; the editor shows the prose when the target is on screen; generation then stops and the target is reset; the outline never changes |
| Window.MainWindow.CommitReply | main_window.py:997-1017 | the reply's prose becomes the chapter text, a non-empty synopsis becomes its AI synopsis, the editor shows the prose exactly when that chapter is on screen, and no other window field and no outline changes |
| Window.MainWindow.AutoPilotFinished | main_window.py:1164-1170 | only autopilot mode ends |
| Window.MainWindow.StartCorrection | main_window.py:400-444 | a correction starts exactly when a key is set, a chapter is selected for a chapter-scope run, the user confirms and the page on screen can be saved; then the page is saved and only correcting mode and the cleared reasoning view change; otherwise nothing changes |
| Window.MainWindow.CorrectionFinished | main_window.py:466-478 | only correcting mode ends |
| Window.MainWindow.HandleError | main_window.py:988-994 | in autopilot mode only that mode ends; otherwise the generation is finished, committing any stale target, and correcting mode is left as it was |
| Window.MainWindow.ApplyCorrectedText | main_window.py:450-464 | the corrected prose replaces the chapter's document, the AI synopsis changes only to a non-empty summary, and the editor shows the prose when that chapter is on screen |
| Window.MainWindow.AutoUpdateVolume | main_window.py:1097-1104 | only that volume's synopsis changes |
| Window.MainWindow.AutoUpdateChapter | main_window.py:1106-1119 | only that chapter changes: the AI synopsis is set and a blank author's synopsis is filled |
| Window.MainWindow.AutoAddVolume | main_window.py:1121-1124 | one empty volume is appended |
| Window.MainWindow.AutoAddChapter | main_window.py:1126-1130 | one chapter whose two synopses are the AI synopsis is appended to volume v |
| Window.MainWindow.AutoStartChapter | main_window.py:1132-1148 | the target is set and its buffers are emptied; an existing chapter is selected and shown with empty views while a run is active |
| Window.MainWindow.AutoSaveContent | main_window.py:1150-1162 | the prose is stored, a non-empty summary becomes the AI synopsis, and the hit flag is cleared |
| Window.MainWindow.UiDeleteItem | main_window.py:588-611 | a deletion happens exactly when the item is not the root, not being generated, and confirmed; the item goes with its documents, the selection is cleared, and the stored target indices are left as they were |
| Window.MainWindow.UiRenameItem | main_window.py:538-553 | a rename happens exactly when the written test passes (accepted, non-empty, stripped form new) and, for a volume, its folder can move; the item then carries the stripped name and its folder or document moves with it; otherwise nothing changes |
| Window.MainWindow.SaveAll | main_window.py:684-712 | the page the selection shows is written: the global page, the volume's synopsis, or the chapter's synopsis and the editor's text as its document, which then reads back; a selection that names no item raises and nothing changes |
| Window.MainWindow.SaveGlobalMeta | main_window.py:672-680 | the outline is stored stripped and the roster becomes the non-empty cards' trimmed data |
| Window.AutoUpdated | main_window.py:1106-1115 | the AI synopsis is replaced, and the author's synopsis is kept unless it was blank |
| Window.AutoUpdatedNotBlank | main_window.py:1112-1113 | a non-blank update leaves a non-blank author's synopsis |
| Workers.CancelFlag.Check | ai_worker.py:41-42 | each poll counts once and answers "cancelled" from the chosen poll onwards |
| Workers.Reached | ai_worker.py:40-42 | a checked loop reads every delta unless the flag stops it first, and stops at the first cancelled poll |
| Workers.Pieces | ai_worker.py:47-49 | only non-empty content is forwarded |
| Workers.PiecesMakeReceived | ai_worker.py:395-397 | the forwarded pieces make up exactly the received content |
| Workers.ForwardEffect | ai_worker.py:43-49 | one delta feeds its content to the state machine and its reasoning to the reasoning buffer, and changes no target or mode |
| Workers.ForwardAllEffect | ai_worker.py:40-49 | the same for a whole run of deltas |
| Workers.Deliver | ai_worker.py:43-49 | delivering a delta calls the two handlers with exactly that effect |
| Workers.AIWorker.Stream | ai_worker.py:40-49 | the window receives exactly the deltas read before cancellation |
| Workers.AIWorker.Run | ai_worker.py:26-53 | when the stream ends or is stopped, the target chapter stores the prose of everything received |
| Autopilot.HasShortVolume | ai_worker.py:138-150 | a short volume synopsis is found exactly when one exists, and the planner skips exactly when there are at least 5 volumes and none is short |
| Autopilot.HasBlankChapter | ai_worker.py:215-227 | a blank chapter is found exactly when one exists, and a volume is skipped exactly when it has at least 4 chapters and none is blank |
| Autopilot.FirstIndex | ai_worker.py:185-192 | the match is the first volume with that name, or none |
| Autopilot.FindByName | ai_worker.py:185-192 | the loop finds exactly that first match |
| Autopilot.UpdateVolume | ai_worker.py:185-192 | only the first volume of that name changes, and only when the proposal is strictly longer |
| Autopilot.UpdateVolumesKeepsOutline | ai_worker.py:183-192 | the volume updates rename and move nothing, and every synopsis is kept or replaced by a strictly longer proposal |
| Autopilot.AddVolumesExtends | ai_worker.py:195-203 | new volumes are appended empty, with proposed names, never duplicating a name |
| Autopilot.UpdateChapter | ai_worker.py:272-279 | only the first chapter of that name changes, only when the proposal is strictly longer |
| Autopilot.UpdateChaptersKeepsAuthor | ai_worker.py:270-279 | chapter updates keep names and non-blank author's synopses, and the AI synopsis only grows to a proposal |
| Autopilot.AddChaptersExtends | ai_worker.py:281-290 | new chapters are appended with both synopses set to the proposal, never duplicating a name |
| Autopilot.PlannedVolumesKeepBook | ai_worker.py:180-203 | volume planning keeps every volume's name and chapters, never shortens a synopsis, adds only empty volumes, keeps names distinct, and without cancellation applies the whole plan |
| Autopilot.PlannedChaptersKeepVolume | ai_worker.py:268-290 | chapter planning only grows a volume, and without cancellation applies the whole plan |
| Autopilot.Directive | ai_worker.py:361-363 | the directive is the stripped author's synopsis, else the stripped AI synopsis, else the placeholder |
| Autopilot.NothingListedNoPrevious | ai_worker.py:313-332 | when the history loop lists no chapter there is no previous chapter, so the search inside the loop loses nothing |
| Autopilot.AutopilotContext | ai_worker.py:313-332 | the history loop produces the autopilot history and the previous chapter |
| Autopilot.AutopilotLines | ai_worker.py:318-332 | the inner loop appends exactly the lines of the listed chapters, and once it has run the previous chapter it holds is the one the target continues |
| Autopilot.ReadTail | ai_worker.py:334-343 | the previous text is the tail of the previous chapter, or empty |
| Autopilot.PhasesKeep | ai_worker.py:95-111 | both planning and writing keep every chapter the run started with |
| Autopilot.AutoPilotWorker.UpdateExistingVolumes | ai_worker.py:183-192 | the update loop applies exactly the proposals read before cancellation, and touches no document |
| Autopilot.AutoPilotWorker.AddNewVolumes | ai_worker.py:195-204 | the addition loop applies exactly the proposals read before cancellation |
| Autopilot.AutoPilotWorker.PlanVolumes | ai_worker.py:133-204 | an already-planned book is left alone without a request; a failed request changes nothing; otherwise the plan is merged as far as cancellation allows |
| Autopilot.AutoPilotWorker.UpdateOneChapter | ai_worker.py:272-279 | one proposal updates the volume's first chapter of that name |
| Autopilot.AutoPilotWorker.UpdateExistingChapters | ai_worker.py:270-279 | the loop applies exactly the proposals read before cancellation |
| Autopilot.AutoPilotWorker.AddNewChapters | ai_worker.py:281-292 | the loop applies exactly the proposals read before cancellation and keeps every existing document |
| Autopilot.AutoPilotWorker.PlanVolumeChapters | ai_worker.py:207-292 | a planned volume or a failed request changes nothing; otherwise that volume's plan is merged as far as cancellation allows |
| Autopilot.AutoPilotWorker.PlanChapters | ai_worker.py:206-292 | the phase only grows volumes, keeps every document and keeps the outline text |
| Autopilot.AutoPilotWorker.Compose | ai_worker.py:313-375 | the request for a chapter is its brief |
| Autopilot.AutoPilotWorker.StreamChapter | ai_worker.py:387-398 | the buffer is exactly the content read before cancellation, which the window also received |
| Autopilot.AutoPilotWorker.GenerateChapter | ai_worker.py:310-408 | a chapter stopped mid-stream saves nothing; otherwise its prose and summary are saved |
| Autopilot.AutoPilotWorker.SaveUnlessStopped | ai_worker.py:400-408 | the split reply is saved only when no cancellation arrived |
| Autopilot.AutoPilotWorker.GenerateAllContents | ai_worker.py:294-408 | writing keeps the outline and never changes a chapter that already had more than 100 characters |
| Autopilot.AutoPilotWorker.WriteIfUnwritten | ai_worker.py:302-305 | a written chapter is skipped and keeps its text |
| Autopilot.AutoPilotWorker.Run | ai_worker.py:95-118 | the run keeps every written chapter and every chapter of the book, and autopilot mode stays on exactly when it was abandoned between phases |
| Autopilot.AutoPilotWorker.VolumePhase | ai_worker.py:99-102 | the first phase keeps the book's chapters and touches no document |
| Corrector.UnstoppedReadsAll | ai_worker.py:477-478 | without cancellation the whole answer is read |
| Corrector.UnansweredKeepsText | ai_worker.py:491-499 | a cancelled or undecodable answer leaves both repairs' text and summary unchanged |
| Corrector.PyIndex | ai_worker.py:544-545 | an index resolves exactly when it lies in -n..n-1, and a negative one counts from the end |
| Corrector.Locate | ai_worker.py:541-545 | an issue names a chapter exactly when both indices are present and resolve, and the located chapter exists |
| Corrector.LocateOutline | ai_worker.py:539-554 | repairs do not move what an issue points to |
| Corrector.SummariesListEveryChapter | ai_worker.py:651-655 | the audit lists every chapter and every volume of the book |
| Corrector.ListBook | ai_worker.py:650-654 | the listing loop produces the whole-book listing in the audit format, and nothing for an empty book |
| Corrector.StoppedCorrectionKeepsChapter | ai_worker.py:515-522 | a correction that starts cancelled keeps the chapter's text and summary |
| Corrector.TypoCorrectionKeepsSummary | ai_worker.py:520-525 | the typo repair never changes the summary |
| Corrector.SilentSettingStep | ai_worker.py:629-641 | a setting repair without an answer keeps text and summary |
| Corrector.SilentTypoStep | ai_worker.py:589 | a typo repair without an answer keeps the text |
| Corrector.SilentCheckerKeepsChapter | ai_worker.py:501-525 | a checker that never answers leaves every chapter's text and summary as they were |
| Corrector.HeardTwice | ai_worker.py:482-484 | hearing two runs of reasoning is hearing them joined |
| Corrector.RewriteKeepsBlank | ai_worker.py:563-566 | rewriting a non-blank chapter keeps every blank chapter blank |
| Corrector.CorrectionWorker.constructor | ai_worker.py:419-432 | a new worker has the given scope and mode and no target |
| Corrector.CorrectionWorker.SetTarget | ai_worker.py:434-436 | the target becomes the given chapter |
| Corrector.CorrectionWorker.Listen | ai_worker.py:477-489 | the buffer is exactly the content read before cancellation, and only the reasoning reaches the window |
| Corrector.CorrectionWorker.CallLlmJson | ai_worker.py:464-499 | the result is the decoded answer, or the empty record when cancelled or undecodable; a well-formed answer leaves the book alone |
| Corrector.CorrectionWorker.DoTypo | ai_worker.py:568-589 | the repaired text is the corrected text of the answer, or the original |
| Corrector.CorrectionWorker.GetPastSummaries | ai_worker.py:682-699 | the loop lists the earlier chapters in the repair style; a negative volume index lists nothing |
| Corrector.CorrectionWorker.DoSetting | ai_worker.py:591-641 | the repair returns the answer's text and summary only when it reports an issue, else the originals |
| Corrector.CorrectionWorker.DetectConflicts | ai_worker.py:643-680 | the problems are those of the audit answer over the whole book's summaries |
| Corrector.CorrectionWorker.GuardedSetting | ai_worker.py:515-518 | the setting repair runs only when not cancelled |
| Corrector.CorrectionWorker.GuardedTypo | ai_worker.py:520-522 | the typo repair runs only when not cancelled |
| Corrector.CorrectionWorker.RunPasses | ai_worker.py:511-522 | mode "all" runs the setting repair, then the typo repair |
| Corrector.CorrectionWorker.CorrectSingleChapter | ai_worker.py:501-525 | a blank chapter is skipped untouched; otherwise the chapter ends with the text of the repair passes, and with no stale target nothing else changes |
| Corrector.CorrectionWorker.FixIssue | ai_worker.py:541-554 | an issue that names no chapter fails before any request; otherwise that chapter gets the setting repair's text |
| Corrector.CorrectionWorker.FixIssues | ai_worker.py:539-554 | the loop fixes issues in order until one names no chapter or cancellation stops it |
| Corrector.CorrectionWorker.FixNext | ai_worker.py:539-554 | one step of that loop |
| Corrector.CorrectionWorker.ProofreadChapter | ai_worker.py:562-566 | a blank chapter is skipped; otherwise only its text changes, to the typo repair |
| Corrector.CorrectionWorker.ProofreadStep | ai_worker.py:559-566 | one step keeps the meta and every blank chapter |
| Corrector.CorrectionWorker.ProofreadVolume | ai_worker.py:559-566 | one volume's proofreading keeps the meta and every blank chapter |
| Corrector.CorrectionWorker.ProofreadBook | ai_worker.py:556-566 | proofreading changes no synopsis and never fills a blank chapter |
| Corrector.CorrectionWorker.CorrectFullBook | ai_worker.py:527-566 | only the audit can fail, and a typo-only run changes no synopsis and no blank chapter |
| Corrector.CorrectionWorker.Run | ai_worker.py:446-462 | correcting mode ends unless the run ends in an error; the outline never changes; a chapter-scope run leaves the target with its repaired text |

## Left out

- Files, `.docx` documents, JSON files on disk and `QSettings` are replaced by the in-memory map and lists. `save_meta` and `load_meta` are therefore not modelled.
- Qt widgets and styling are not modelled: the tree, the dialogs, the buttons, `update_ui_state`, the status bar and the log sidebar. Only the text of the content and reasoning views is kept.
- Threads are replaced by direct calls. The autopilot's blocking signals behave exactly like direct calls. The corrector's signals are queued, and the model assumes each update is handled before the worker's next read.
- The OpenAI client, prompt wording, the character roster's text, temperature and max tokens are not modelled. A reply is an input: a delta sequence, or a text with a decoder to a record. A record holds `has_issue`, `corrected_text`, `new_ai_summary` and `problematic_chapters`. A non-object answer and fields of the wrong type are not modelled. In the source `has_issue` is read by truthiness (ai_worker.py:631), so a non-empty string such as "false" counts as an issue; the model's record holds a boolean.
- Transport errors are not modelled: every request to the model is assumed to return, and a stop is seen only where the code checks `_is_cancelled`. This holds for `AIWorker.run`, for the autopilot's planning and writing requests (ai_worker.py:377-398) and for the corrector's requests. A failed planning request is the planner returning no plan, which leads to `handle_error`.
- `cancel()` of the autopilot and of the corrector also closes the client (ai_worker.py:86-93, 438-444) so that a request in flight breaks off by raising. That exception is not modelled. In the autopilot it reaches `handle_error` through `error_signal`, which ends autopilot mode. The request that raised has not changed the book yet, so the autopilot's contracts about the book still hold, but the mode then ends as `handle_error` ends it, not as `Autopilot.AutoPilotWorker.Run` states.
- `export_book` and its four exporters, `on_tree_select`, `return_to_home` and `main.py` are not part of this model. The exporters write files, and `return_to_home` closes the window after `save_all`, which `Window.MainWindow.SaveAll` models. `on_tree_select` enters only through `Window.MainWindow.AutoStartChapter`.
- `Window.MainWindow.SaveAll` derives the page on screen from the selection: the global page when no volume is selected, the volume page when only a volume is, the chapter page otherwise. Every handler that switches the page sets the selection to match. The editors' text is a parameter, because typing in them is not modelled.
- `Window.MainWindow.AutoStartChapter` does not model the `save_all` that `on_tree_select` runs first (main_window.py:615). That call writes the chapter-page editors into the previously selected chapter: its synopsis, and the editor's text as its document. After an autopilot chapter whose reply had no delimiter, that text is the unstripped buffer. The autopilot's contracts therefore hold only when that write leaves the chapter as it was.
- `DataManager.NovelProject.RenameVolume` and `DataManager.NovelProject.RenameChapter` follow POSIX `os.rename`. A chapter renamed onto an existing document replaces it. A volume renamed onto an existing empty folder succeeds; the model treats a folder as existing only while it holds a document. On Windows both renames raise instead.
- `toggle_auto_pilot` (main_window.py:1029-1096) is modelled only through its effect: `Autopilot.AutoPilotWorker.Run` requires autopilot mode on. The missing-key branch and the cancel branch are covered by the cancellation flag. Its `save_all` before the run (main_window.py:1050) is not modelled, so the run starts from the book as it stands.
- `Window.MainWindow.StartGeneration` requires a selected chapter and no running generation. The button lives on the chapter page, the stop branch is the cancellation flag, and the missing-key branch only opens the settings dialog.
- `Window.MainWindow.ApplyCorrectedText` receives resolved indices. The source compares the raw indices from the audit with the selection to decide whether to refresh the editor (main_window.py:461). A negative index can therefore refresh it: with nothing selected both selection indices are -1, and an issue at (-1, -1) matches. The model compares the resolved indices.
- `Corrector.CorrectionWorker.CallLlmJson` promises an unchanged book only for a well-formed answer. A malformed answer raises `handle_error` in the middle of the correction, which runs `generation_finished`.
- `Corrector.CorrectionWorker.CorrectSingleChapter` assumes that no request raises. In mode "all", a stop during the typo request closes the client, the request can raise, and the run then ends with no `update_text_signal`: the chapter keeps its old text, where the model applies the setting repair's text.
- `Corrector.CorrectionWorker.CorrectSingleChapter` states the exact new book only when no generation target is stored. `auto_start_chapter` sets the target and nothing resets it after an autopilot run. `handle_error` during a correction then re-commits that stale buffer.
- `Corrector.CorrectionWorker.FixIssue` states the exact new book only when no generation target is stored, for the same reason.
- `Corrector.CorrectionWorker.ProofreadChapter` states the exact new book only when no generation target is stored, for the same reason.
- `Corrector.CorrectionWorker.ProofreadBook` keeps meta and blank chapters only when no generation target is stored, for the same reason.
- `Corrector.CorrectionWorker.CorrectFullBook` states its book-level guarantees only for a typo-only run with no stored generation target. A setting run's per-chapter effect is what `FixIssue` states.
- `Corrector.CorrectionWorker.FixIssues` states which issues were reached, not each chapter's new text; that is `FixIssue`'s contract.
- `Corrector.CorrectionWorker.Run` in book scope states only that the outline is kept and how the mode ends.
- `Corrector.CorrectionWorker.Run` assumes that no request raises. In the source a raising request leaves `run` through its `except` (ai_worker.py:457-462) in any scope and mode. Without a stop, `error_signal` runs `handle_error`, which leaves correcting mode on, so a chapter-scope run can end still correcting. After a stop, whose `cancel()` closed the client, `finished_signal` ends the run with nothing more applied. The model's Run excludes both: it ends in an error only for a book-scope audit, and a chapter-scope run always leaves the target with its repaired text.
- `Autopilot.AutoPilotWorker.PlanChapters` states growth, not the exact merge of each volume, because each volume's planning reads the book as earlier volumes left it. The exact merge is `PlanVolumeChapters`.
- `Autopilot.AutoPilotWorker.GenerateAllContents` states which chapters are kept, not the new text of each written one; that is `GenerateChapter`.
- `Autopilot.AutoPilotWorker.Run` states what the run keeps, not the planned content.
- `Workers.AIWorker.Run` states the committed prose, not the synopsis update; that is `Window.MainWindow.GenerationFinished`.
- `Window.MainWindow.HandleError` states the exact new state only in autopilot mode or without a generation target. Otherwise it states what `generation_finished` guarantees.

Where the code and the system's stated design differ, the model follows the code:
- A cancelled single-chapter generation commits its partial buffer. `AIWorker.run` emits `finished` after a break, and `generation_finished` saves the buffer.
- An autopilot run cancelled between phases returns without its finished signal, so autopilot mode stays on (`RunEnd.Abandoned`).
- A corrector error leaves correcting mode on, because `handle_error` has no correction branch.
- A malformed structured answer raises the error dialog and handler rather than only logging.

## Findings

| source | as written | input that shows it | evidently intended | confidence | as-written member | corrected member |
|---|---|---|---|---|---|---|
| main_window.py:569-611 | the delete guard refuses only the item being generated, and the stored target indices are not adjusted after a deletion | a volume with chapters A, B, C; chapter B (0, 1) is being generated; delete A: the target (0, 1) now names C, and `generation_finished` writes B's text into C | keep the target on the chapter being generated when an earlier sibling or volume is deleted | not executed | Window.DeleteShiftsGenerationTarget | Window.RetargetFollowsChapter |
| main_window.py:547-548 | `ok and new_name and new_name.strip() != old_name` accepts a whitespace-only name | rename chapter "第一章" to " ": the test passes and the chapter is renamed to the empty name | refuse a name that is blank after stripping | not executed | Window.BlankRenameAsWritten | Window.RenameAcceptedGivesName |

# CozySSH: a verified model of its stateful core

CozySSH is a terminal and SSH client in a browser with a Go backend. This project models the parts of
the backend that keep state or encode it, in Dafny, and proves what they are for. `dafny verify
dfyconfig.toml` checks everything.

Code that updates things in place is modelled by classes and methods with loops (`Device`, `Server`,
`Config`, `VarsStore`, `Pad`, `Session`, `SessionManager`, `Filter`, `Store`, and the line editors);
their contracts tie the new state to functions, and the lemmas are about those functions. Protocols are
state machines, and the lemmas about them are for all runs.

**Replication** (`Replication`, `Convergence`, `Interleaving`, `CrashSafety`, `SyncRun`, `SyncLimits`,
`ReloadRace`, `VarsMerge`, `VarsSync`, `VarsConvergence`, `VarsEdits`, `FileNames`). Devices reconcile
buttons, scratchpad pages and variables through a WebDAV folder. `SyncRun` holds the code of `performSync` and `DetectChanges` and proves that it
computes the functions of `Replication` and `VarsSync`, in every order of map iteration. `Convergence`
is about complete runs of any number of devices. `Interleaving` is about single requests of several
devices in any order, with crashes, stale listings, refused PUTs and edits in between; `CrashSafety`
connects the two, and `SyncLimits`, `ReloadRace` and `VarsEdits` say exactly what a refused PUT or an edit
during a run changes. `VarsConvergence` is about the variables of any number of devices. The folder
is keyed by what `listRemoteFiles` parses out of a name; `FileNames` proves that the names the program
writes and parsed forms correspond one to one, and exactly which names are read. A function from key and timestamp to state expresses that equal key and
timestamp mean equal state.

**Button list and scratchpad** (`ButtonOrder`, `ButtonList`, `Scratchpad`, `Deletions`, `LocalStore`). The
ordered list with its four mutators, and the pages; both ways of renumbering after a move show the same
sequence. `LocalStore` proves that a batch of the synchronisation changes both lists, and the recorded
deletion times, as the runs of the replication modules assume.

**ssh_config editing** (`HostBlocks`, `ConfigLines`, `HostSplice`, `HostText`, `HostRoundTrip`,
`HostSave`, `HostSettings`, `HostFile`, `HostValues`, `HostScan`). Finding, replacing, appending and deleting host blocks in a list of
lines: the frame of every other block, and the round trip from a host's settings to the file and
back.

**Sessions** (`SessionSteps`, `ManagerSteps`, `Sessions`). The read loop, the bounded history and the
listener channels, and the session manager, as state machines with one step per mutex-protected region;
and the objects with their methods.

**Marker filter** (`MarkerFilter`), **password store** (`Padding`, `Vault`, `PassStore`, `AppPassword`),
**known hosts** (`KnownHosts`), **`encode64`** (`Encode64`).

The code and its documentation disagree, or the code falls short of what one expects of it, in these
places. The code is modelled as it is and the exact condition is proved, or, where the text says so, a
sufficient one:

- The variables upload can be deleted by the run that made it: `VarsSync.UploadSurvives`,
  `VarsSync.SecondRunQuiet`. Devices agree after two rounds without such an upload, which suffices:
  `VarsConvergence.Convergence`; with such uploads they can go round for ever:
  `VarsConvergence.NeverConverges`.
- Of several variables files only the newest is read, all others are deleted: `VarsConvergence.OthersLost`.
  All are deleted when the newest one could not be fetched, decrypted or decoded: `VarsSync.UnreadWinner`.
- A variable updated while a run is under way may be set back, or be published with its old value under
  the new time: `VarsEdits.UpdateAfterCopies`, `VarsEdits.UpdateBetweenCopies`.
- A PUT that the server refuses loses the key's older files: `SyncLimits.RefusedPut`,
  `SyncLimits.LostExactly`. An edit or a deletion during a run may be overwritten, also one of a page that
  the run does not pull: `SyncLimits.EditDuringRun`, `SyncLimits.DeletionDuringRun`,
  `ReloadRace.ReloadLoses`.
- The dry run announces nothing for a folder that it takes for a new one, whatever the device holds,
  counts deletions that a run forgets, and counts pulled deletions of items that are not there:
  `SyncRun.DetectThenSync`.
- A move with direction 0 keeps the button in its place, swaps it with a button of the same order directly
  before it, or brings it to the front: `ButtonList.ZeroMove`, `ButtonList.ZeroSwaps`.
- A button with order 0 that a device does not have yet gets another order there, under the same time:
  `ButtonList.ForcedOrder`.
- A session may be taken off the manager, while its process goes on, on behalf of an older one with the
  same id: `ManagerSteps.LostExactly`, `ManagerSteps.ReconnectLoses`. A disconnect timer may go on without
  an entry in the map of timers: `ManagerSteps.StrayExactly`, `ManagerSteps.StrayTimer`.
- A Match section goes with the host it follows: `HostSplice.LinesGone`, `HostSplice.MatchGoes`.
- Line breaks after the marker are only dropped as far as the read that completed it had them:
  `MarkerFilter.WholeRunDropped`.
- The reset command never re-encrypts the saved passwords under a password that is really new, and an
  empty password file that it leaves behind cannot be unlocked any more: `AppPassword.ResetAppPassword`,
  `AppPassword.AfterReset`. A change of the app password whose configuration cannot be written leaves the
  store without a working password exactly if a data key was protected anew by a different one, until
  the configuration is written later and the server starts again: `AppPassword.UnsavedChange`,
  `AppPassword.SavedLater`.
- A comment with a blank line, saved to ssh_config, is cut off from its host, and a line of `#words` comes
  back as tags: `HostSave.SavedExactly`, `HostValues.CommentThroughFile`, `HostValues.TagsThroughFile`.
- A new button that brings an order of its own does not raise the running maximum of a batch:
  `ButtonList.CoversStep`.
- Hashed or marked known_hosts lines are imported again each time, unless a plain line covers them:
  `KnownHosts.ImportAgain`.

## Model

| member | source | states |
|---|---|---|
| Replication.SyncedFiles | datasync/datasync.go:519-735 | After a run the folder holds exactly the uploaded files and the kept winners; uploads are new names with the device's content, winners keep theirs |
| Replication.AppliedTS | datasync/datasync.go:949-966 | Applying the downloads leaves each key with the greater of the device's and the folder's timestamp |
| Replication.SyncedKey | datasync/datasync.go:497-630 | After a run a key known anywhere has exactly one file, with the greater timestamp and not expired; an unknown key has none |
| Replication.CleanedTwice | datasync/datasync.go:205-240 | Cleaning the tombstones is idempotent and leaves none for a live item |
| Replication.AgeLimit | datasync/datasync.go:205-240 | Recorded deletions survive exactly if their item is not there again and they are at most 2592000000 ms old; a deletion file is expired exactly if it is older |
| Replication.RunOfKey | datasync/datasync.go:491-966 | A run seen from one key, text included: what is newer here becomes the only file, with the item's text or an empty object, and nothing changes here; what is newer there stays the only file and the item is taken over whole, or goes and leaves its time |
| Replication.Settled | datasync/datasync.go:406-735 | Right after a run device and folder agree on every key's timestamp and no key has a second file |
| Replication.Quiescent | datasync/datasync.go:491-735 | A second run at once issues no PUT and no DELETE and changes nothing on the device |
| Convergence.StepKey | datasync/datasync.go:480-735 | One run seen from one key: folder and device end with the greatest timestamp, other devices are unaffected |
| Convergence.FirstRound | datasync/datasync.go:480-735 | Once every device has run, in any order, the folder has the newest copy |
| Convergence.SecondRound | datasync/datasync.go:480-735 | With the newest copy in the folder every device that runs gets it and one file is left |
| Convergence.NewestExists | datasync/datasync.go:480-517 | Every key has a newest copy or none |
| Convergence.Convergence | datasync/datasync.go:406-966 | Any number of devices: after every device ran once and then every device again, in any order, all devices and the folder hold for each key the copy with the greatest timestamp at the start |
| Interleaving.StepInv | datasync/datasync.go:419-966 | Every single step of any device keeps the invariant that what a device will delete is superseded by a file in the folder or expired, unless a PUT for its key was refused: requests, also on a listing that is out of date, writes to the local stores, reading the pages back and putting them in place, crashes, starts and edits |
| Interleaving.RunInv | datasync/datasync.go:419-966 | The invariant holds in every run of single steps |
| Interleaving.NeverLost | datasync/datasync.go:419-966 | Under any interleaving, stale listings, crashes and edits: a file once in the folder is at every later moment matched by one at least as new, unless that was an expired deletion marker or the server refused a PUT for the key |
| CrashSafety.SoloUnderway | datasync/datasync.go:519-966 | After any prefix of a run's operations, refused PUTs among them, folder and device are what the treated keys, the refused keys, the local stores written and the deleted files determine |
| CrashSafety.CompleteRun | datasync/datasync.go:406-966 | A run to the end, in whatever order of keys and deletions, does exactly what the functions of `Replication` say, with the refused uploads missing from the folder |
| CrashSafety.StoppedNewest | datasync/datasync.go:519-966 | A run stopped after any of its operations, on a folder with or without expired deletion markers, loses no newest unexpired copy |
| CrashSafety.ResumeAfterStop | datasync/datasync.go:406-966 | A run after a stopped one, also one with refused uploads, ends in the same folder and device state as one run that was neither stopped nor refused, whatever expired deletions folder and device hold, if none expires between the two runs |
| CrashSafety.RestartSame | scratchpad/scratchpad.go:40-65 | After any prefix of an undisturbed run the file of the pages has what is in memory, so a crash and a start change nothing in the store |
| SyncLimits.RefusedPut | datasync/datasync.go:535-539 | The status of a PUT is not looked at: after a whole run an uploaded key is without any file exactly when its PUT was refused, and the device still holds its copy |
| SyncLimits.LostExactly | datasync/datasync.go:535-539 | A file listed at the start is matched by one at least as new at the end of the run exactly if no PUT for its key was refused |
| SyncLimits.EditDuringRun | datasync/datasync.go:519-966 | An edit made at any moment of a run, other devices acting and other items being edited too, is there when the run has written its downloads exactly if the run was not going to pull that key, or pulled the same copy, and it was not an edit of a page between reading the pages back and putting them in place, or what was read is the same copy |
| SyncLimits.DeletionDuringRun | datasync/datasync.go:519-966 | A deletion made at any moment of a run stays recorded, and is undone exactly if the run pulls a live copy of that key, or it is of a page that was read back and not yet put in place |
| ReloadRace.ReloadLoses | scratchpad/scratchpad.go:240-262 | A page that the run does not pull, edited between reading back and putting in place, is the old one again in memory, while its file has the edit |
| ReloadRace.RaceReached | datasync/datasync.go:956-959 | A run from a system at rest comes to the point where that can happen |
| SyncRun.Classify | datasync/datasync.go:433-478 | Every listed file goes to its key's group, to the variables or, when it is a deletion marker by its name and too old, on the delete list, and nothing else does |
| SyncRun.ScanKey | datasync/datasync.go:509-521 | The scan picks the first file with the greatest timestamp and lists each file of the key for deletion |
| SyncRun.FirstNewest | datasync/datasync.go:509-517 | Of several files of a key with the greatest timestamp the one listed first wins |
| SyncRun.RemoveFromSlice | datasync/datasync.go:976-985 | Exactly the given name is taken off |
| SyncRun.Device.CleanDeletedMaps | datasync/datasync.go:205-240 | The deletion maps become the cleaned ones |
| SyncRun.Device.SyncKey | datasync/datasync.go:491-630 | One key: the PUT, the recorded tombstone, the queued change and the delete list are those its timestamps call for |
| SyncRun.Device.SyncKeys | datasync/datasync.go:491-735 | All keys of a kind, in any order, keep the progress invariant |
| SyncRun.Device.ApplyChanges | datasync/datasync.go:949-958 | The queued changes applied one by one are the change of all keys |
| SyncRun.FoldIsChangeAll | datasync/datasync.go:949-958 | Applying distinct changes in sequence equals applying them at once |
| SyncRun.Device.SyncVars | datasync/datasync.go:738-947 | Download, which may fail, merge, local write, upload and delete list of the variables |
| SyncRun.Device.PerformSync | datasync/datasync.go:406-966 | A run computes `Synced`, `Applied`, the merged variables and `SyncedVars`, whether or not the newest variables file can be read; its request log is PUTs followed by DELETEs of exactly the delete list |
| SyncRun.DetectKey | datasync/datasync.go:1690-1728 | The dry run classifies one key as the real one does |
| SyncRun.DetectChanges | datasync/datasync.go:1586-1954 | The dry run counts nothing when nothing is listed, and otherwise returns the counts that the same state calls for, in any order of iteration, expired deletions on the device included |
| SyncRun.DetectThenSync | datasync/datasync.go:1586-1954 | On any device and folder its four counts equal the PUTs, local updates, pulled deletions and DELETEs of a real run exactly if the folder is taken for a new one and the device has nothing a run keeps, or it is not and no expired deletion is recorded that is at least as new as the folder; the items removed from the device are as many as the pulled deletions exactly if all of those are of items that are there |
| SyncRun.ExpectedUncleaned | datasync/datasync.go:1620-1954 | Cleaning the recorded deletions first changes the numbers exactly if an expired one is at least as new as what the folder has |
| SyncRun.ExpectedEmpty | datasync/datasync.go:1586-1590 | On an empty folder a run has nothing to do exactly when the device holds no item, no deletion and no variable |
| SyncRun.BrandNewExample | datasync/datasync.go:1586-1590 | One item and an empty folder: a run uploads it, while nothing is announced |
| VarsMerge.MergeIdempotent | datasync/datasync.go:804-832 | Merging a document with itself gives it back |
| VarsMerge.MergeCommutative | datasync/datasync.go:804-832 | The merge of documents that agree on equal times does not depend on the side |
| VarsMerge.MergeSides | datasync/datasync.go:816-832 | Without that agreement it does |
| VarsMerge.MergeAssociative | datasync/datasync.go:804-832 | The merge is associative |
| VarsMerge.MergeTimed | datasync/datasync.go:804-843 | Every merged value has a time, also after the stale deletions are dropped |
| VarsMerge.MergedEntry | datasync/datasync.go:804-843 | For every name: the greater time with its value, the local side on equal times, nothing for a deletion more than 2592000000 ms old |
| VarsMerge.MergeDocs | datasync/datasync.go:804-843 | The loops of the program compute the join of the two documents without the stale deletions |
| VarsMerge.Differs | datasync/datasync.go:845-896 | Comparing sizes and looking up one side is true exactly when the maps differ |
| VarsMerge.VarsStore.SetVars | config/config.go:321-328 | Both maps are replaced |
| VarsMerge.VarsStore.UpdateVars | config/config.go:682-718 | Every update gets the current time, removals keep a time without a value; every other variable keeps its value and its time, and only the note of a deletion more than 2592000000 ms old goes |
| VarsMerge.UpdateExactly | config/config.go:682-718 | The same of the function that the method computes, name by name |
| VarsMerge.UpdateWins | config/config.go:682-718 | An update wins the next merge with anything older, on either side |
| VarsSync.UploadSurvives | datasync/datasync.go:898-966 | The uploaded merge is in the folder after the run exactly when its name was not listed |
| VarsSync.FolderAfter | datasync/datasync.go:845-966 | What a run leaves of the variables files: the file it read if that is the merge, else the upload, named by the greatest time in it or by the clock, or nothing when that name was listed |
| VarsSync.ClashExample | datasync/datasync.go:898-939 | Two concrete documents for which it is deleted |
| VarsSync.UnreadWinner | datasync/datasync.go:755-947 | A newest file that was not loaded is deleted with all others; its newer entries are in the merge exactly when it was loaded or had none |
| VarsSync.SecondRunQuiet | datasync/datasync.go:738-966 | A second run is quiet for variables exactly when the first one did not delete its own upload |
| VarsSync.ThirdRunQuiet | datasync/datasync.go:738-966 | A third run is quiet in every case |
| VarsConvergence.Convergence | datasync/datasync.go:738-966 | Any number of devices and any variables files, after any runs: once every device ran and then every device again, in any order and without an upload under a listed name in these two rounds, all devices and the folder hold for each variable the entry that was the newest at the start on a device or in the file that the very first run read |
| VarsConvergence.OthersLost | datasync/datasync.go:749-793 | An entry in a file that a run does not read is matched in the folder afterwards exactly if the device or the file that is read had one at least as new |
| VarsEdits.UpdateAfterCopies | datasync/datasync.go:739-877 | An update after a run copied values and times is still there in the end exactly if the run had nothing to change |
| VarsEdits.UpdateBetweenCopies | datasync/datasync.go:739-877 | An update between the two copies: the run publishes the old value under the new time, and the device keeps the update exactly if the run had nothing to change or the values are equal |
| VarsEdits.NothingToChange | datasync/datasync.go:804-877 | A run has nothing to change exactly if the file has no news, every value has a time and no deletion is stale |
| VarsConvergence.NeverConverges | datasync/datasync.go:898-939 | With such uploads two devices return to the same disagreeing state after every round, however many |
| FileNames.ParseOfPrint | datasync/datasync.go:298-401 | Parsing the printed name of any kind, id, timestamp and deletion flag gives them back, whatever the id contains |
| FileNames.PrintInjective | datasync/datasync.go:534-703 | Equal names have equal parts |
| FileNames.ItemNameInjective | datasync/datasync.go:534-703 | Two files of the model have equal names exactly when they are equal |
| FileNames.NoOverlap | datasync/datasync.go:325-349 | Prefix and extension never overlap, so the slice between them is in range |
| FileNames.SpelledIsRead | datasync/datasync.go:305-397 | Every name made of a known prefix, `vars_` among them, an id, a number, the mark of a deletion or none, and the extension for the kind of folder is read as what it spells |
| FileNames.ReadIsSpelled | datasync/datasync.go:305-397 | No other name is read |
| FileNames.OldVarsExample | datasync/datasync.go:333-335 | A file name of an older version is read as the variables |
| FileNames.BaseOfPath | datasync/datasync.go:298 | The name is what stands behind the last slash of the path, slashes at the end aside |
| FileNames.ListRemoteFiles | datasync/datasync.go:272-404 | The listing loop returns the parsed forms of the hrefs it does not skip |
| FileNames.ListingExactly | datasync/datasync.go:272-404 | The listing has, in order, the file of every path whose name is in that form and not the flag file, and nothing else |
| FileNames.FlagExactly | datasync/datasync.go:298-303 | The flag is set exactly if some path has the name of the flag file |
| FileNames.ListingReadsBack | datasync/datasync.go:272-404 | Listing a folder of printed slash-free names of every kind gives their parts back, in order, and finds the flag file exactly if it is there |
| ButtonOrder.SortSlice | config/config.go:660-667 | Sorting gives an ordered permutation |
| ButtonOrder.BeforeIff | config/config.go:660-667 | The order of the list: by the order, then by the names, which are compared at the first character in which they differ |
| ButtonOrder.SortIsUnique | config/config.go:660-667 | A list in strict order is the only sorted permutation of itself |
| ButtonOrder.RepositionMeaning | config/config.go:585-613 | A move leaves the other elements in order and ends directly after or before the target |
| ButtonOrder.TargetPlace | config/config.go:560-582 | The target is the member of the group as many places further as the direction says; there is none exactly if the group has no such place |
| ButtonOrder.MoveBack | config/config.go:544-658 | A step and the opposite step restore the sequence of the group |
| ButtonList.MovedStrict | config/config.go:615-632 | With its new order the moved button fits between its neighbours: the list is in strict order unless two orders are equal |
| ButtonList.MoveMeaning | config/config.go:615-650 | Both ways of renumbering show the sorted list with the button next to its target, in strict order |
| ButtonList.MoveChanges | config/config.go:615-650 | What a move changes in the buttons: the moved one gets the order next to that of its target and the current time, every other one stays as it was in all fields; exactly if two orders would be equal, all get the orders 10, 20, and so on, and the current time, and keep all other fields |
| ButtonList.ZeroLands | config/config.go:581-650 | Direction 0, for every sorted list: the button passes one of the same order directly before it or stays, if the other orders are distinct and the order below is free; otherwise it goes to the front |
| ButtonList.ZeroMove | config/config.go:581-650 | Exactly when such a move changes nothing in the sequence, and exactly when it brings the button to the front |
| ButtonList.ZeroSwaps | config/config.go:581-650 | Orders 10, 20, 20: the last button is swapped with the second |
| ButtonList.MoveAndBack | config/config.go:544-658 | Two opposite calls, each with its own renumbering, restore the group's sequence |
| ButtonList.NewestWins | config/config.go:392-465 | Without force and deletions every id ends with the greatest of the stored and offered times, and ids stay distinct |
| ButtonList.ForcedUpsert | config/config.go:392-465 | With force every button that has an order replaces, and every deletion entry deletes, exactly what it names |
| ButtonList.ForcedOrder | config/config.go:440-455 | A forced button is stored as it is exactly if it has an order or its id is known |
| ButtonList.OfferExactly | config/config.go:392-465 | Without force: an older button changes nothing, any other one is stored under its id as it is, a new one without an order gets one |
| ButtonList.DeleteExactly | config/config.go:392-465 | A deletion entry removes exactly the button it names, unless that one is newer and there is no force, and reports it |
| ButtonList.MaxOrderIs | config/config.go:392-398 | The maximum at the start is an upper bound of the orders, and one of them unless all are negative |
| ButtonList.CoversStep | config/config.go:440-455 | The running maximum stays an upper bound exactly until a new button brings a greater order of its own |
| ButtonList.NewComesLast | config/config.go:440-455 | Until then a new button without an order comes after all others |
| ButtonList.FilledFields | config/config.go:399-439 | Given fields stay, missing ones get the new id, `Default`, `send_string` and the current time |
| ButtonList.Config.UpsertButtons | config/config.go:392-465 | The loop computes that upsert, then sorts; ids stay distinct and the list ordered |
| ButtonList.Config.UpsertButton | config/config.go:467-520 | One button is stored under its id with missing fields filled in, a new one without an order as the last; the invariant is kept |
| ButtonList.Config.RemoveButton | config/config.go:522-542 | Exactly the button with that id goes, and its deletion is reported |
| ButtonList.Config.MoveButton | config/config.go:544-658 | The list after a move is the one described, in sequence and in every field, for every direction; without a target it is only sorted; the invariant is kept |
| ButtonList.Config.ResequenceButtons | config/config.go:669-675 | Orders become 10, 20, and so on, with the current time |
| Scratchpad.NewestWins | scratchpad/scratchpad.go:290-330 | Without force every page id ends with the greatest time and pages keep their places |
| Scratchpad.FromInputs | scratchpad/scratchpad.go:290-330 | Pages are taken whole from what was stored or offered |
| Scratchpad.UpsertIsOffer | scratchpad/scratchpad.go:290-330 | Without deletion entries the synchronisation's upsert is the one of the editor |
| Scratchpad.Dropped | scratchpad/scratchpad.go:290-330 | A deletion entry removes exactly the page it names, if it is not older or force is set |
| Scratchpad.DropExactly | scratchpad/scratchpad.go:290-330 | The pages after a deletion entry, one by one: all but those with the id in the entry that are not newer, or all with it by force, in their order |
| Scratchpad.OfferExactly | scratchpad/scratchpad.go:290-330 | A new page comes last, a newer one takes the place of the stored one, an older one or one of the same time changes nothing |
| Scratchpad.ForcedUpsert | scratchpad/scratchpad.go:290-330 | With force every page replaces, and every deletion entry deletes, exactly what it names |
| Scratchpad.Pad.UpsertPages | scratchpad/scratchpad.go:290-330 | The loops compute that upsert, a deletion is recorded for every page that a deletion entry removes, and only then, and the file is written |
| Scratchpad.Pad.Reload | scratchpad/scratchpad.go:240-262 | What the file has, if it has pages, takes the place of the pages in memory |
| LocalStore.ButtonsApplied | config/config.go:392-465 | A forced batch changes the buttons and the deletion times that `OnButtonDelete` records as the changes of the synchronisation do, one by one |
| LocalStore.PagesApplied | scratchpad/scratchpad.go:290-330 | The same for the pages and `OnPageDelete` |
| LocalStore.PutShown | scratchpad/scratchpad.go:240-262 | Putting back what was read, whatever is in memory by then, is the step `PutBack` of `Interleaving` |
| LocalStore.LocalStep | datasync/datasync.go:949-959 | The two upserts at the end of a run, in sequence, and reading the pages back undisturbed are `ChangeAll` on what the two lists and the deletion times show |
| LocalStore.AppliedAsSent | config/config.go:399-439 | A batch is applied as it was sent exactly if every entry has a time, and every button an id, a group and a type |
| Scratchpad.Pad.HandleSync | scratchpad/scratchpad.go:141-205 | The editor's message stores exactly the newer pages |
| Scratchpad.Pad.HandleDelete | scratchpad/scratchpad.go:206-236 | The first page with the id goes and its deletion is reported; otherwise nothing changes |
| SessionSteps.RunInv | session/session.go:129-259 | Every step of the read loop, of listeners and of notifications keeps the invariant, and the messages a consumer took and those that wait are the messages sent, in order |
| SessionSteps.ChannelSafety | session/session.go:129-259 | In every interleaving the listeners are exactly the open channels, each listed once, nothing is closed twice or sent to when closed, and the history is the last `max` bytes read |
| SessionSteps.HandOff | session/session.go:129-205 | In every interleaving history and what a consumer took from its channel are the stream in order without a gap, with at most the chunk in flight repeated, and the queue holds exactly what follows, as long as the channel was never full |
| SessionSteps.StepExactly | session/session.go:129-259 | What each step does to each channel: a message goes behind those in the queue while there are fewer than 10240, a consumer takes the first, and who closes which channel |
| SessionSteps.NothingLost | session/session.go:138-146 | No output is lost in as many steps as there is room for |
| SessionSteps.HandOffAtStart | session/session.go:129-205 | So in the first 10240 steps every listener is handed over without a gap |
| Sessions.OfferIsSend | session/session.go:220-229 | A channel object queues a message as the state machine does: behind the others, and not at all when 10240 are there |
| Sessions.CircularBuffer.Write | session/session.go:27-36 | The buffer keeps the last `max` bytes ever written |
| Sessions.Session.SetState | session/session.go:82-103 | Hidden implies locked implies pinned |
| Sessions.Session.AddListener | session/session.go:198-205 | A new open channel joins and the history at that moment is handed out |
| Sessions.Session.RemoveListener | session/session.go:207-218 | The channel leaves and is closed exactly if it was a listener |
| Sessions.Session.Steal | session/session.go:247-259 | Every listener is told and closed, none remains |
| Sessions.SessionManager.ClearInactive | session/session.go:347-378 | A timer is entered in the map exactly for a registered session that is idle, unpinned and unlocked |
| Sessions.SessionManager.RemoveListener | session/session.go:336-345 | The channel leaves the session of that id, all other listeners stay, and a timer is entered exactly if nobody is left and the session is unpinned and unlocked |
| Sessions.SessionManager.TimerFires | session/session.go:360-373 | When a timer's function runs, a session without listeners is closed, pinned or not, and the map's entry for the id goes, whatever timer it is for |
| Sessions.SessionManager.Remove | session/session.go:285-293 | The session registered under the id goes with its timer |
| Sessions.SessionManager.CancelDisconnectTimer | session/session.go:380-387 | The timer of that id goes and nothing else changes |
| Sessions.SessionManager.CloseAllNormal | session/session.go:312-328 | Exactly the locked sessions remain, and every other one is closed once |
| Sessions.SessionManager.CloseIfNotLocked | session/session.go:295-310 | The session is closed once and taken off exactly if it is there and not locked |
| Sessions.SessionManager.DisconnectAllWebsockets | session/session.go:413-424 | Every listener of every session is closed and gone, no channel twice |
| ManagerSteps.RunInv | session/session.go:285-378 | In every interleaving of requests, ends and timers sessions stand under their own ids, and what was closed stays closed |
| ManagerSteps.LostExactly | session/session.go:285-334 | In every interleaving a session that is still open is still registered exactly if no step for another session with its id took it off |
| ManagerSteps.FreshIds | session/session.go:285-334 | In every interleaving every open session stays registered as long as no other session with its id was ever added |
| ManagerSteps.ReconnectLoses | ws/ws.go:181-186 | A reconnect after which the old session takes the new one off |
| ManagerSteps.StrayExactly | session/session.go:347-387 | A timer that is armed can, in some interleaving, be left running without an entry in the map exactly if an older timer for the id is not over when it is armed |
| ManagerSteps.StrayTimer | session/session.go:347-387 | A run that leaves a timer armed for no registered session |
| ManagerSteps.StrayEnds | session/session.go:360-373 | Such a timer can end a later session with that id |
| ManagerSteps.LockedSafe | session/session.go:295-328 | A session that stays locked is not closed by those who close unlocked sessions, however their steps interleave |
| ManagerSteps.LockedTooLate | session/session.go:295-310 | A session that is locked after it was found unlocked is closed all the same |
| MarkerFilter.FitsInChunk | localpty/shellintegration.go:447-470 | What follows a marker completed by a read lies in that read, so it fits in the caller's buffer |
| MarkerFilter.TrimmedRun | localpty/shellintegration.go:455-458 | What is cut off is the longest run of carriage returns and line feeds at the front |
| MarkerFilter.WholeRunDropped | localpty/shellintegration.go:455-458 | All line breaks after the marker are dropped exactly when their run ends within the read that completed it |
| MarkerFilter.Filter.Read | localpty/shellintegration.go:433-484 | For every way of cutting the stream and every error of the source: what has been handed out is, once the marker was found, the stream after the first marker less the line breaks directly after it, and nothing before it; once an answer with an error came without the marker, the last bytes, one fewer than the marker has, and whatever comes later. A search goes on until the read that completes the marker or the first one with an error, the error returned is that of the last read, kept bytes are drained without a read, and after that each read is handed on as it is |
| MarkerFilter.OneMode | localpty/shellintegration.go:446-483 | The answers of the source decide alone whether the search goes on, found the marker and at which read, or gave up |
| MarkerFilter.MarkerNotInCommand | localpty/shellintegration.go:376-403 | The injected command never contains the marker it prints |
| Padding.UnpaddedIff | passstore/passstore.go:480-496 | Unpadding gives a text exactly for the text, a marker byte and any number of zeros |
| Padding.UnpadPad | passstore/passstore.go:464-496 | Unpadding undoes padding for all byte strings; up to 63 bytes the padded length is 64 |
| Padding.Pad | passstore/passstore.go:466-478 | The array that is built is the padded text |
| Padding.Unpad | passstore/passstore.go:480-496 | The backward scan computes unpadding |
| Vault.StepEffect | app.go:507-542 | What each operation does to passwords, file, data key and secrets, value by value |
| Vault.LastValueSurvives | app.go:507-542 | After any run of unlocking, locking, saving, removing and password changes the password in force, and no other, unlocks the store and shows the last saved value |
| Vault.StepSound | app.go:507-542 | Every operation keeps the app password in force and the one that protects the data key the same |
| PassStore.DecryptEncrypted | passstore/passstore.go:498-531 | Decrypting an encrypted secret gives it back |
| PassStore.OpenSealed | passstore/passstore.go:533-565 | A data key encrypted under one key opens under that key and no other |
| PassStore.SealsPadded | passstore/passstore.go:498-513 | What the cipher gets is the secret, a byte 1 and zeros, 64 bytes for every secret of up to 63 |
| PassStore.LawsCanBeMet | passstore/passstore.go:460-462 | The laws assumed of the cryptography are consistent |
| PassStore.Store.SetEncryptionKey | passstore/passstore.go:56-141 | Unlocks exactly for the app password in force if that protects the data key, or makes a new data key when there is none |
| PassStore.Store.ClearEncryptionKey | passstore/passstore.go:151-160 | The data key leaves the memory and nothing else changes |
| PassStore.Store.Get | passstore/passstore.go:176-213 | An unlocked store shows the last value set; otherwise the error tells why |
| PassStore.Store.Set | passstore/passstore.go:215-246 | Saves exactly when unlocked and the file is there; the other entries stay, and an error changes nothing |
| PassStore.Store.Delete | passstore/passstore.go:248-270 | The entry is not found afterwards and the others stay; no key is needed |
| PassStore.Store.DeletePasswordFile | passstore/passstore.go:303-319 | Drops the file by force or when it has no entries, and returns the error of each other case |
| PassStore.Store.ReencryptWithInMemoryKey | passstore/passstore.go:392-435 | The new password protects the same data key, so all entries stay readable |
| PassStore.Store.Reencrypt | passstore/passstore.go:321-389 | The same from the old password, which must match the hash in force and protect the data key |
| AppPassword.ChangeInSettings | app.go:507-540 | The settings handler performs the change, refuses it or stops half-way exactly as described; the hash in memory is the new one even if it cannot be written |
| AppPassword.ChangeKeepsSecrets | app.go:507-540 | An accepted change leaves the new password as the only one, and the secrets exactly when the store was unlocked or empty |
| AppPassword.UnsavedChange | app.go:526-534 | When the configuration cannot be written, some password still unlocks the store exactly if no data key was protected anew or both passwords are equal, and it is the old one |
| AppPassword.SavedLater | config/config.go:208-218 | A later write of the configuration and a restart make the new password, and no other, unlock whatever the change left |
| AppPassword.ResetAppPassword | app.go:128-179 | What the reset command does in each of its cases |
| AppPassword.AfterReset | app.go:159-172 | The new password unlocks exactly when no protected data key was left or it equals the old one; secrets never survive with a really new password |
| KnownHosts.OnlyAppends | datasync/datasync.go:1516-1553 | Without force every line stays and exactly the lines not listed yet are appended |
| KnownHosts.ExistingLinesStay | datasync/datasync.go:1489-1560 | Without force the old content is a byte-for-byte prefix of the new one |
| KnownHosts.ImportExactly | datasync/datasync.go:1489-1560 | The import without force byte for byte, over the words of the lines: after the old content come, in order, exactly the trimmed lines with three words that share the key type and a pattern between commas with no plain line of the file, and a newline |
| KnownHosts.InList | datasync/datasync.go:1516-1553 | A host that the file has in a list with others is not added again |
| KnownHosts.ImportAgain | datasync/datasync.go:1489-1560 | Importing the same lines again changes nothing exactly when each is plain or covered by the lines of the file and those that were new |
| KnownHosts.ForceReplaces | datasync/datasync.go:1536-1545 | With force a line is only ever replaced by an import line for a pattern and key type it has |
| KnownHosts.ForceTakesKey | datasync/datasync.go:1516-1553 | With force every entry that import lines are for ends up with the key of the last of them |
| KnownHosts.HitIs | datasync/datasync.go:1516-1535 | An import line is for the last line that lists its first pattern known to the file |
| KnownHosts.ForceWrites | datasync/datasync.go:1536-1545 | Every line afterwards is one of the file or a trimmed line of the import |
| KnownHosts.BuildIndex | datasync/datasync.go:1496-1514 | The index holds the last line for every pattern and key type |
| KnownHosts.ImportKnownHostsLines | datasync/datasync.go:1489-1560 | The code computes that import |
| HostBlocks.Disjoint | sshmanager/client.go:168-197 | A block has exactly one Host line and blocks of distinct names are disjoint |
| HostBlocks.OthersStay | sshmanager/client.go:341-357 | After a block is replaced or deleted every other block is found, moved by the difference in length |
| ConfigLines.FindHostBlock | sshmanager/client.go:168-197 | The three loops find the block of the first Host line with that name |
| ConfigLines.HostLineHasName | sshmanager/client.go:170-177 | A Host line always has a name |
| HostSplice.DeleteFrame | sshmanager/client.go:403-410 | Deleting a host leaves every other host's block verbatim |
| HostSplice.Deleted | sshmanager/client.go:403-410 | The host is found afterwards exactly when the file had a second Host line for it |
| HostSplice.LinesGone | sshmanager/client.go:168-197 | Deleting and replacing, for every line: the Host line goes with the markers directly above it and all lines below it up to the next marker or Host line, and everything else stays in order |
| HostSplice.MatchGoes | sshmanager/client.go:186-196 | A Match line below the host, and nothing between them that ends a block, is among the lines that go |
| HostSplice.PlaceFrame | sshmanager/client.go:347-357 | Replacing or appending leaves every other block verbatim, save for one blank line after the last block |
| HostSplice.PlaceOwn | sshmanager/client.go:347-357 | The placed lines are found again as the host's block |
| HostSplice.DeleteHostLines | sshmanager/client.go:403-410 | The code removes the block and tells whether there was one |
| HostSplice.UpdateLines | sshmanager/client.go:341-357 | The code removes the old name's block and replaces or appends the new one |
| HostSplice.UpdatedExactly | sshmanager/client.go:341-357 | The old name's block goes, the new one takes the place of the block of its name or comes last, after a blank line unless there is one |
| HostSplice.OldNameGone | sshmanager/client.go:341-346 | After saving under a new name nothing is found under the old one, exactly unless it had two Host lines |
| HostText.RenderBlock | sshmanager/client.go:267-339 | The code renders the comment, tags, Host line, settings, forwards and a blank line, in this order |
| HostRoundTrip.InertLine | sshmanager/client.go:286-314 | A settings line, whatever its value, starts no block and is no comment, tag or forward |
| HostRoundTrip.JoinedWords | sshmanager/client.go:276-282 | The words of the tag line are the tags |
| HostSettings.SettingReadBack | sshmanager/client.go:285-314 | Reading any keyword in the rendered block gives the setting that belongs to it, once if it has a value, whatever the other settings are |
| HostSettings.SettingThroughFile | sshmanager/client.go:241-264 | The round trip of every setting through the file, whatever it held before |
| HostSave.ScanRendered | sshmanager/client.go:567-616 | Scanning rendered lines gives tags, trimmed comment lines and normalised forward rules back |
| HostSave.SavedBlock | sshmanager/client.go:266-357 | After saving, the host's block is what was rendered, from the last comment line without text on |
| HostSave.SavedExactly | sshmanager/client.go:266-357 | It is exactly what was rendered if and only if every comment line has text |
| HostSave.SavedFrame | sshmanager/client.go:266-357 | Every other host's block stays verbatim, with at most one blank line more at the end of the file, also when the host is renamed |
| HostSave.SavedScan | sshmanager/client.go:266-357 | The round trip in the list of lines |
| HostFile.ReadWritten | sshmanager/client.go:143-166 | Reading a written file gives back the lines that were read |
| HostFile.Reread | sshmanager/client.go:143-166 | Whatever one-line lines are written, reading finds the same hosts and their blocks say the same, field by field and keyword by keyword |
| HostFile.SavedFileScan | sshmanager/client.go:241-264 | The round trip through the file: a saved host is read with its tags, comment lines and forwards |
| HostFile.SavedFileFrame | sshmanager/client.go:241-264 | And every other host has the tags, comment lines, forwards and arguments of every keyword that it had before |
| HostValues.RenderedHead | sshmanager/client.go:266-285 | The lines above the settings letter by letter: a line for every line of the comment, from the first with text to the last, the tags, the Host line |
| HostValues.RenderedRest | sshmanager/client.go:283-340 | The lines below it: HostName, the two groups of settings, the three kinds of forward rules, an empty line |
| HostValues.ConnectionLines | sshmanager/client.go:284-301 | The first group: a line `    keyword value` for each of these six settings that has a value, in this order |
| HostValues.CheckingLines | sshmanager/client.go:302-316 | The second group, of five settings |
| HostValues.CommentThroughFile | sshmanager/client.go:241-284 | The comment's lines, trimmed one by one, are read back from the file exactly if each of them has a word that does not start with `#` |
| HostValues.TagsThroughFile | sshmanager/client.go:241-284 | The tags are read back exactly if that holds of the comment's lines below its last blank one |
| HostValues.RulesThroughFile | sshmanager/client.go:315-339 | The forward rules read back from the file are, in order, exactly the trimmed lines of the text that have text and do not start with `#` |
| HostFile.WriteConfigLines | sshmanager/client.go:155-166 | Every line is terminated, and one empty line follows |
| HostFile.WrittenIs | sshmanager/client.go:155-166 | What is written is the lines joined by newlines and two newlines |
| HostFile.LinesAre | sshmanager/client.go:143-153 | What is read is the text without white space at its ends, cut at newlines |
| HostFile.SaveHost | sshmanager/client.go:241-264 | The code reads, fills in the port, renders, splices and writes |
| HostFile.DeleteHost | sshmanager/client.go:412-443 | The file is written without the block, and only if there was one |
| HostScan.ScanBlock | sshmanager/client.go:562-618 | The scan of the host list collects exactly what the lines of the block contribute |
| HostScan.GetHostForwardRules | sshmanager/client.go:1481-1512 | The other reader returns the same forward rules as the scan |
| HostValues.ForwardAnyCase | sshmanager/client.go:595-613 | A forward line is read in any letter case and behind any white space |
| HostValues.MarkerLine | sshmanager/client.go:573-593 | A marked line gives tags if all of its words start with `#`, else a line of the comment |
| HostScan.RenderAgain | sshmanager/client.go:267-339 | What was read renders the same lines again |
| Encode64.EncodedLength | yescrypt/yescrypt.go:14-28 | The encoding of n bytes has (8n+5)/6 characters |
| Encode64.CharactersAreBits | yescrypt/yescrypt.go:14-28 | The characters are the bits of the byte string in order, low bits first, six to a character |
| Encode64.Alphabet | yescrypt/yescrypt.go:12 | The 64 characters and their values |
| Encode64.RoundTrip | yescrypt/yescrypt.go:14-28 | A decoder gives every byte string back, whatever its length |
| Encode64.Injective | yescrypt/yescrypt.go:14-28 | Equal encodings come from equal byte strings |
| Encode64.EncodeBytes | yescrypt/yescrypt.go:14-28 | The nested loops compute the encoding, with letters of the alphabet only and a value below 2^32 |

## Left out

- Replication: equal key and timestamp are taken to mean equal state, timestamps are positive, ids are not empty and do not start with the deletion prefix, and a file's content matches its name. A button or page whose download fails or does not match stops the run, which is covered by the stopped runs; an undecodable plaintext page, which the code skips, is not modelled. A variables file whose download fails does not stop the run, and that is modelled (`VarsSync.UnreadWinner`).
- Replication: one clock reading per run; the answer to the listing and the clock are parameters. Requests are answered, or the run stops there; a PUT may be refused in `Interleaving`, `CrashSafety` and `SyncLimits`, not in `SyncRun`. Encryption, JSON, HTTP, failing disk writes, what clients are sent, the upload of SSH files and the status shown to the user are not modelled. The page that a start makes when there is none counts as an edit.
- Replication: the local change of a run works on maps by id. `LocalStore.LocalStep` relates both lists to such maps, for distinct ids and buttons that have an order, a group, a type and a time; `ButtonList.ForcedOrder` and `LocalStore.AppliedAsSent` say exactly when they are needed.
- SyncRun.DetectChanges: is for an unencrypted folder. SSH files in the listing only count as a sign that the folder is not new.
- VarsMerge.MergeCommutative: assumes that entries with equal positive times agree; `VarsMerge.MergeSides` shows that this is needed.
- VarsSync: the time-stamped names of variables files are numbers here; the old format with one time for all variables is not modelled.
- VarsConvergence.Convergence: the two rounds without a clash are sufficient, not necessary. The first run must not read a file whose name is marked as a deletion, which no version writes, and no deletion may become stale meanwhile.
- VarsEdits: an update of other variables at the same moment, and several updates during one run, are not modelled.
- FileNames: the parsing of the names of SSH files is modelled, their synchronisation is not. A name with noughts or a plus sign before its timestamp, which no version writes, is read too (`FileNames.SpelledIsRead`); the replication modules do not tell it from the name without them.
- ButtonList: buttons are values, so that changing a caller's button in place and sharing of pointers are not captured. Saving to disk and the update callbacks are left out. Any sort that gives an ordered permutation stands for `sort.Slice`.
- ButtonList.Config.UpsertButtons: does not raise the running maximum for appended buttons that bring their own order, as the code does not.
- ManagerSteps: closing a process, the end of its reader and taking the session off are steps of their own; a timer may elapse, and its function run, at any later moment. Listeners are not part of its state: whether somebody listens when a timer is armed or its function runs is left open there, and given by `Sessions.SessionManager.ClearInactive` and `Sessions.SessionManager.TimerFires`.
- Sessions: `CloseIfNotLocked`, `CloseAllNormal` and the manager's `RemoveListener` take several locks in sequence and are modelled as uninterrupted calls there; `ManagerSteps` has their steps.
- SessionSteps: titles, resizing, the list of sessions and the reconnect loop are not modelled; reading from the terminal and the clock of timers are steps that may happen at any moment.
- Sessions.SessionManager.TimerFires: does not look at pinning again, as the code does not.
- Sessions.SessionManager.Remove: is by id and drops whatever session is registered under it, as in the code.
- MarkerFilter: the marker is not empty, as at every caller. A read returns at most what was asked for. Splitting and stripping of the payload script are left out.
- PassStore: key derivation, authenticated encryption, base64 and the password hash are functions that obey laws: what one key seals that key opens and no other, derived keys tell passwords apart, a hash matches one password. Failing disk writes and random sources, wiping of memory and the lengths of keys are not modelled, nor are password files that were damaged by hand.
- KnownHosts: letter case and white space are those of Unicode for the characters listed in `Text`; lower-casing is ASCII only.
- HostSettings: the reader by keyword stands for the ssh_config library, which is not part of this model; the value of a keyword is what follows it on its line.
- HostText: passwords that are moved with a renamed host are left out, as are `SaveHosts`, which repeats the same two operations, and `SaveGroups`, which can overwrite a host's own tag line.
- HostScan.ScanBlock: covers the part of the host list that reads the block; the other settings come from an ssh_config library that is not part of this model.
- Encode64: the sum in place of the bitwise or, and the division in place of the shift, are the same because the parts do not overlap.
- HTTP routing, authentication, WebSockets, terminals, SSH and SFTP connections, the keyring and the web front end are not part of this model.

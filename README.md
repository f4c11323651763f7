# LogFileSwift in Dafny

LogFileSwift is an iOS logging library with three parts. This project models those parts and proves properties of them.

- **`Logger`** (Logger.swift) is a per-level facade. `Logger.log(folderName:)` builds a logger over a `FileLogHandler`, falling back to a logger without one when the handler cannot be built. Each of the seven facade methods (`trace` … `critical`) forwards to the handler's `log`, or does nothing when there is no handler. The logger also holds:
  - the seven levels with their bracketed tags (`[trace]` …);
  - `getContentLog`;
  - the `MessageLoger` description `[file] - [Line n] - [func]: text`.
- **`FileLogHandler`** (FileLogHandler.swift) appends entries to files in the `fileLog` folder of the documents directory. On each call it:
  - decides from a quota (`isWriteData`) which file stream to write through;
  - writes a session marker line unless the level's file already holds one (`isCreateLog`);
  - writes one line per entry.

  Metadata is a dictionary. It is merged with the call's metadata and printed as `key=value` items. `FileHandlerOutputStream` creates a file only when it is absent and opens a handle on it. It moves that handle to the end of the file once, when the stream is opened. Its writes append only while the handle is still at the end of the file.
- **`CrashLoggerHandle`** (CrashLogger.swift) is a process-wide switch. When opened, it:
  - saves the application's uncaught-exception handler;
  - installs its own exception hook;
  - routes seven signals to a signal hook.

  The exception hook chains to the saved handler, then gives every live observer a `CrashModel`. The signal hook does not chain. It gives every live observer a `CrashModel`, then puts six signals back to their default action and kills the process.

## How the model is built

| file | module | models |
|---|---|---|
| `wrappers.dfy` | `Wrappers` | `Option` and `Result` |
| `text.dfy` | `Text` | string handling: `components(separatedBy:)` (`Split`), `joined(separator:)` (`Join`), `contains` (`Contains`), decimal printing of integers, `NSString.lastPathComponent` |
| `levels.dfy` | `Levels` | `LevelLoger`, `levelString` and `MessageLoger.description` |
| `files.dfy` | `Files` | the file system, `FileHandlerOutputStream` and `getContentLog` |
| `metadata.dfy` | `Metadata` | `Logger.Metadata`, its merge, its subscript and `prettify` |
| `filelog.dfy` | `FileLog` | `FileLogHandler`: the quota and marker decisions, the entry line, and `log` |
| `logging.dfy` | `Logging` | the `Logger` facade and `Logger.log(folderName:)` |
| `crashlogger.dfy` | `CrashLogger` | `CrashLoggerHandle`, `CrashModel` and `WeakCrashEyeDelegate` |

**The file system** is a class `FileSystem`:
- `files` maps each path to its text.
- `denied` holds the paths that cannot be created or opened.
- `unreadable` holds the paths whose text cannot be read back.

Paths are relative to the documents directory, e.g. `fileLog/debug2023-08-22.txt`.

**The platform values of one `log` call** are the parameter `Env`: the timestamp, the day, the two UUIDs (`uiid` is a computed property that yields a fresh UUID on every access) and the bundle version.

**The crash logger** has two layers:
- Step functions over a `CrashState` value: `OpenStep`, `CloseStep`, `AddStep`, `RemoveStep`, `KillStep`, and the event lists of the two hooks. These carry the lemmas.
- The class `CrashLoggerHandle`, whose fields are the static members, the global saved handler and the hook table. Each method's postcondition ties its new state to the matching step function.

Each hook's effect is the list of calls it makes, in order. A call is either to the saved handler (`OldHandlerCalled`) or to an observer (`Delivered`).

### Where the code and the design differ

The model follows the code in each of these cases:
- `log` switches to a fresh stream on the level's file when that file is *under* quota. It keeps the handler's own stream when the file is over quota. The upload routine is never called.
- The quota is `count <= 1000`, where `count` is the number of pieces the file splits into on the level tag. A file holding 999 tags is under quota; one holding 1000 is not (`FileLog.QuotaBoundary`).
- The marker is checked with one UUID and written with another, so a marker is written on every call.
- `add(delegate:)` has its registration commented out. It only opens the switch, so no observer is ever registered or notified (`CrashLogger.NobodyIsNotified`). The switch can be open with no observers.
- `name(of:)` has no SIGTRAP case. `killApp` leaves SIGTRAP routed to the signal hook.

## Model

| member | source | states |
|---|---|---|
| Levels.LevelStringIsBracketedRaw | LogFileSwift/LogManager/Logger.swift:16-42 | every level's tag is its raw value in square brackets |
| Levels.LevelsDistinct | LogFileSwift/LogManager/Logger.swift:17-23 | two levels have the same raw value, and the same tag, exactly when they are the same level |
| Levels.TagCharacters | LogFileSwift/LogManager/Logger.swift:25-42 | a tag starts with `[` and holds no space, colon or newline, so it cannot straddle the joints of an entry line |
| Levels.Description | LogFileSwift/LogManager/Logger.swift:303-320 | the description starts with the call site's last path component in brackets and ends with the message text |
| Levels.DescriptionFields | LogFileSwift/LogManager/Logger.swift:303-320 | the description in the DEBUG build is `[base] - [Line n] - [func]: text`; `base` is a single path component, and `n` reads back as the line number; the column plays no part |
| Levels.DescriptionNamesFile | LogFileSwift/LogManager/Logger.swift:318 | for a call site `dir/File.swift` the description starts with `[File.swift]` |
| Text.LastPathComponentOfJoin | LogFileSwift/LogManager/Logger.swift:318 | `lastPathComponent` of `dir/base` is `base` |
| Files.LevelPathsDistinct | LogFileSwift/LogManager/FileLogHandler.swift:76 | `<raw><day>.txt` paths of different levels or days never coincide |
| Files.GetDirectoryLog | LogFileSwift/LogManager/FileLogHandler.swift:72-84 | yields `fileLog/<level raw><day>.txt` exactly when that file exists, and `fileNotFound` otherwise |
| Files.GetContentLog | LogFileSwift/LogManager/Logger.swift:274-283 | the whole text of a readable file; `""` when the file is missing or cannot be read |
| Files.ContentAfterAppend | LogFileSwift/LogManager/FileLogHandler.swift:44-48 | reading a file back after a write gives its old text followed by what was written |
| Files.ContentAfterCreate | LogFileSwift/LogManager/FileLogHandler.swift:32-34 | a file that `createFile` has just made reads back as `""`; an existing file reads back as before |
| Files.Created | LogFileSwift/LogManager/FileLogHandler.swift:32-34 | creating a file adds it empty only when absent and never changes an existing file |
| Files.Appended | LogFileSwift/LogManager/FileLogHandler.swift:44-48 | a write puts the text after the file's content and changes no other file |
| Files.AppendedExtends | LogFileSwift/LogManager/FileLogHandler.swift:44-48 | after a write, every file still starts with its old content |
| Files.FileSystem.OpenStream | LogFileSwift/LogManager/FileLogHandler.swift:24-42 | a path that cannot be opened gives `couldNotCreateFile` and changes nothing; otherwise the file is created if absent, nothing is truncated, and the stream is on `fileLog/<name>` |
| Files.FileSystem.Write | LogFileSwift/LogManager/FileLogHandler.swift:44-48 | the new file table is the old one with the text appended to the stream's file |
| Files.WriteThroughHandle | LogFileSwift/LogManager/FileLogHandler.swift:35-36 | a write through a handle at offset `o` keeps the text before `o`, fills with NUL from the old end up to `o` when `o` is past the end, puts the new text at `o` and keeps whatever lay beyond it; the length is the larger of the old length and `o` plus the text's length |
| Files.HandleAtEndAppends | LogFileSwift/LogManager/FileLogHandler.swift:36 | through a handle at the end of the file, a write is an append |
| Files.StaleHandleOverwrites | LogFileSwift/LogManager/FileLogHandler.swift:143-155 | when the file grew through another stream after the handle was opened, the write overwrites that growth instead of appending after it |
| Metadata.Lookup | LogFileSwift/LogManager/FileLogHandler.swift:116-119 | the value stored under a key, or none when the key is absent |
| Metadata.Updated | LogFileSwift/LogManager/FileLogHandler.swift:120-122 | setting a key to a value replaces or adds it; setting it to nil removes it; keys stay distinct |
| Metadata.Merge | LogFileSwift/LogManager/FileLogHandler.swift:141 | the merged dictionary has distinct keys and is the stored one overridden by the call's, the call winning on a shared key |
| Metadata.MergeEmpty | LogFileSwift/LogManager/FileLogHandler.swift:141 | merging nothing leaves the stored dictionary as it is |
| Metadata.Prettify | LogFileSwift/LogManager/FileLogHandler.swift:213-215 | `prettify` is nil exactly for an empty dictionary; otherwise its text contains every entry's `key=value` |
| Metadata.PrettifyShowsMap | LogFileSwift/LogManager/FileLogHandler.swift:213-215 | in the text of a non-empty dictionary every key shows as `key=<its value>` |
| Metadata.PrettifySplitsIntoItems | LogFileSwift/LogManager/FileLogHandler.swift:213-215 | when no key or value holds a space, the text splits on single spaces into exactly the `key=value` items, one per entry, in order |
| FileLog.SessionMarker | LogFileSwift/LogManager/FileLogHandler.swift:153 | the marker is `uiid: `, the UUID, the fixed 31-character text naming the device `IOS` and ending in `appVersion: `, the version (or nothing), then ` \n \n`: each part at its own offset, and the length is exactly their sum |
| FileLog.IsWriteData | LogFileSwift/LogManager/FileLogHandler.swift:175-188 | under quota exactly when the level file is missing, is unreadable, or holds fewer than 1000 tags (fewer than 1001 pieces) |
| FileLog.IsCreateLog | LogFileSwift/LogManager/FileLogHandler.swift:158-170 | true exactly when the level file exists, is readable and contains the marker built from the given UUID |
| FileLog.QuotaBoundary | LogFileSwift/LogManager/FileLogHandler.swift:187 | a level file with 999 tags is under quota; one with 1000 is not |
| FileLog.EntryLine | LogFileSwift/LogManager/FileLogHandler.swift:155 | the entry line is the timestamp, one space, the level's tag, `: `, the metadata field (a space and the metadata text, or nothing), one space, the description and a newline: each part at its own offset, and the length is exactly their sum |
| FileLog.EntryTagCount | LogFileSwift/LogManager/FileLogHandler.swift:155 | an entry line holds its own tag once, plus the tags inside its timestamp, metadata and message |
| FileLog.MarkerTagCount | LogFileSwift/LogManager/FileLogHandler.swift:153 | the marker's fixed text adds no tag |
| FileLog.QuotaCountsEntries | LogFileSwift/LogManager/FileLogHandler.swift:175-188 | each entry, with or without a marker, raises the level file's tag count by exactly one, when none of the written texts (timestamp, metadata, message, UUID, version) holds the tag and the file ends in a complete line |
| FileLog.SelectMetadata | LogFileSwift/LogManager/FileLogHandler.swift:139-141 | a nil or empty call dictionary writes the stored `prettyMetadata`; otherwise the text shows every key of the call with the call's value and every other stored key with the stored value |
| FileLog.SelectMetadataIsMerge | LogFileSwift/LogManager/FileLogHandler.swift:139-141 | while `prettyMetadata` tracks `metadata`, the text written is the prettified merge of the stored and call dictionaries, whether or not the call brings any |
| FileLog.AfterLog | LogFileSwift/LogManager/FileLogHandler.swift:143-155 | a `log` call keeps every file's text as a prefix, adds at most the level file of the day, and changes no file but its target |
| FileLog.LogWritesEntry | LogFileSwift/LogManager/FileLogHandler.swift:143-155 | the target is the level file when under quota and openable, else the handler's own file; it receives the marker exactly when the checked marker is absent, then the entry line |
| FileLog.LogCallAddsTag | LogFileSwift/LogManager/FileLogHandler.swift:143-155 | one call adds one tag to the level file when it writes there and none otherwise, and leaves the file ending in a complete line |
| FileLog.TagsOverCalls | LogFileSwift/LogManager/FileLogHandler.swift:143-188 | from a missing or empty level file, after `n` tag-free calls the file holds `n` tags while `n` is at most 1000, and stays at 1000 after that unless the handler's own stream is on the level file |
| FileLog.OwnStreamOverwritesAfterQuota | LogFileSwift/LogManager/FileLogHandler.swift:35-36 | with the handler's own stream opened on the empty level file (offset 0), after 1000 calls the file is over quota, call 1001 goes through that stream, and its write at offset 0 overwrites the start of the file instead of appending |
| FileLog.QuotaOverCalls | LogFileSwift/LogManager/FileLogHandler.swift:143-188 | from a missing or empty level file, after `n` tag-free calls the file is under quota exactly when `n < 1000`; calls 1 to 1000 write to the level file, and call 1001 and later write through the handler's own stream |
| FileLog.FileLogHandler.constructor | LogFileSwift/LogManager/FileLogHandler.swift:95-114 | a new handler has its stream, empty metadata and no `prettyMetadata` |
| FileLog.FileLogHandler.SetMetadata | LogFileSwift/LogManager/FileLogHandler.swift:110-114 | assigning `metadata` recomputes `prettyMetadata` |
| FileLog.FileLogHandler.MetadataValue | LogFileSwift/LogManager/FileLogHandler.swift:116-119 | the subscript getter returns the stored value for the key, or none |
| FileLog.FileLogHandler.SetMetadataValue | LogFileSwift/LogManager/FileLogHandler.swift:116-123 | the subscript setter updates or removes the key and recomputes `prettyMetadata` |
| FileLog.FileLogHandler.Log | LogFileSwift/LogManager/FileLogHandler.swift:135-156 | the new file table is `AfterLog` of the old one, with the metadata chosen by `SelectMetadata` and the message's description; files are only appended to |
| FileLog.FileLogHandler.SelectStream | LogFileSwift/LogManager/FileLogHandler.swift:143-151 | a fresh stream on the level file when under quota and openable, otherwise the handler's own stream |
| FileLog.FileLogHandler.WriteMarkerAndEntry | LogFileSwift/LogManager/FileLogHandler.swift:152-155 | appends the marker when the level file lacks it, then the entry line |
| FileLog.NewFileLogHandler | LogFileSwift/LogManager/FileLogHandler.swift:125-127 | opens `fileLog/<folder><day>.txt`, or fails with `couldNotCreateFile` and changes nothing |
| Logging.Logger.constructor | LogFileSwift/LogManager/Logger.swift:45-53 | the logger holds its handler, or none |
| Logging.MakeLogger | LogFileSwift/LogManager/Logger.swift:55-64 | a logger without a handler exactly when the level's file cannot be opened; otherwise one with a fresh handler on that file |
| Logging.Logger.Forward | LogFileSwift/LogManager/Logger.swift:74-77 | the shared body of the seven facade methods: without a handler nothing changes; otherwise the file table is the effect of the handler's `log` at the given level |
| Logging.Logger.Trace | LogFileSwift/LogManager/Logger.swift:74-77 | without a handler nothing changes; otherwise the effect of the handler's `log` at `trace` |
| Logging.Logger.Debug | LogFileSwift/LogManager/Logger.swift:87-90 | the same at `debug` |
| Logging.Logger.Info | LogFileSwift/LogManager/Logger.swift:100-103 | the same at `info` |
| Logging.Logger.Notice | LogFileSwift/LogManager/Logger.swift:113-116 | the same at `notice` |
| Logging.Logger.Warning | LogFileSwift/LogManager/Logger.swift:126-129 | the same at `warning` |
| Logging.Logger.Error | LogFileSwift/LogManager/Logger.swift:139-143 | the same at `error` |
| Logging.Logger.Critical | LogFileSwift/LogManager/Logger.swift:153-156 | the same at `critical` |
| Logging.FacadeMetadata | LogFileSwift/LogManager/FileLogHandler.swift:139-141 | through the facade the stored metadata is empty, so an entry carries the call's metadata prettified, or none |
| CrashLogger.SignalName | LogFileSwift/LogManager/CrashLogger.swift:218-235 | "OTHER" exactly for the numbers other than ABRT, ILL, SEGV, FPE, BUS and PIPE |
| CrashLogger.SignalNamesDistinct | LogFileSwift/LogManager/CrashLogger.swift:218-235 | the six mnemonics tell their signals apart |
| CrashLogger.SignalReason | LogFileSwift/LogManager/CrashLogger.swift:190 | the reason starts with `Signal ` followed by the signal's name |
| CrashLogger.SignalReasonCarriesNumber | LogFileSwift/LogManager/CrashLogger.swift:190 | the reason is `Signal <name>(<digits>) was raised.\n`, and `<digits>` reads back as the signal number |
| CrashLogger.SegmentationFaultReason | LogFileSwift/LogManager/CrashLogger.swift:190 | a SIGSEGV reads `Signal SIGSEGV(11) was raised.\n` |
| CrashLogger.TrapIsOther | LogFileSwift/LogManager/CrashLogger.swift:143-152 | SIGTRAP is routed to the hook but is not reset by `killApp`, and is named "OTHER" |
| CrashLogger.ResetTable | LogFileSwift/LogManager/CrashLogger.swift:240-245 | after the six `signal` calls the six reset signals have the given action, every other signal keeps its own, and the table gains exactly those six |
| CrashLogger.WatchTable | LogFileSwift/LogManager/CrashLogger.swift:143-152 | after the seven `signal` calls the seven watched signals have the given action, every other signal keeps its own, and the table gains exactly those seven |
| CrashLogger.OpenStep | LogFileSwift/LogManager/CrashLogger.swift:124-133 | `open` does nothing when open; otherwise it saves the current exception handler, installs the crash hook and routes the seven watched signals to the signal hook (the table becomes `WatchTable` of the old one, so every other signal keeps its action); the list and the terminated flag stay |
| CrashLogger.CloseStep | LogFileSwift/LogManager/CrashLogger.swift:135-141 | `close` does nothing when closed; otherwise it reinstalls the saved handler and leaves the signal table, the terminated flag, the list and the saved handler alone; afterwards the switch is closed |
| CrashLogger.AddStep | LogFileSwift/LogManager/CrashLogger.swift:86-105 | `add` is `open`: it leaves the list unchanged and the switch open; when the switch was closed it saves the current exception handler, installs the crash hook and routes the seven watched signals to the signal hook (the table becomes `WatchTable` of the old one), keeping the terminated flag; when open it changes nothing |
| CrashLogger.AddOpensAndKeepsDelegates | LogFileSwift/LogManager/CrashLogger.swift:86-105 | `add` opens, keeps the list, and a second `add` changes nothing |
| CrashLogger.OpenIdempotent | LogFileSwift/LogManager/CrashLogger.swift:124-133 | a second `open` changes nothing; the saved handler is the one current at the first `open` |
| CrashLogger.OpenThenClose | LogFileSwift/LogManager/CrashLogger.swift:124-141 | opening then closing restores the previous exception handler, and the seven signals stay routed to the hook |
| CrashLogger.RemoveStep | LogFileSwift/LogManager/CrashLogger.swift:107-119 | an entry stays exactly when it was there, its observer is alive and its hash differs; with none left `close` runs: the switch is closed, the saved handler is reinstalled if the switch was open (otherwise the handler is left alone), and the saved handler, the signal table and the terminated flag are kept; with entries left the switch, the hooks and the saved handler are as before |
| CrashLogger.Filter | LogFileSwift/LogManager/CrashLogger.swift:108-114 | `filter` keeps exactly the entries that satisfy the condition, and no more of them than there were |
| CrashLogger.FilterAppend | LogFileSwift/LogManager/CrashLogger.swift:108-114 | `filter` keeps relative order |
| CrashLogger.FilterFilter | LogFileSwift/LogManager/CrashLogger.swift:108-114 | the two filters in a row are one filter on both conditions |
| CrashLogger.RemoveKeepsOthers | LogFileSwift/LogManager/CrashLogger.swift:107-114 | the entries `remove` keeps are those of one filter on both conditions, alive and of a different hash, in their order |
| CrashLogger.KillStep | LogFileSwift/LogManager/CrashLogger.swift:237-248 | `killApp` clears the exception handler, puts the six reset signals to their default action, leaves every other signal as it was and ends the process; the switch, the list and the saved handler stay |
| CrashLogger.SignalHookKills | LogFileSwift/LogManager/CrashLogger.swift:237-248 | after the kill there is no exception handler, the six reset signals are at their default action, SIGTRAP still goes to the hook, and the process is gone |
| CrashLogger.NotificationsAppend | LogFileSwift/LogManager/CrashLogger.swift:175-177 | the fan-out over a concatenation is the fan-out over each part, in order |
| CrashLogger.NotificationsInOrder | LogFileSwift/LogManager/CrashLogger.swift:175-177 | every live entry is notified exactly once, in list order, and dead entries are skipped |
| CrashLogger.LiveMembers | LogFileSwift/LogManager/CrashLogger.swift:21-28 | the live observers are exactly those whose weak reference is still set |
| CrashLogger.ExceptionModel | LogFileSwift/LogManager/CrashLogger.swift:164-174 | the exception hook's model has type raw value 2 (`exception`), the exception's name, the application information, and the reason or `""` |
| CrashLogger.ExceptionEvents | LogFileSwift/LogManager/CrashLogger.swift:154-178 | the saved handler, when there is one, is called first whatever the state; when closed that is the only call |
| CrashLogger.ExceptionHookNotifies | LogFileSwift/LogManager/CrashLogger.swift:164-177 | when open, after the chained call every live observer receives the exception model, in order |
| CrashLogger.ExceptionModelFields | LogFileSwift/LogManager/CrashLogger.swift:164-174 | the model has type raw value 2 (`exception`), the reason or `""`, and a call stack that splits on `\r` back into the frames |
| CrashLogger.SignalModel | LogFileSwift/LogManager/CrashLogger.swift:187-197 | the signal hook's model has type raw value 1 (`signal`), the signal's name, the reason `SignalReason` builds, and the application information |
| CrashLogger.SignalEvents | LogFileSwift/LogManager/CrashLogger.swift:180-201 | when closed the signal hook calls no one; when open it delivers the signal model to every live observer, once each, in list order, and to no one else |
| CrashLogger.SignalModelFields | LogFileSwift/LogManager/CrashLogger.swift:187-197 | the model has type raw value 1 (`signal`), the signal's name, and a call stack that splits on `\r` back into all frames but the first two |
| CrashLogger.RunInvariant | LogFileSwift/LogManager/CrashLogger.swift:86-141 | after any sequence of `add` and `remove` calls: the list is empty; the switch is open exactly when the last call was `add`; while open, the saved handler is the application's and the hook is installed; while closed, the application's handler is back |
| CrashLogger.NobodyIsNotified | LogFileSwift/LogManager/CrashLogger.swift:87-102 | so no crash reaches an observer: the exception hook only chains, and the signal hook calls no one |
| CrashLogger.CrashLoggerHandle.constructor | LogFileSwift/LogManager/CrashLogger.swift:66-81 | closed, no observers, no saved handler, the application's hooks in place |
| CrashLogger.CrashLoggerHandle.Add | LogFileSwift/LogManager/CrashLogger.swift:86-105 | the new state is `AddStep` of the old |
| CrashLogger.CrashLoggerHandle.Remove | LogFileSwift/LogManager/CrashLogger.swift:107-119 | the new state is `RemoveStep` of the old |
| CrashLogger.CrashLoggerHandle.Open | LogFileSwift/LogManager/CrashLogger.swift:124-133 | the new state is `OpenStep` of the old |
| CrashLogger.CrashLoggerHandle.Close | LogFileSwift/LogManager/CrashLogger.swift:135-141 | the new state is `CloseStep` of the old |
| CrashLogger.CrashLoggerHandle.SetCrashSignalHandler | LogFileSwift/LogManager/CrashLogger.swift:143-152 | the signal table becomes `WatchTable` of the old one with the signal hook; nothing else changes |
| CrashLogger.CrashLoggerHandle.FanOut | LogFileSwift/LogManager/CrashLogger.swift:175-177 | the loop makes exactly the calls `NotificationsInOrder` describes |
| CrashLogger.CrashLoggerHandle.ReceiveException | LogFileSwift/LogManager/CrashLogger.swift:154-178 | the calls made are those `ExceptionEvents` and `ExceptionHookNotifies` describe; no state changes |
| CrashLogger.CrashLoggerHandle.ReceiveSignal | LogFileSwift/LogManager/CrashLogger.swift:180-204 | when closed, no call and no change; when open, every live observer gets the signal model, then the kill of `SignalHookKills` |
| CrashLogger.CrashLoggerHandle.KillApp | LogFileSwift/LogManager/CrashLogger.swift:237-248 | the new state is `KillStep` of the old |

## Left out

- `StorageLog.swift` and `upLoadFileLogToFirebase`: these are network uploads with asynchronous callbacks. `log` never calls the upload.
- `removeFileLog`: file deletion. It builds its path with `appendingPathExtension`, so it does not name the file that `getDirectoryLog` names.
- The `BLog*` console helpers, `printContentLog`, `DEBUG_LEVEL` and the `print` calls: these are console output only.
- `Logger.timestamp` and `timestampDay`: clock and C-buffer formatting. The timestamp and the day are parameters (`Env`).
- FileLog.FileLogHandler.Log: takes one day for the whole call. In the source, the stream, `isWriteData` and `isCreateLog` each read the clock, so a call that runs across midnight can mix two days. The model does not capture that.
- `UUID()` and the bundle version: these are parameters. `appInfo()` reads Bundle and UIDevice, and is an opaque string parameter.
- `Thread.callStackSymbols` and `exception.callStackSymbols` are inputs. The `signal`, `kill` and `NSSetUncaughtExceptionHandler` calls are modelled as the hook table `Hooks` and its `terminated` flag.
- What an observer's `crashEyeDidCatchCrash` or the chained old handler does, and how the operating system delivers signals: these are foreign code. A hook's effect is the sequence of calls it makes.
- CrashLogger.CrashLoggerHandle.ReceiveSignal: requires at least two frames when open. In the source, `removeFirst(2)` traps on a shorter stack; the model does not cover that trap.
- Concurrency, re-entrancy and signal safety: the model is single-threaded.
- Files.FileSystem.OpenStream: a path either cannot be opened at all or opens fully. In the source, `createFile` can succeed and `FileHandle(forWritingTo:)` then fail, which throws `couldNotCreateFile` but leaves a new empty file behind. The model does not capture that partial failure.
- Metadata.Merge: the order of the dictionary's entries is not modelled as unspecified. The model fixes it as the order of association (stored keys first, then new keys), so `prettify` lists items in that order. Values are strings; the source interpolates `Any`.
- Text.Contains: compares characters one by one. Swift's `contains` and `components(separatedBy:)` compare by Unicode canonical equivalence.
- The documents directory is assumed to exist. Swift strings always encode to UTF-8, so the nil branch of `write` is not modelled.
- Files.WriteThroughHandle: counts the handle's offset and the file in characters. A `FileHandle` counts bytes of the UTF-8 encoding, so the model agrees with the source only on ASCII text. With multi-byte characters, a write at a stale offset can split a character, and the file's bytes then differ from the model's result.
- Logging.Logger.Trace: the facade's `functionName`, `line`, `fileName` and `column` parameters do not appear, because the source ignores them too. The same holds for the six other facade methods.
- `MessageLoger.log` returns a value only in the DEBUG build (Logger.swift:316-320). That build is the one modelled.

## Findings

| source | as written | input that shows it | evidently intended | confidence | as-written member | corrected member |
|---|---|---|---|---|---|---|
| LogFileSwift/LogManager/FileLogHandler.swift:35-36 | A `FileHandle` keeps its own offset. `seekToEndOfFile` runs once, when the stream is opened. The handler's long-lived stream is written when its file is over quota (lines 143-155), at the offset it had when it was opened. | `Logger.log(folderName: .debug)` opens `fileLog/debug<day>.txt` while the file is empty. The next 1000 debug entries go through fresh streams. The 1001st is written through the handler's stream at offset 0 and overwrites the start of the file. | Each write lands at the end of the file, as the stream promises to append. | not executed | Files.StaleHandleOverwrites (over Files.WriteThroughHandle); FileLog.QuotaOverCalls shows that call 1001 writes through the handler's own stream; FileLog.OwnStreamOverwritesAfterQuota joins the two | Files.FileSystem.Write (append), used by FileLog.FileLogHandler.Log; the rows FileLog.AfterLog, FileLog.LogCallAddsTag, FileLog.TagsOverCalls and FileLog.FileLogHandler.Log describe this corrected append |

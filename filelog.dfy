/** `FileLogHandler`: the quota decision (`isWriteData`), the session-marker
    decision (`isCreateLog`), the entry format, the stored metadata with its
    `didSet`, and `log`, which picks a stream and appends to it. */
module FileLog {
  import opened Wrappers
  import opened Text
  import opened Levels
  import opened Files
  import opened Metadata

  /** `numberWrite`: the most pieces a level file may split into and still
      count as under quota. */
  const NumberWrite: nat := 1000

  /** What one `log` call reads from the platform: `Logger.timestamp()`,
      `Logger.timestampDay()`, the `UUID()` that `isCreateLog` compares
      against, the different `UUID()` that is written, and the bundle's
      short version string. */
  datatype Env = Env(timestamp: string, day: string, checkedUiid: string, writtenUiid: string, appVersion: Option<string>)

  /** The session marker line: the UUID after its `uiid: ` label, then the
      device and the app version, and a blank line at the end. */
  function SessionMarker(uiid: string, appVersion: Option<string>): (marker: string)
    ensures |marker| == 6 + |uiid| + 31 + |appVersion.GetOr("")| + 4
    ensures marker[..6] == "uiid: " && marker[6..6 + |uiid|] == uiid
    ensures OccursAt(marker, " || device: IOS || appVersion: " + appVersion.GetOr(""), 6 + |uiid|)
    ensures marker[|marker| - 4..] == " \n \n"
  {
    "uiid: " + uiid + " || device: IOS || appVersion: " + appVersion.GetOr("") + " \n \n"
  }

  /** `isWriteData(level:)`: the level's file for `day` is under quota when it
      splits on the level tag into at most 1000 pieces, that is when it holds
      fewer than 1000 tags; a missing or unreadable file counts as under quota. */
  function IsWriteData(files: map<string, string>, unreadable: set<string>, level: Level, day: string): (under: bool)
    ensures under <==>
      LevelPath(level, day) !in files || LevelPath(level, day) in unreadable
      || Count(files[LevelPath(level, day)], LevelString(level)) < NumberWrite
  {
    match GetDirectoryLog(files, level, day)
    case Err(_) => true
    case Ok(path) =>
      var content := GetContentLog(files, unreadable, path);
      SplitCount(content, LevelString(level));
      |Split(content, LevelString(level))| <= NumberWrite
  }

  /** `isCreateLog(level:)`: the level's file for `day` already holds the
      marker built from `uiid`; a missing or unreadable file does not. */
  function IsCreateLog(files: map<string, string>, unreadable: set<string>, level: Level, day: string,
                       uiid: string, appVersion: Option<string>): (present: bool)
    ensures present <==>
      LevelPath(level, day) in files && LevelPath(level, day) !in unreadable
      && exists i :: OccursAt(files[LevelPath(level, day)], SessionMarker(uiid, appVersion), i)
  {
    match GetDirectoryLog(files, level, day)
    case Err(_) => false
    case Ok(path) =>
      var content := GetContentLog(files, unreadable, path);
      ContainsIff(content, SessionMarker(uiid, appVersion));
      ContainsIff("", SessionMarker(uiid, appVersion));
      Contains(content, SessionMarker(uiid, appVersion))
  }

  /** The entry line `<ts> <tag>: <" " + metadata, if any> <message>\n`:
      the timestamp, one space, the level's tag, `": "`, the metadata field,
      one space, the message and a newline, each at its own offset. */
  function EntryLine(timestamp: string, level: Level, prettyMetadata: Option<string>, description: string): (line: string)
    ensures |line| == |timestamp| + 1 + |LevelString(level)| + 2 + |MetadataField(prettyMetadata)| + 1 + |description| + 1
    ensures line[..|timestamp|] == timestamp && line[|timestamp|] == ' '
    ensures OccursAt(line, LevelString(level), |timestamp| + 1)
    ensures OccursAt(line, ": " + MetadataField(prettyMetadata) + " ", |timestamp| + 1 + |LevelString(level)|)
    ensures line[|line| - 1 - |description|..] == description + "\n"
  {
    EntryLayout(timestamp, LevelString(level), MetadataField(prettyMetadata), description);
    timestamp + " " + LevelString(level) + ": " + MetadataField(prettyMetadata) + " " + description + "\n"
  }

  /** Where each part of an entry line sits, for any parts. */
  lemma EntryLayout(timestamp: string, tag: string, field: string, description: string)
    ensures var line := timestamp + " " + tag + ": " + field + " " + description + "\n";
      && |line| == |timestamp| + 1 + |tag| + 2 + |field| + 1 + |description| + 1
      && line[..|timestamp|] == timestamp && line[|timestamp|] == ' '
      && OccursAt(line, tag, |timestamp| + 1)
      && OccursAt(line, ": " + field + " ", |timestamp| + 1 + |tag|)
      && line[|line| - 1 - |description|..] == description + "\n"
  {
  }

  function MetadataField(prettyMetadata: Option<string>): string {
    match prettyMetadata
    case None => ""
    case Some(text) => " " + text
  }

  /** The metadata text `log` writes: the stored `prettyMetadata` when the
      call brings none (nil or empty), otherwise the stored dictionary merged
      with the call's, the call winning, prettified. */
  function SelectMetadata(stored: Metadata, storedPretty: Option<string>, call: Option<Metadata>): (r: Option<string>)
    requires DistinctKeys(stored)
    requires call.Some? ==> DistinctKeys(call.value)
    ensures call.None? || |call.value| == 0 ==> r == storedPretty
    ensures call.Some? && |call.value| > 0 ==>
      && r.Some?
      && (forall k :: k in ToMap(call.value) ==> Contains(r.value, k + "=" + ToMap(call.value)[k]))
      && (forall k :: k in ToMap(stored) && k !in ToMap(call.value) ==> Contains(r.value, k + "=" + ToMap(stored)[k]))
  {
    if call.None? || |call.value| == 0 then storedPretty
    else
      var merged := Merge(stored, call.value);
      assert call.value[0].0 in ToMap(merged);
      PrettifyShowsMap(merged);
      Prettify(merged)
  }

  /** While `prettyMetadata` tracks `metadata` (the `didSet`), the text
      written is always the prettified merge of the stored dictionary with
      the call's, whether or not the call brings any. */
  lemma SelectMetadataIsMerge(stored: Metadata, call: Option<Metadata>)
    requires DistinctKeys(stored)
    requires call.Some? ==> DistinctKeys(call.value)
    ensures SelectMetadata(stored, Prettify(stored), call) == Prettify(Merge(stored, call.GetOr([])))
  {
    if call.None? || |call.value| == 0 {
      assert call.GetOr([]) == [];
      MergeEmpty(stored);
    }
  }

  // ---------------------------------------------------------------------
  // The effect of one `log` call on the file table.

  /** `log` moves to a fresh stream on the level's file for the day exactly
      when that file is under quota and the stream can be opened. */
  predicate UsesLevelStream(files: map<string, string>, denied: set<string>, unreadable: set<string>, level: Level, day: string) {
    IsWriteData(files, unreadable, level, day) && LevelPath(level, day) !in denied
  }

  /** The file the entry goes to: the level file, or the handler's own stream. */
  function Target(files: map<string, string>, denied: set<string>, unreadable: set<string>, own: string, level: Level, day: string): string {
    if UsesLevelStream(files, denied, unreadable, level, day) then LevelPath(level, day) else own
  }

  /** The file table once the fresh stream, if any, has been opened. */
  function Opened(files: map<string, string>, denied: set<string>, unreadable: set<string>, level: Level, day: string): map<string, string> {
    if UsesLevelStream(files, denied, unreadable, level, day) then Created(files, LevelPath(level, day)) else files
  }

  /** The text appended: the marker built from the written UUID when the
      level file lacks the marker built from the checked UUID, then the entry. */
  function LogText(created: map<string, string>, unreadable: set<string>, level: Level, env: Env,
                   prettyMetadata: Option<string>, description: string): string {
    (if IsCreateLog(created, unreadable, level, env.day, env.checkedUiid, env.appVersion) then ""
     else SessionMarker(env.writtenUiid, env.appVersion))
    + EntryLine(env.timestamp, level, prettyMetadata, description)
  }

  /** The file table after one `log` call. The call only appends: every
      file keeps its text as a prefix, at most the level file for the day is
      added, and no file other than the target changes. */
  function AfterLog(files: map<string, string>, denied: set<string>, unreadable: set<string>, own: string,
                    level: Level, env: Env, prettyMetadata: Option<string>, description: string): (after: map<string, string>)
    ensures Extends(files, after)
    ensures files.Keys <= after.Keys <= files.Keys + {LevelPath(level, env.day)}
    ensures forall p :: p in files && p != Target(files, denied, unreadable, own, level, env.day) ==> after[p] == files[p]
  {
    var created := Opened(files, denied, unreadable, level, env.day);
    var target := Target(files, denied, unreadable, own, level, env.day);
    var text := LogText(created, unreadable, level, env, prettyMetadata, description);
    OpenedExtends(files, denied, unreadable, level, env.day);
    AppendedExtends(created, target, text);
    ExtendsTransitive(files, created, Appended(created, target, text));
    Appended(created, target, text)
  }

  lemma OpenedExtends(files: map<string, string>, denied: set<string>, unreadable: set<string>, level: Level, day: string)
    ensures Extends(files, Opened(files, denied, unreadable, level, day))
  {
    if UsesLevelStream(files, denied, unreadable, level, day) {
      CreatedExtends(files, LevelPath(level, day));
    } else {
      ExtendsSelf(files);
    }
  }

  /** Where the entry lands and what precedes it: under quota (and openable)
      the level file for the day, otherwise the handler's own file; the
      marker comes first exactly when the level file lacks the checked
      marker; the entry line comes last. */
  lemma LogWritesEntry(files: map<string, string>, denied: set<string>, unreadable: set<string>, own: string,
                       level: Level, env: Env, prettyMetadata: Option<string>, description: string)
    requires own in files
    ensures var after := AfterLog(files, denied, unreadable, own, level, env, prettyMetadata, description);
      var created := Opened(files, denied, unreadable, level, env.day);
      var target := Target(files, denied, unreadable, own, level, env.day);
      var entry := EntryLine(env.timestamp, level, prettyMetadata, description);
      var marker := SessionMarker(env.writtenUiid, env.appVersion);
      var present := IsCreateLog(created, unreadable, level, env.day, env.checkedUiid, env.appVersion);
      (target == LevelPath(level, env.day) <== UsesLevelStream(files, denied, unreadable, level, env.day))
      && (target == own <== !UsesLevelStream(files, denied, unreadable, level, env.day))
      && target in created
      && after[target] == created[target] + (if present then "" else marker) + entry
  {
    var created := Opened(files, denied, unreadable, level, env.day);
    var target := Target(files, denied, unreadable, own, level, env.day);
    var text := LogText(created, unreadable, level, env, prettyMetadata, description);
    var head := if IsCreateLog(created, unreadable, level, env.day, env.checkedUiid, env.appVersion) then ""
                else SessionMarker(env.writtenUiid, env.appVersion);
    var entry := EntryLine(env.timestamp, level, prettyMetadata, description);
    TargetExists(files, denied, unreadable, own, level, env.day);
    AppendedAt(created, target, text);
    AppendAssoc(created[target], head, entry);
  }

  lemma AppendAssoc(a: string, b: string, c: string)
    ensures a + (b + c) == a + b + c
  {
  }

  /** The target of a `log` call exists once the fresh stream, if any, is open. */
  lemma TargetExists(files: map<string, string>, denied: set<string>, unreadable: set<string>, own: string, level: Level, day: string)
    requires own in files
    ensures Target(files, denied, unreadable, own, level, day) in Opened(files, denied, unreadable, level, day)
  {
  }

  lemma AppendedAt(files: map<string, string>, path: string, text: string)
    requires path in files
    ensures Appended(files, path, text)[path] == files[path] + text
  {
  }

  /** Two appends to one file are one append of both texts. */
  lemma AppendedTwice(files: map<string, string>, path: string, a: string, b: string)
    ensures Appended(Appended(files, path, a), path, b) == Appended(files, path, a + b)
  {
    if path in files {
      assert files[path] + a + b == files[path] + (a + b);
    }
  }

  // ---------------------------------------------------------------------
  // Quota bookkeeping: each entry adds exactly one tag.

  /** The parts of an entry line are separated by characters no tag holds,
      so the tags in an entry are the one it is stamped with plus any inside
      its timestamp, metadata and message. */
  lemma EntryTagCount(timestamp: string, level: Level, prettyMetadata: Option<string>, description: string)
    ensures var tag := LevelString(level);
      Count(EntryLine(timestamp, level, prettyMetadata, description), tag)
      == Count(timestamp, tag) + 1 + Count(MetadataField(prettyMetadata), tag) + Count(description, tag)
  {
    var tag := LevelString(level);
    TagCharacters(level);
    var meta := MetadataField(prettyMetadata);
    assert Count(tag, tag) == 1 by {
      assert tag[..|tag|] == tag && tag[|tag|..] == "";
    }
    CountWithoutFirstChar(" ", tag);
    CountWithoutFirstChar(": ", tag);
    CountWithoutFirstChar("\n", tag);
    var u1 := timestamp + " ";
    CountAppend(timestamp, " ", tag);
    var u2 := u1 + tag;
    assert u1[|u1| - 1] == ' ';
    CountAppend(u1, tag, tag);
    var u3 := u2 + ": ";
    CountAppend(u2, ": ", tag);
    var u4 := u3 + meta;
    assert u3[|u3| - 1] == ' ';
    CountAppend(u3, meta, tag);
    var u5 := u4 + " ";
    CountAppend(u4, " ", tag);
    var u6 := u5 + description;
    assert u5[|u5| - 1] == ' ';
    CountAppend(u5, description, tag);
    CountAppend(u6, "\n", tag);
    assert EntryLine(timestamp, level, prettyMetadata, description) == u6 + "\n";
  }

  /** The marker's fixed text holds no '[', so its tags are those in the
      UUID and the version string it carries. */
  lemma MarkerTagCount(uiid: string, appVersion: Option<string>, level: Level)
    ensures var tag := LevelString(level);
      Count(SessionMarker(uiid, appVersion), tag) == Count(uiid, tag) + Count(appVersion.GetOr(""), tag)
  {
    var tag := LevelString(level);
    TagCharacters(level);
    var v := appVersion.GetOr("");
    var mid := " || device: IOS || appVersion: ";
    var end := " \n \n";
    CountWithoutFirstChar("uiid: ", tag);
    CountWithoutFirstChar(mid, tag);
    CountWithoutFirstChar(end, tag);
    CountAppend("uiid: ", uiid, tag);
    CountAppend("uiid: " + uiid, mid, tag);
    CountAppend("uiid: " + uiid + mid, v, tag);
    CountAppend("uiid: " + uiid + mid + v, end, tag);
  }

  /** Appending one entry (with or without a marker) to a file the logger
      wrote (empty or ending in a newline) raises its tag count by exactly
      one, provided the timestamp, metadata, message, UUID and version hold
      no copy of the tag. */
  lemma QuotaCountsEntries(content: string, withMarker: bool, uiid: string, appVersion: Option<string>,
                           timestamp: string, level: Level, prettyMetadata: Option<string>, description: string)
    requires content == [] || content[|content| - 1] == '\n'
    requires var tag := LevelString(level);
      Count(timestamp, tag) == 0 && Count(MetadataField(prettyMetadata), tag) == 0 && Count(description, tag) == 0
      && Count(uiid, tag) == 0 && Count(appVersion.GetOr(""), tag) == 0
    ensures var text := (if withMarker then SessionMarker(uiid, appVersion) else "")
                        + EntryLine(timestamp, level, prettyMetadata, description);
      Count(content + text, LevelString(level)) == Count(content, LevelString(level)) + 1
  {
    var tag := LevelString(level);
    TagCharacters(level);
    var marker := if withMarker then SessionMarker(uiid, appVersion) else "";
    var entry := EntryLine(timestamp, level, prettyMetadata, description);
    EntryTagCount(timestamp, level, prettyMetadata, description);
    MarkerTagCount(uiid, appVersion, level);
    if withMarker {
      assert marker[|marker| - 1] == '\n';
    }
    CountAppend(marker, entry, tag);
    CountAppend(content, marker + entry, tag);
    assert content + (marker + entry) == content + ((if withMarker then SessionMarker(uiid, appVersion) else "") + entry);
  }

  /** The quota boundary: a level file holding 999 tags is still under
      quota, one holding 1000 is not. */
  lemma QuotaBoundary(files: map<string, string>, unreadable: set<string>, level: Level, day: string)
    requires LevelPath(level, day) in files && LevelPath(level, day) !in unreadable
    ensures Count(files[LevelPath(level, day)], LevelString(level)) == 999 ==> IsWriteData(files, unreadable, level, day)
    ensures Count(files[LevelPath(level, day)], LevelString(level)) == 1000 ==> !IsWriteData(files, unreadable, level, day)
  {
  }

  // ---------------------------------------------------------------------
  // The quota over a sequence of `log` calls.

  /** The arguments and platform values of one `log` call at a fixed level. */
  datatype LogCall = LogCall(env: Env, prettyMetadata: Option<string>, description: string)

  /** The file table after `log` calls at `level` through a handler whose own
      stream is on `own`, the last call applied last. */
  function LogRun(files: map<string, string>, denied: set<string>, unreadable: set<string>, own: string,
                  level: Level, calls: seq<LogCall>): map<string, string>
    decreases |calls|
  {
    if calls == [] then files
    else
      var c := calls[|calls| - 1];
      AfterLog(LogRun(files, denied, unreadable, own, level, calls[..|calls| - 1]),
               denied, unreadable, own, level, c.env, c.prettyMetadata, c.description)
  }

  /** None of the texts a call writes holds a copy of the level's tag. */
  predicate TagFree(c: LogCall, level: Level) {
    var tag := LevelString(level);
    && Count(c.env.timestamp, tag) == 0 && Count(MetadataField(c.prettyMetadata), tag) == 0
    && Count(c.description, tag) == 0 && Count(c.env.writtenUiid, tag) == 0
    && Count(c.env.appVersion.GetOr(""), tag) == 0
  }

  /** Every call is on `day` and tag-free. */
  predicate AllFit(calls: seq<LogCall>, level: Level, day: string) {
    forall i :: 0 <= i < |calls| ==> calls[i].env.day == day && TagFree(calls[i], level)
  }

  lemma AllFitPrefix(calls: seq<LogCall>, level: Level, day: string)
    requires calls != [] && AllFit(calls, level, day)
    ensures AllFit(calls[..|calls| - 1], level, day)
    ensures calls[|calls| - 1].env.day == day && TagFree(calls[|calls| - 1], level)
  {
    var init := calls[..|calls| - 1];
    forall i | 0 <= i < |init| ensures init[i].env.day == day && TagFree(init[i], level) {
      assert init[i] == calls[i];
    }
  }

  /** The number of tags in the level file for `day`, none when it is missing. */
  function LevelTags(files: map<string, string>, level: Level, day: string): nat {
    if LevelPath(level, day) in files then Count(files[LevelPath(level, day)], LevelString(level)) else 0
  }

  /** The file is missing, empty, or ends with a complete line. */
  predicate EndsLine(files: map<string, string>, path: string) {
    path !in files || files[path] == [] || files[path][|files[path]| - 1] == '\n'
  }

  /** One call adds one tag to the level file exactly when it writes there. */
  lemma LogCallAddsTag(files: map<string, string>, denied: set<string>, unreadable: set<string>, own: string,
                       level: Level, c: LogCall)
    requires LevelPath(level, c.env.day) !in denied && LevelPath(level, c.env.day) !in unreadable
    requires EndsLine(files, LevelPath(level, c.env.day)) && TagFree(c, level)
    ensures var after := AfterLog(files, denied, unreadable, own, level, c.env, c.prettyMetadata, c.description);
      var path := LevelPath(level, c.env.day);
      var target := Target(files, denied, unreadable, own, level, c.env.day);
      && LevelTags(after, level, c.env.day) == LevelTags(files, level, c.env.day) + (if target == path then 1 else 0)
      && EndsLine(after, path)
  {
    var path := LevelPath(level, c.env.day);
    var created := Opened(files, denied, unreadable, level, c.env.day);
    var target := Target(files, denied, unreadable, own, level, c.env.day);
    var text := LogText(created, unreadable, level, c.env, c.prettyMetadata, c.description);
    if target == path {
      LevelFileOpened(files, denied, unreadable, own, level, c.env.day);
      LogTextAddsTag(created, unreadable, level, c, created[path]);
      AppendedAt(created, path, text);
    } else {
      LevelFileUntouched(files, denied, unreadable, own, level, c.env.day, text);
    }
  }

  /** Once its stream is open, the level file the entry goes to holds what it
      held before, or nothing when it was missing. */
  lemma LevelFileOpened(files: map<string, string>, denied: set<string>, unreadable: set<string>, own: string,
                        level: Level, day: string)
    requires LevelPath(level, day) !in denied && LevelPath(level, day) !in unreadable
    requires Target(files, denied, unreadable, own, level, day) == LevelPath(level, day)
    requires EndsLine(files, LevelPath(level, day))
    ensures var created := Opened(files, denied, unreadable, level, day);
      && LevelPath(level, day) in created
      && Count(created[LevelPath(level, day)], LevelString(level)) == LevelTags(files, level, day)
      && EndsLine(created, LevelPath(level, day))
  {
    var path := LevelPath(level, day);
    if UsesLevelStream(files, denied, unreadable, level, day) {
      assert Opened(files, denied, unreadable, level, day) == Created(files, path);
      assert path !in files ==> Created(files, path)[path] == "";
    } else {
      assert !IsWriteData(files, unreadable, level, day);
      assert Opened(files, denied, unreadable, level, day) == files;
    }
  }

  /** Writing a call's text onto a complete line adds exactly one tag and
      leaves a complete line. */
  lemma LogTextAddsTag(created: map<string, string>, unreadable: set<string>, level: Level, c: LogCall, content: string)
    requires content == [] || content[|content| - 1] == '\n'
    requires TagFree(c, level)
    ensures var text := LogText(created, unreadable, level, c.env, c.prettyMetadata, c.description);
      && Count(content + text, LevelString(level)) == Count(content, LevelString(level)) + 1
      && (content + text)[|content + text| - 1] == '\n'
  {
    var env := c.env;
    var present := IsCreateLog(created, unreadable, level, env.day, env.checkedUiid, env.appVersion);
    var marker := if !present then SessionMarker(env.writtenUiid, env.appVersion) else "";
    var entry := EntryLine(env.timestamp, level, c.prettyMetadata, c.description);
    var text := LogText(created, unreadable, level, env, c.prettyMetadata, c.description);
    assert text == marker + entry;
    QuotaCountsEntries(content, !present, env.writtenUiid, env.appVersion, env.timestamp, level,
                       c.prettyMetadata, c.description);
    assert entry[|entry| - 1] == '\n';
    LastOfAppend(content, text);
    LastOfAppend(marker, entry);
  }

  lemma LastOfAppend(a: string, b: string)
    requires |b| > 0
    ensures (a + b)[|a + b| - 1] == b[|b| - 1]
  {
  }

  /** An entry that goes to the handler's own file leaves the level file alone. */
  lemma LevelFileUntouched(files: map<string, string>, denied: set<string>, unreadable: set<string>, own: string,
                           level: Level, day: string, text: string)
    requires LevelPath(level, day) !in denied
    requires Target(files, denied, unreadable, own, level, day) != LevelPath(level, day)
    ensures Opened(files, denied, unreadable, level, day) == files
    ensures var after := Appended(files, own, text);
      LevelPath(level, day) in files && LevelPath(level, day) in after
      && after[LevelPath(level, day)] == files[LevelPath(level, day)]
  {
    assert !IsWriteData(files, unreadable, level, day);
  }

  /** The quota decision read off the level file's tag count. */
  lemma QuotaFromTags(files: map<string, string>, denied: set<string>, unreadable: set<string>, own: string,
                      level: Level, day: string)
    requires LevelPath(level, day) !in denied && LevelPath(level, day) !in unreadable
    requires LevelPath(level, day) !in files ==> LevelTags(files, level, day) == 0
    ensures IsWriteData(files, unreadable, level, day) <==> LevelTags(files, level, day) < NumberWrite
    ensures Target(files, denied, unreadable, own, level, day)
         == if LevelTags(files, level, day) < NumberWrite then LevelPath(level, day) else own
  {
  }

  /** The level file's tag count over a run of calls: one per call for
      the first 1000 calls, and then no more unless the handler's own
      stream is on that file. */
  lemma {:induction false} TagsOverCalls(files: map<string, string>, denied: set<string>, unreadable: set<string>, own: string,
                                         level: Level, day: string, calls: seq<LogCall>)
    requires LevelPath(level, day) !in denied && LevelPath(level, day) !in unreadable
    requires LevelPath(level, day) !in files || files[LevelPath(level, day)] == ""
    requires AllFit(calls, level, day)
    ensures var after := LogRun(files, denied, unreadable, own, level, calls);
      && LevelTags(after, level, day) == ExpectedTags(own == LevelPath(level, day), |calls|)
      && EndsLine(after, LevelPath(level, day))
      && (LevelPath(level, day) !in after ==> calls == [])
    decreases |calls|
  {
    var path := LevelPath(level, day);
    if calls == [] {
      assert path in files ==> Count(files[path], LevelString(level)) == 0;
    } else {
      var init := calls[..|calls| - 1];
      var c := calls[|calls| - 1];
      var before := LogRun(files, denied, unreadable, own, level, init);
      AllFitPrefix(calls, level, day);
      TagsOverCalls(files, denied, unreadable, own, level, day, init);
      TagsStep(before, denied, unreadable, own, level, c, |init|);
    }
  }

  /** One tag per call, capped at 1000 unless every call reaches the file. */
  function ExpectedTags(ownIsLevelFile: bool, n: nat): nat {
    if ownIsLevelFile || n < NumberWrite then n else NumberWrite
  }

  /** The induction step of `TagsOverCalls`, for one more call. */
  lemma TagsStep(before: map<string, string>, denied: set<string>, unreadable: set<string>, own: string,
                 level: Level, c: LogCall, n: nat)
    requires LevelPath(level, c.env.day) !in denied && LevelPath(level, c.env.day) !in unreadable
    requires TagFree(c, level)
    requires LevelTags(before, level, c.env.day) == ExpectedTags(own == LevelPath(level, c.env.day), n)
    requires EndsLine(before, LevelPath(level, c.env.day))
    requires LevelPath(level, c.env.day) !in before ==> n == 0
    ensures var after := AfterLog(before, denied, unreadable, own, level, c.env, c.prettyMetadata, c.description);
      && LevelTags(after, level, c.env.day) == ExpectedTags(own == LevelPath(level, c.env.day), n + 1)
      && EndsLine(after, LevelPath(level, c.env.day))
      && LevelPath(level, c.env.day) in after
  {
    var path := LevelPath(level, c.env.day);
    QuotaFromTags(before, denied, unreadable, own, level, c.env.day);
    LogCallAddsTag(before, denied, unreadable, own, level, c);
    LogCallKeepsLevelFile(before, denied, unreadable, own, level, c);
    ExpectedTagsStep(own == path, n, LevelTags(before, level, c.env.day),
                     Target(before, denied, unreadable, own, level, c.env.day) == path);
  }

  lemma ExpectedTagsStep(ownIsLevelFile: bool, n: nat, tags: nat, hit: bool)
    requires tags == ExpectedTags(ownIsLevelFile, n)
    requires hit <==> tags < NumberWrite || ownIsLevelFile
    ensures tags + (if hit then 1 else 0) == ExpectedTags(ownIsLevelFile, n + 1)
  {
  }

  /** After a call the level file exists, since it does after any creation
      and was present whenever no fresh stream was opened. */
  lemma LogCallKeepsLevelFile(files: map<string, string>, denied: set<string>, unreadable: set<string>, own: string,
                              level: Level, c: LogCall)
    requires LevelPath(level, c.env.day) !in denied
    ensures LevelPath(level, c.env.day) in AfterLog(files, denied, unreadable, own, level, c.env, c.prettyMetadata, c.description)
  {
    var path := LevelPath(level, c.env.day);
    if !UsesLevelStream(files, denied, unreadable, level, c.env.day) {
      assert !IsWriteData(files, unreadable, level, c.env.day);
    }
  }

  /** Over any run of `log` calls at one level on one day, starting from a
      missing or empty level file and with texts free of the tag, the level
      file is under quota exactly while fewer than 1000 calls have been made.
      So calls 1 to 1000 each open a fresh stream on the level file, and from
      call 1001 on every call writes through the handler's own stream. */
  lemma QuotaOverCalls(files: map<string, string>, denied: set<string>, unreadable: set<string>, own: string,
                       level: Level, day: string, calls: seq<LogCall>)
    requires LevelPath(level, day) !in denied && LevelPath(level, day) !in unreadable
    requires LevelPath(level, day) !in files || files[LevelPath(level, day)] == ""
    requires AllFit(calls, level, day)
    ensures var after := LogRun(files, denied, unreadable, own, level, calls);
      && (IsWriteData(after, unreadable, level, day) <==> |calls| < NumberWrite)
      && Target(after, denied, unreadable, own, level, day)
           == (if |calls| < NumberWrite then LevelPath(level, day) else own)
  {
    TagsOverCalls(files, denied, unreadable, own, level, day, calls);
    QuotaFromTags(LogRun(files, denied, unreadable, own, level, calls), denied, unreadable, own, level, day);
  }

  /** The stale offset from start to finish. `Logger.log(folderName:)` opens
      the handler's own stream on the level file while it is empty, so that
      stream sits at offset 0. After 1000 calls the file is over quota, call
      1001 goes through that stream, and its write at offset 0 overwrites
      the start of the file instead of appending after the 1000 entries. */
  lemma OwnStreamOverwritesAfterQuota(files: map<string, string>, denied: set<string>, unreadable: set<string>,
                                      level: Level, day: string, calls: seq<LogCall>, text: string)
    requires LevelPath(level, day) !in denied && LevelPath(level, day) !in unreadable
    requires LevelPath(level, day) in files && files[LevelPath(level, day)] == ""
    requires AllFit(calls, level, day) && |calls| == NumberWrite
    requires |text| > 0
    ensures var path := LevelPath(level, day);
      var after := LogRun(files, denied, unreadable, path, level, calls);
      && !IsWriteData(after, unreadable, level, day)
      && Target(after, denied, unreadable, path, level, day) == path
      && path in after
      && WriteThroughHandle(after[path], 0, text) != after[path] + text
      && WriteThroughHandle(after[path], 0, text)[..|text|] == text
  {
    var path := LevelPath(level, day);
    var after := LogRun(files, denied, unreadable, path, level, calls);
    QuotaOverCalls(files, denied, unreadable, path, level, day, calls);
    TagsOverCalls(files, denied, unreadable, path, level, day, calls);
    StaleHandleOverwrites("", after[path], text);
    assert "" + after[path] == after[path];
  }

  // ---------------------------------------------------------------------

  /** A file log handler: the stream opened at construction, the stored
      metadata and its prettified form. */
  class FileLogHandler {
    const fs: FileSystem
    var stream: OutputStream
    var metadata: Metadata
    var prettyMetadata: Option<string>

    /** The handler's own file exists, the metadata is a dictionary, and
        `prettyMetadata` is what `didSet` last computed from it. */
    ghost predicate Valid()
      reads this, fs
    {
      stream.path in fs.files && DistinctKeys(metadata) && prettyMetadata == Prettify(metadata)
    }

    /** The stored properties right after `init` has opened `stream`. */
    constructor (fs: FileSystem, stream: OutputStream)
      requires stream.path in fs.files
      ensures this.fs == fs && this.stream == stream
      ensures metadata == [] && prettyMetadata == None
      ensures Valid()
    {
      this.fs := fs;
      this.stream := stream;
      metadata := [];
      prettyMetadata := None;
    }

    /** Assigning `metadata`: `didSet` recomputes `prettyMetadata`. */
    method SetMetadata(m: Metadata)
      requires Valid() && DistinctKeys(m)
      modifies this
      ensures Valid()
      ensures metadata == m && prettyMetadata == Prettify(m)
      ensures stream == old(stream)
    {
      metadata := m;
      prettyMetadata := Prettify(metadata);
    }

    /** The subscript getter `self[metadataKey:]`. */
    function MetadataValue(key: string): (r: Option<string>)
      reads this
      requires DistinctKeys(metadata)
      ensures r.Some? <==> key in ToMap(metadata)
      ensures r.Some? ==> r.value == ToMap(metadata)[key]
    {
      Lookup(metadata, key)
    }

    /** The subscript setter `self[metadataKey:] = value`, which goes through
        `didSet` as well. */
    method SetMetadataValue(key: string, value: Option<string>)
      requires Valid()
      modifies this
      ensures Valid()
      ensures metadata == Updated(old(metadata), key, value)
      ensures ToMap(metadata) == if value.Some? then ToMap(old(metadata))[key := value.value] else ToMap(old(metadata)) - {key}
      ensures prettyMetadata == Prettify(metadata) && stream == old(stream)
    {
      metadata := Updated(metadata, key, value);
      prettyMetadata := Prettify(metadata);
    }

    /** `log(level:message:metadata:source:)`. */
    method Log(level: Level, message: Message, callMetadata: Option<Metadata>, env: Env)
      requires Valid()
      requires callMetadata.Some? ==> DistinctKeys(callMetadata.value)
      modifies fs
      ensures Valid()
      ensures fs.files == AfterLog(old(fs.files), fs.denied, fs.unreadable, stream.path, level, env,
                                   SelectMetadata(metadata, prettyMetadata, callMetadata), Description(message))
      ensures Extends(old(fs.files), fs.files)
    {
      var pretty := if callMetadata.None? || |callMetadata.value| == 0 then prettyMetadata
                    else Prettify(Merge(metadata, callMetadata.value));
      var out := SelectStream(level, env.day);
      WriteMarkerAndEntry(out, level, env, pretty, Description(message));
    }

    /** The stream `log` writes through: a fresh one on the level's file for
        the day when that file is under quota, unless opening it fails, and
        the handler's own stream otherwise. */
    method SelectStream(level: Level, day: string) returns (out: OutputStream)
      requires Valid()
      modifies fs
      ensures fs.files == Opened(old(fs.files), fs.denied, fs.unreadable, level, day)
      ensures out.path == Target(old(fs.files), fs.denied, fs.unreadable, stream.path, level, day)
      ensures out.path in fs.files && Extends(old(fs.files), fs.files)
    {
      out := stream;
      if IsWriteData(fs.files, fs.unreadable, level, day) {
        var newStream := fs.OpenStream(LevelFileName(level, day));
        if newStream.Ok? {
          out := newStream.value;
        }
      } else {
        ExtendsSelf(fs.files);
      }
    }

    /** The marker, when the level file lacks it, then the entry line. */
    method WriteMarkerAndEntry(out: OutputStream, level: Level, env: Env, pretty: Option<string>, description: string)
      requires out.path in fs.files
      modifies fs
      ensures fs.files == Appended(old(fs.files), out.path, LogText(old(fs.files), fs.unreadable, level, env, pretty, description))
    {
      ghost var before := fs.files;
      var present := IsCreateLog(fs.files, fs.unreadable, level, env.day, env.checkedUiid, env.appVersion);
      var entry := EntryLine(env.timestamp, level, pretty, description);
      var marker := if present then "" else SessionMarker(env.writtenUiid, env.appVersion);
      if !present {
        fs.Write(out, marker);
      } else {
        assert marker + entry == entry;
      }
      fs.Write(out, entry);
      AppendedTwice(before, out.path, marker, entry);
    }
  }

  /** `FileLogHandler.init(folderName:)`: open `fileLog/<folder><day>.txt`,
      or fail with the stream's error. */
  method NewFileLogHandler(fs: FileSystem, folderName: string, day: string) returns (r: Result<FileLogHandler, StreamError>)
    modifies fs
    ensures var path := LogPath(folderName + day + ".txt");
      && (path in fs.denied ==> r == Err(CouldNotCreateFile) && fs.files == old(fs.files))
      && (path !in fs.denied ==>
            && r.Ok? && fresh(r.value) && fs.files == Created(old(fs.files), path)
            && r.value.fs == fs && r.value.stream == OutputStream(path)
            && r.value.metadata == [] && r.value.Valid())
  {
    var result := fs.OpenStream(folderName + day + ".txt");
    match result
    case Err(e) =>
      r := Err(e);
    case Ok(stream) =>
      var handler := new FileLogHandler(fs, stream);
      r := Ok(handler);
  }
}

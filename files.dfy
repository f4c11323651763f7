/** `FileHandlerOutputStream` over a file system modelled as a map from path
    to text. Every log file lives in the `fileLog` folder; a path is
    `fileLog/<name>`. Which paths cannot be created or opened, and which
    cannot be read back as text, is fixed by the environment. */
module Files {
  import opened Wrappers
  import opened Text
  import opened Levels

  /** `FileLogHandler.FolderName.fileLogFolder`. */
  const FileLogFolder: string := "fileLog"

  function LogPath(name: string): string {
    FileLogFolder + "/" + name
  }

  /** `"\(level.rawValue)\(day).txt"`: level and day run together. */
  function LevelFileName(level: Level, day: string): string {
    RawValue(level) + day + ".txt"
  }

  function LevelPath(level: Level, day: string): string {
    LogPath(LevelFileName(level, day))
  }

  /** Files of different levels never share a path, nor do the files of one
      level on two days. */
  lemma LevelPathsDistinct(a: Level, b: Level, dayA: string, dayB: string)
    ensures LevelPath(a, dayA) == LevelPath(b, dayB) <==> a == b && dayA == dayB
  {
    if LevelPath(a, dayA) == LevelPath(b, dayB) {
      var ra, rb := RawValue(a), RawValue(b);
      CancelLeft(FileLogFolder + "/", LevelFileName(a, dayA), LevelFileName(b, dayB));
      RawValueNotPrefix(a, b, dayA, dayB);
      LevelsDistinct(a, b);
      CancelRight(ra + dayA, ra + dayB, ".txt");
      CancelLeft(ra, dayA, dayB);
    }
  }

  lemma CancelLeft(p: string, x: string, y: string)
    requires p + x == p + y
    ensures x == y
  {
    assert x == (p + x)[|p|..];
    assert y == (p + y)[|p|..];
  }

  lemma CancelRight(x: string, y: string, q: string)
    requires x + q == y + q
    ensures x == y
  {
    assert |x| == |y|;
    assert x == (x + q)[..|x|];
    assert y == (y + q)[..|y|];
  }

  /** Two raw values followed by day texts can only coincide when the raw
      values are equal: no raw value followed by a day spells another. */
  lemma RawValueNotPrefix(a: Level, b: Level, dayA: string, dayB: string)
    requires RawValue(a) + dayA + ".txt" == RawValue(b) + dayB + ".txt"
    ensures RawValue(a) == RawValue(b)
  {
    var s := RawValue(a) + dayA + ".txt";
    var ra, rb := RawValue(a), RawValue(b);
    assert s[0] == ra[0] == rb[0];
    assert s[1] == ra[1] == rb[1];
    assert s[2] == ra[2] == rb[2];
  }

  /** `FileHandlerOutputStream`'s error enum. */
  datatype StreamError = CouldNotCreateFile | FileNotFound | CanNotRemoveFile | FileDeleteFalse

  /** An open stream. Writes go to the end of its file. */
  datatype OutputStream = OutputStream(path: string)

  /** `getDirectoryLog(folderName:)`: the level's file for `day`, or
      `fileNotFound` when it does not exist yet. */
  function GetDirectoryLog(files: map<string, string>, level: Level, day: string): (r: Result<string, StreamError>)
    ensures r.Ok? <==> LevelPath(level, day) in files
    ensures r.Ok? ==> r.value == "fileLog/" + RawValue(level) + day + ".txt"
    ensures r.Err? ==> r.error == FileNotFound
  {
    var path := LevelPath(level, day);
    if path in files then Ok(path) else Err(FileNotFound)
  }

  /** `Logger.getContentLog(fileUrl:)`: the whole text, or "" when it cannot be read. */
  function GetContentLog(files: map<string, string>, unreadable: set<string>, path: string): (text: string)
    ensures path in files && path !in unreadable ==> text == files[path]
    ensures path !in files || path in unreadable ==> text == ""
  {
    if path in files && path !in unreadable then files[path] else ""
  }

  /** Reading back after a write: the file's old text followed by what was
      written. */
  lemma {:induction false} ContentAfterAppend(files: map<string, string>, unreadable: set<string>, path: string, text: string)
    requires path in files && path !in unreadable
    ensures GetContentLog(Appended(files, path, text), unreadable, path) == GetContentLog(files, unreadable, path) + text
  {
  }

  /** A file that `createFile` has just made reads back as empty, and an
      existing file reads back as before. */
  lemma {:induction false} ContentAfterCreate(files: map<string, string>, unreadable: set<string>, path: string)
    ensures path !in files && path !in unreadable ==> GetContentLog(Created(files, path), unreadable, path) == ""
    ensures path in files ==> GetContentLog(Created(files, path), unreadable, path) == GetContentLog(files, unreadable, path)
  {
  }

  /** The file table after `createFile` for a file that may already exist. */
  function Created(files: map<string, string>, path: string): (r: map<string, string>)
    ensures r.Keys == files.Keys + {path}
    ensures path in files ==> r == files
    ensures path !in files ==> r[path] == ""
    ensures forall p :: p in files ==> r[p] == files[p]
  {
    if path in files then files else files[path := ""]
  }

  /** The file table after appending `text` to the file at `path` (a write to
      a file that is gone changes nothing visible). */
  function Appended(files: map<string, string>, path: string, text: string): (r: map<string, string>)
    ensures r.Keys == files.Keys
    ensures path in files ==> r[path] == files[path] + text
    ensures forall p :: p in files && p != path ==> r[p] == files[p]
  {
    if path in files then files[path := files[path] + text] else files
  }

  /** Only appends and creations: every existing file keeps its text as a prefix. */
  predicate Extends(before: map<string, string>, after: map<string, string>) {
    forall p :: p in before ==> p in after && StartsWith(after[p], before[p])
  }

  lemma ExtendsTransitive(a: map<string, string>, b: map<string, string>, c: map<string, string>)
    requires Extends(a, b) && Extends(b, c)
    ensures Extends(a, c)
  {
    forall p | p in a ensures p in c && StartsWith(c[p], a[p]) {
      assert c[p][..|b[p]|][..|a[p]|] == c[p][..|a[p]|];
    }
  }

  lemma CreatedExtends(files: map<string, string>, path: string)
    ensures Extends(files, Created(files, path))
  {
    forall p | p in files ensures StartsWith(Created(files, path)[p], files[p]) {
      assert files[p][..|files[p]|] == files[p];
    }
  }

  lemma AppendedExtends(files: map<string, string>, path: string, text: string)
    ensures Extends(files, Appended(files, path, text))
  {
    var r := Appended(files, path, text);
    forall p | p in files ensures StartsWith(r[p], files[p]) {
      if p == path {
        assert r[p][..|files[p]|] == files[p];
      } else {
        assert files[p][..|files[p]|] == files[p];
      }
    }
  }

  /** The process's view of the documents directory. */
  class FileSystem {
    var files: map<string, string>
    const denied: set<string>
    const unreadable: set<string>

    constructor (files: map<string, string>, denied: set<string>, unreadable: set<string>)
      ensures this.files == files && this.denied == denied && this.unreadable == unreadable
    {
      this.files := files;
      this.denied := denied;
      this.unreadable := unreadable;
    }

    /** `FileHandlerOutputStream.init(folderName:)`: create `fileLog/<name>`
        only if it is absent, never truncate, open it for writing at its end;
        any failure surfaces as `couldNotCreateFile` and changes nothing. */
    method OpenStream(name: string) returns (r: Result<OutputStream, StreamError>)
      modifies this
      ensures LogPath(name) in denied ==> r == Err(CouldNotCreateFile) && files == old(files)
      ensures LogPath(name) !in denied ==> r == Ok(OutputStream(LogPath(name))) && files == Created(old(files), LogPath(name))
      ensures Extends(old(files), files)
    {
      var path := LogPath(name);
      if path in denied {
        r := Err(CouldNotCreateFile);
        ExtendsSelf(files);
      } else {
        CreatedExtends(files, path);
        if path !in files {
          files := files[path := ""];
        }
        r := Ok(OutputStream(path));
      }
    }

    /** `write(_:)`: the UTF-8 encoding of a Swift string cannot fail, so the
        text lands after everything already in the file. */
    method Write(stream: OutputStream, text: string)
      modifies this
      ensures files == Appended(old(files), stream.path, text)
      ensures Extends(old(files), files)
    {
      AppendedExtends(files, stream.path, text);
      if stream.path in files {
        files := files[stream.path := files[stream.path] + text];
      }
    }
  }

  lemma ExtendsSelf(files: map<string, string>)
    ensures Extends(files, files)
  {
    forall p | p in files ensures StartsWith(files[p], files[p]) {
      assert files[p][..|files[p]|] == files[p];
    }
  }

  // ---------------------------------------------------------------------
  // How the source's write actually lands.

  /** A write through a `FileHandle`: the text replaces the file from the
      handle's own offset on, padding with NUL when the offset is past the end.
      The source moves that offset to the end only once, when the stream is
      opened (`seekToEndOfFile` in the initialiser). */
  function WriteThroughHandle(content: string, offset: nat, text: string): (r: string)
    ensures |r| == if offset + |text| > |content| then offset + |text| else |content|
    ensures offset <= |content| ==> r[..offset] == content[..offset]
    ensures offset > |content| ==> r[..|content|] == content
    ensures offset > |content| ==> forall i :: |content| <= i < offset ==> r[i] == '\0'
    ensures r[offset..offset + |text|] == text
    ensures offset + |text| < |content| ==> r[offset + |text|..] == content[offset + |text|..]
  {
    if offset <= |content| then
      content[..offset] + text + (if offset + |text| < |content| then content[offset + |text|..] else "")
    else
      content + seq(offset - |content|, _ => '\0') + text
  }

  /** Through a handle that sits at the end of the file, a write is an append. */
  lemma HandleAtEndAppends(content: string, text: string)
    ensures WriteThroughHandle(content, |content|, text) == content + text
  {
  }

  /** A handle opened on `content` whose file then grew by `other` (through
      another stream) overwrites `other` instead of appending after it: the
      file comes out shorter than an append would leave it and `other`'s
      first character is lost. */
  lemma StaleHandleOverwrites(content: string, other: string, text: string)
    requires |other| > 0 && |text| > 0
    ensures WriteThroughHandle(content + other, |content|, text) != content + other + text
    ensures WriteThroughHandle(content + other, |content|, text)[..|content| + |text|] == content + text
  {
    var r := WriteThroughHandle(content + other, |content|, text);
    assert |r| < |content + other + text|;
    var c := content + other;
    assert c[..|content|] == content;
  }
}

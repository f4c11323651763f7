/** The `Logger` facade of Logger.swift: `Logger.log(folderName:)` builds a
    logger whose file handler may be missing, and the seven per-level methods
    forward to the handler's `log` or do nothing without one. */
module Logging {
  import opened Wrappers
  import opened Levels
  import opened Files
  import opened Metadata
  import opened FileLog

  class Logger {
    const fs: FileSystem
    /** `loggerHandle`: nil when `FileLogHandler.init` threw. */
    const handle: FileLogHandler?

    /** The handler, if any, writes into this logger's file system, and the
        facade gives no way to set its stored metadata, which stays empty. */
    ghost predicate Valid()
      reads this, handle, fs
    {
      handle != null ==> handle.fs == fs && handle.Valid() && handle.metadata == []
    }

    constructor (fs: FileSystem, handle: FileLogHandler?)
      requires handle != null ==> handle.fs == fs && handle.Valid() && handle.metadata == []
      ensures this.fs == fs && this.handle == handle && Valid()
    {
      this.fs := fs;
      this.handle := handle;
    }

    /** What one facade call at `level` leaves in the file system: nothing new
        without a handler, otherwise exactly what the handler's `log` leaves. */
    ghost predicate LoggedAs(level: Level, before: map<string, string>, message: Message,
                             callMetadata: Option<Metadata>, env: Env)
      requires Valid()
      requires callMetadata.Some? ==> DistinctKeys(callMetadata.value)
      reads this, handle, fs
    {
      if handle == null then fs.files == before
      else fs.files == AfterLog(before, fs.denied, fs.unreadable, handle.stream.path, level, env,
                                SelectMetadata(handle.metadata, handle.prettyMetadata, callMetadata),
                                Description(message))
    }

    /** What each facade method does: return at once when the logger has
        no handler, and otherwise pass the call on to the handler's `log`;
        `source` is always nil and plays no part. */
    method Forward(level: Level, message: Message, callMetadata: Option<Metadata>, env: Env)
      requires Valid()
      requires callMetadata.Some? ==> DistinctKeys(callMetadata.value)
      modifies fs
      ensures Valid()
      ensures LoggedAs(level, old(fs.files), message, callMetadata, env)
    {
      if handle != null {
        handle.Log(level, message, callMetadata, env);
      }
    }

    method Trace(message: Message, callMetadata: Option<Metadata>, env: Env)
      requires Valid() && (callMetadata.Some? ==> DistinctKeys(callMetadata.value))
      modifies fs
      ensures Valid() && LoggedAs(Level.Trace, old(fs.files), message, callMetadata, env)
    {
      Forward(Level.Trace, message, callMetadata, env);
    }

    method Debug(message: Message, callMetadata: Option<Metadata>, env: Env)
      requires Valid() && (callMetadata.Some? ==> DistinctKeys(callMetadata.value))
      modifies fs
      ensures Valid() && LoggedAs(Level.Debug, old(fs.files), message, callMetadata, env)
    {
      Forward(Level.Debug, message, callMetadata, env);
    }

    method Info(message: Message, callMetadata: Option<Metadata>, env: Env)
      requires Valid() && (callMetadata.Some? ==> DistinctKeys(callMetadata.value))
      modifies fs
      ensures Valid() && LoggedAs(Level.Info, old(fs.files), message, callMetadata, env)
    {
      Forward(Level.Info, message, callMetadata, env);
    }

    method Notice(message: Message, callMetadata: Option<Metadata>, env: Env)
      requires Valid() && (callMetadata.Some? ==> DistinctKeys(callMetadata.value))
      modifies fs
      ensures Valid() && LoggedAs(Level.Notice, old(fs.files), message, callMetadata, env)
    {
      Forward(Level.Notice, message, callMetadata, env);
    }

    method Warning(message: Message, callMetadata: Option<Metadata>, env: Env)
      requires Valid() && (callMetadata.Some? ==> DistinctKeys(callMetadata.value))
      modifies fs
      ensures Valid() && LoggedAs(Level.Warning, old(fs.files), message, callMetadata, env)
    {
      Forward(Level.Warning, message, callMetadata, env);
    }

    method Error(message: Message, callMetadata: Option<Metadata>, env: Env)
      requires Valid() && (callMetadata.Some? ==> DistinctKeys(callMetadata.value))
      modifies fs
      ensures Valid() && LoggedAs(Level.Error, old(fs.files), message, callMetadata, env)
    {
      Forward(Level.Error, message, callMetadata, env);
    }

    method Critical(message: Message, callMetadata: Option<Metadata>, env: Env)
      requires Valid() && (callMetadata.Some? ==> DistinctKeys(callMetadata.value))
      modifies fs
      ensures Valid() && LoggedAs(Level.Critical, old(fs.files), message, callMetadata, env)
    {
      Forward(Level.Critical, message, callMetadata, env);
    }
  }

  /** `Logger.log(folderName:)`: a logger over a fresh handler on
      `fileLog/<level><day>.txt`, or, when the handler cannot be built, a
      logger without one, whose every facade call then does nothing. */
  method MakeLogger(fs: FileSystem, folderName: Level, day: string) returns (logger: Logger)
    modifies fs
    ensures fresh(logger) && logger.fs == fs && logger.Valid()
    ensures LevelPath(folderName, day) in fs.denied ==> logger.handle == null && fs.files == old(fs.files)
    ensures LevelPath(folderName, day) !in fs.denied ==>
      && logger.handle != null && fresh(logger.handle)
      && logger.handle.stream == OutputStream(LevelPath(folderName, day))
      && fs.files == Created(old(fs.files), LevelPath(folderName, day))
  {
    var r := NewFileLogHandler(fs, RawValue(folderName), day);
    match r
    case Ok(handler) =>
      logger := new Logger(fs, handler);
    case Err(_) =>
      logger := new Logger(fs, null);
  }

  /** Through the facade the stored metadata is empty, so an entry carries
      the call's metadata prettified, or none when the call has none. */
  lemma FacadeMetadata(call: Option<Metadata>)
    requires call.Some? ==> DistinctKeys(call.value)
    ensures SelectMetadata([], Prettify([]), call) == Prettify(call.GetOr([]))
  {
    SelectMetadataIsMerge([], call);
    MergeOfEmpty(call.GetOr([]));
  }

  /** Merging into an empty dictionary keeps the update as it is. */
  lemma {:induction false} MergeOfEmpty(update: Metadata)
    requires DistinctKeys(update)
    ensures Merge([], update) == update
    decreases |update|
  {
    if update != [] {
      MergeOfEmpty(update[1..]);
      assert [update[0]] + update[1..] == update;
    }
  }
}

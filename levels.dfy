/** The pure part of Logger.swift: the seven log levels with their raw values
    and bracketed tags, and the text a `MessageLoger` contributes to an entry. */
module Levels {
  import opened Text

  /** `Logger.LevelLoger`. */
  datatype Level = Trace | Debug | Info | Notice | Warning | Error | Critical

  /** The enum's `String` raw value. */
  function RawValue(level: Level): string {
    match level
    case Trace => "trace"
    case Debug => "debug"
    case Info => "info"
    case Notice => "notice"
    case Warning => "warning"
    case Error => "error"
    case Critical => "critical"
  }

  /** `levelString`, written out case by case as the source does. */
  function LevelString(level: Level): string {
    match level
    case Trace => "[trace]"
    case Debug => "[debug]"
    case Info => "[info]"
    case Notice => "[notice]"
    case Warning => "[warning]"
    case Error => "[error]"
    case Critical => "[critical]"
  }

  /** Every tag is the raw value in square brackets. */
  lemma LevelStringIsBracketedRaw(level: Level)
    ensures LevelString(level) == "[" + RawValue(level) + "]"
  {
  }

  /** Raw values, and therefore tags, tell the levels apart. */
  lemma LevelsDistinct(a: Level, b: Level)
    ensures RawValue(a) == RawValue(b) <==> a == b
    ensures LevelString(a) == LevelString(b) <==> a == b
  {
    LevelStringIsBracketedRaw(a);
    LevelStringIsBracketedRaw(b);
    if RawValue(a) == RawValue(b) {
      assert RawValue(a)[0] == RawValue(b)[0];
      assert |RawValue(a)| == |RawValue(b)|;
    }
    if LevelString(a) == LevelString(b) {
      assert LevelString(a)[1..|LevelString(a)| - 1] == RawValue(a);
      assert LevelString(b)[1..|LevelString(b)| - 1] == RawValue(b);
    }
  }

  /** A tag starts with '[' and holds none of the characters that surround it
      in an entry line, so no tag occurrence can straddle those joints. */
  lemma TagCharacters(level: Level)
    ensures LevelString(level)[0] == '['
    ensures ' ' !in LevelString(level) && ':' !in LevelString(level)
    ensures '\n' !in LevelString(level) && 'u' != LevelString(level)[0]
  {
  }

  /** `MessageLoger`: the text and the call site captured with it. */
  datatype Message = Message(value: string, functionName: string, line: int, fileName: string, column: int)

  /** `MessageLoger.description` (through `log(_:functionName:line:fileName:column:)`)
      in the DEBUG build: `[file] - [Line n] - [func]: text`. */
  function Description(m: Message): (text: string)
    ensures StartsWith(text, "[" + LastPathComponent(m.fileName) + "]")
    ensures |text| >= |m.value| && text[|text| - |m.value|..] == m.value
  {
    "[" + LastPathComponent(m.fileName) + "]"
      + (" - [Line " + IntToString(m.line) + "] - [" + m.functionName + "]: " + m.value)
  }

  /** The description names the source file by its last path component,
      prints the line in decimal so that it reads back as the same number,
      and ends with the message text; the column is not shown. */
  lemma DescriptionFields(m: Message)
    ensures var base := LastPathComponent(m.fileName);
      var digits := IntToString(m.line);
      Description(m) == "[" + base + "]" + (" - [Line " + digits + "] - [" + m.functionName + "]: " + m.value)
      && (base == "/" || '/' !in base)
      && IsDecimal(digits) && ParseInt(digits) == m.line
    ensures forall c: int :: Description(m.(column := c)) == Description(m)
  {
    LastPathComponentShape(m.fileName);
    ParseIntToString(m.line);
  }

  /** For a call site `dir/File.swift` the description starts with `[File.swift]`. */
  lemma DescriptionNamesFile(m: Message, dir: string, file: string)
    requires file != [] && '/' !in file
    requires m.fileName == dir + "/" + file
    ensures StartsWith(Description(m), "[" + file + "]")
  {
    LastPathComponentOfJoin(dir, file);
    var p := "[" + file + "]";
    var rest := " - [Line " + IntToString(m.line) + "] - [" + m.functionName + "]: " + m.value;
    assert Description(m) == p + rest;
    assert (p + rest)[..|p|] == p;
  }
}

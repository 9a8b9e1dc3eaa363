/** The level filter and channel choice of Assets/Game/Scripts/Core/LogModule.cs.
    Message text, timestamps and the file path are not modelled: a log call is
    reduced to what it emits — a console line on one of Unity's three channels,
    a file append, or the console error that reports a failed append. */
module Logging {

  datatype LogLevel = Debug | Info | Warning | Error | Fatal

  /** The enum's underlying value. */
  function Rank(l: LogLevel): (r: nat)
    ensures r < 5
  {
    match l
    case Debug => 0
    case Info => 1
    case Warning => 2
    case Error => 3
    case Fatal => 4
  }

  /** `a < b` on the enum. */
  predicate Below(a: LogLevel, b: LogLevel) {
    Rank(a) < Rank(b)
  }

  /** `UnityEngine.Debug.Log`, `LogWarning` and `LogError`. */
  datatype Channel = Normal | WarningChannel | ErrorChannel

  datatype Emission =
    | Console(channel: Channel, level: LogLevel)
    | Appended(level: LogLevel)
    | AppendFailed

  /** The `switch` of `InternalLog`. */
  function ChannelOf(level: LogLevel): (c: Channel)
    ensures c == Normal <==> Rank(level) <= 1
    ensures c == WarningChannel <==> level == Warning
    ensures c == ErrorChannel <==> Rank(level) >= 3
  {
    match level
    case Debug => Normal
    case Info => Normal
    case Warning => WarningChannel
    case Error => ErrorChannel
    case Fatal => ErrorChannel
  }

  /** What `InternalLog(level, ...)` emits under threshold `threshold` and file
      switch `toFile`; `appendOk` is whether `File.AppendAllText` succeeds. */
  function Emit(level: LogLevel, threshold: LogLevel, toFile: bool, appendOk: bool): (r: seq<Emission>)
    ensures Below(level, threshold) <==> r == []
    ensures r != [] ==> r[0] == Console(ChannelOf(level), level)
    ensures r != [] ==> |r| == (if toFile then 2 else 1)
    ensures (exists i :: 0 <= i < |r| && r[i] == Appended(level)) ==> toFile && appendOk
  {
    if Below(level, threshold) then []
    else [Console(ChannelOf(level), level)] + (if !toFile then [] else if appendOk then [Appended(level)] else [AppendFailed])
  }

  const DefaultLevel: LogLevel := Debug

  // ---------------------------------------------------------------------------
  // Properties
  // ---------------------------------------------------------------------------

  /** The levels are totally ordered, Debug lowest and Fatal highest. */
  lemma LevelsOrdered(a: LogLevel, b: LogLevel, c: LogLevel)
    ensures !Below(a, a)
    ensures a != b ==> Below(a, b) != Below(b, a)
    ensures Below(a, b) && Below(b, c) ==> Below(a, c)
    ensures Below(Debug, Info) && Below(Info, Warning) && Below(Warning, Error) && Below(Error, Fatal)
    ensures !Below(a, Debug) && !Below(Fatal, a)
  {
  }

  /** Under the default threshold every level is written to the console. */
  lemma DefaultPassesAll(level: LogLevel, toFile: bool, appendOk: bool)
    ensures Emit(level, DefaultLevel, toFile, appendOk) != []
  {
  }

  /** A file append appears only with file logging on, and a failed append ends in
      a console error instead of an exception. */
  lemma FileOnlyWhenEnabled(level: LogLevel, threshold: LogLevel, appendOk: bool)
    ensures forall e :: e in Emit(level, threshold, false, appendOk) ==> e.Console?
    ensures !Below(level, threshold) ==>
      Emit(level, threshold, true, appendOk) == [Console(ChannelOf(level), level), if appendOk then Appended(level) else AppendFailed]
  {
  }

  // ---------------------------------------------------------------------------
  // The static helpers
  // ---------------------------------------------------------------------------

  /** What `LogModule.Instance` consults: no `GameFramework.Instance`, or one whose
      registry has or lacks the log module. */
  datatype Host = NoFramework | Hosted(hasLogModule: bool)

  /** The result of evaluating `LogModule.Instance`, within `fuel` nested lookups. */
  datatype Lookup = Found | Null | Exhausted

  /** `LogModule.Instance` as written: `GameFramework.Instance?.GetModule<LogModule>()`,
      where a missing module makes `GetModule` call `LogModule.Error`, which evaluates
      `LogModule.Instance` again. `fuel` bounds the nesting. */
  function InstanceAsWritten(host: Host, fuel: nat): Lookup
    decreases fuel
  {
    match host
    case NoFramework => Null
    case Hosted(has) =>
      if has then Found
      else if fuel == 0 then Exhausted
      else InstanceAsWritten(host, fuel - 1)
  }

  /** With a framework that lacks the log module, the lookup never returns: every
      bound on the nesting is exhausted. */
  lemma {:induction false} InstanceAsWrittenDiverges(fuel: nat)
    ensures InstanceAsWritten(Hosted(false), fuel) == Exhausted
    decreases fuel
  {
    if fuel > 0 {
      InstanceAsWrittenDiverges(fuel - 1);
    }
  }

  /** `LogModule.Instance` as intended: null unless a framework with a log module exists. */
  function Instance(host: Host): (r: Lookup)
    ensures r == Found <==> host == Hosted(true)
    ensures r != Exhausted
  {
    if host == Hosted(true) then Found else Null
  }

  /** The intended lookup agrees with the written one wherever the written one returns. */
  lemma InstanceAgrees(host: Host, fuel: nat)
    requires host != Hosted(false)
    ensures InstanceAsWritten(host, fuel) == Instance(host)
  {
  }

  /** `Debug`, `Log`, `Warning`, `Error` and `Fatal`: `Instance?.InternalLog(level, message)`. */
  function Helper(host: Host, level: LogLevel, threshold: LogLevel, toFile: bool, appendOk: bool): (r: seq<Emission>)
    ensures Instance(host) != Found ==> r == []
    ensures Instance(host) == Found ==> r == Emit(level, threshold, toFile, appendOk)
  {
    if Instance(host) == Found then Emit(level, threshold, toFile, appendOk) else []
  }

  // ---------------------------------------------------------------------------
  // The class
  // ---------------------------------------------------------------------------

  class LogModule {
    var logLevel: LogLevel
    var logToFile: bool
    /** What has been written so far. */
    var emitted: seq<Emission>

    constructor ()
      ensures logLevel == DefaultLevel && !logToFile && emitted == []
    {
      logLevel, logToFile, emitted := DefaultLevel, false, [];
    }

    method SetLogLevel(level: LogLevel)
      modifies this
      ensures logLevel == level && logToFile == old(logToFile) && emitted == old(emitted)
    {
      logLevel := level;
    }

    method SetLogToFile(enable: bool)
      modifies this
      ensures logToFile == enable && logLevel == old(logLevel) && emitted == old(emitted)
    {
      logToFile := enable;
    }

    /** `InternalLog(level, message)`; `appendOk` is whether the file append succeeds. */
    method InternalLog(level: LogLevel, appendOk: bool)
      modifies this
      ensures emitted == old(emitted) + Emit(level, logLevel, logToFile, appendOk)
      ensures logLevel == old(logLevel) && logToFile == old(logToFile)
    {
      if Below(level, logLevel) {
        assert emitted + [] == emitted;
        return;
      }
      var channel: Channel;
      match level {
        case Debug => channel := Normal;
        case Info => channel := Normal;
        case Warning => channel := WarningChannel;
        case Error => channel := ErrorChannel;
        case Fatal => channel := ErrorChannel;
      }
      emitted := emitted + [Console(channel, level)];
      if logToFile {
        if appendOk {
          emitted := emitted + [Appended(level)];
        } else {
          emitted := emitted + [AppendFailed];
        }
      } else {
        assert emitted + [] == emitted;
      }
    }
  }
}

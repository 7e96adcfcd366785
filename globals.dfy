/**
 * Process-wide state the core reads and writes: the global `settings` object and the
 * logger. Both are modelled as explicit objects handed to the operations that use them.
 */
module Globals {

  datatype Verbosity = LvlError | LvlInfo | LvlDebug

  datatype LogEntry =
    /** A formatted message (logError, printError, debug). */
    | Message(level: Verbosity, text: string)
    /** printMissing(store, paths, level): a report on the given batch of targets. */
    | MissingReport(level: Verbosity, targets: seq<string>)

  /** The subset of `settings` the core uses. */
  class Settings {
    var readOnlyMode: bool
    var printMissing: bool
    var tryFallback: bool

    /** Nix's defaults: read-write, print missing paths, no fallback. */
    constructor ()
      ensures !readOnlyMode && printMissing && !tryFallback
    {
      readOnlyMode := false;
      printMissing := true;
      tryFallback := false;
    }
  }

  class Logger {
    var entries: seq<LogEntry>

    constructor ()
      ensures entries == []
    {
      entries := [];
    }

    method Log(e: LogEntry)
      modifies this
      ensures entries == old(entries) + [e]
    {
      entries := entries + [e];
    }
  }
}

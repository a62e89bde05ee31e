/** The leveled logger of mtc_log.hh. */
module MtcLog {

  const PANIC: int := 0
  const VERBOSE: int := 1
  const DEBUG: int := 2

  /** loglvl_t: the three levels. */
  type Level = l: int | PANIC <= l <= DEBUG

  /** The prefix written before a message of each level. */
  const LOG_STRINGS: seq<string> := ["ERROR: ", "INFO : ", "DEBUG: "]

  /** The level set_log_level stores for a requested level l. */
  function Clamp(l: int): (r: Level)
    ensures l < PANIC ==> r == PANIC
    ensures l > DEBUG ==> r == DEBUG
    ensures PANIC <= l <= DEBUG ==> r == l
  {
    if l < PANIC then PANIC else if l > DEBUG then DEBUG else l
  }

  /** What a panic amounts to: the text it writes to stderr and the exit status. */
  datatype Exit = Exit(stderr: string, status: int)

  class Log {
    var level: Level

    /** A fresh logger reports panics only. */
    constructor ()
      ensures level == PANIC
    {
      level := PANIC;
    }

    method SetLogLevel(l: int)
      modifies this
      ensures level == Clamp(l)
    {
      if l < PANIC {
        level := PANIC;
      } else if l > DEBUG {
        level := DEBUG;
      } else {
        level := l;
      }
    }

    predicate Verbose()
      reads this
    {
      level > PANIC
    }

    /** What _log writes to stderr for a message `msg` of level `msgLevel`. */
    function Line(msgLevel: Level, msg: string): (r: string)
      reads this
      ensures r != [] <==> msgLevel <= level
      ensures r != [] ==> r == LOG_STRINGS[msgLevel] + msg
    {
      if level < msgLevel then [] else LOG_STRINGS[msgLevel] + msg
    }

    /** panic: log at PANIC level, then exit with status 1; it never returns. */
    function Panic(msg: string): (r: Exit)
      reads this
      ensures r.status == 1
      ensures r.stderr == "ERROR: " + msg
    {
      Exit(Line(PANIC, msg), 1)
    }
  }

  /** Clamping is idempotent: an already stored level is stored unchanged. */
  lemma ClampKeepsLevels(l: Level)
    ensures Clamp(l) == l
  {
  }

  /** Clamping is monotone: a higher request never yields a lower level. */
  lemma ClampMonotone(a: int, b: int)
    requires a <= b
    ensures Clamp(a) <= Clamp(b)
  {
  }

  /** verbose() holds exactly when warnings are shown. */
  lemma VerboseShowsWarnings(log: Log, msg: string)
    ensures log.Verbose() <==> log.Line(VERBOSE, msg) != []
  {
  }

  /** Debug text appears only at DEBUG level; panic text always appears. */
  lemma DebugOnlyAtDebug(log: Log, msg: string)
    ensures log.Line(DEBUG, msg) != [] <==> log.level == DEBUG
    ensures log.Line(PANIC, msg) == "ERROR: " + msg
  {
  }
}

/**
 * The daily rotating file handler of lo99ing/handlers.py:55-114 and
 * `enable_file` (lo99ing/handlers.py:153-164). Time is counted in whole
 * epoch seconds (UTC); the handler's open stream is described by the name of
 * the file it writes to.
 */
module Rotation {
  import opened Wrappers
  import opened Calendar
  import opened Handlers
  import opened Registry
  import opened Strings

  /** `DATE_FORMAT`, which stands in for each '*' of a pattern. */
  const DateFormat: string := "%Y%m%d"

  /** The keyword arguments the handler refuses, in the order they are checked. */
  const RefusedArgs: seq<string> := ["when", "utc", "backupCount", "atTime"]

  /**
   * Why a file handler cannot be built: `ValueError` for a pattern without
   * '*', lo99ing's `TypeError` naming a refused keyword argument, or the
   * `TypeError` of the base constructor for keywords it does not take
   * (Python names one of them).
   */
  datatype HandlerError = NoPlaceholder(pattern: string) | UnsupportedArg(name: string) | UnexpectedArgs(names: set<string>)

  /** The keyword arguments `TimedRotatingFileHandler.__init__` (Python 3.6) takes besides those lo99ing passes or refuses. */
  const TimedArgs: set<string> := {"interval", "encoding", "delay"}

  /** The keyword arguments `logging.FileHandler.__init__` (Python 3.6) takes besides the file name. */
  const FileArgs: set<string> := {"mode", "encoding", "delay"}

  /** `s.replace('*', repl)`. */
  function ReplaceStar(s: string, repl: string): (r: string)
    ensures '*' !in s ==> r == s
    ensures |repl| >= 1 ==> |r| >= |s|
    ensures |repl| >= 2 && '*' in s ==> |r| > |s|
  {
    if s == [] then []
    else (if s[0] == '*' then repl else [s[0]]) + ReplaceStar(s[1..], repl)
  }

  /** The first refused keyword, in checking order, that the caller passed. */
  function FirstRefused(kwargs: set<string>, keys: seq<string>): (r: Option<string>)
    ensures r.Some? ==> r.value in kwargs && r.value in keys
    ensures r.None? <==> forall i :: 0 <= i < |keys| ==> keys[i] !in kwargs
    ensures r.Some? ==> exists i :: 0 <= i < |keys| && keys[i] == r.value &&
                                    forall j :: 0 <= j < i ==> keys[j] !in kwargs
  {
    if keys == [] then None
    else if keys[0] in kwargs then Some(keys[0])
    else
      var r := FirstRefused(kwargs, keys[1..]);
      assert forall i :: 1 <= i < |keys| ==> keys[i] == keys[1..][i - 1];
      if r.Some? then
        var i :| 0 <= i < |keys[1..]| && keys[1..][i] == r.value &&
                 forall j :: 0 <= j < i ==> keys[1..][j] !in kwargs;
        assert keys[i + 1] == r.value;
        r
      else r
  }

  /**
   * The checks of `DailyRotatingFileHandler.__init__`: the pattern must change
   * when its '*'s are replaced, then none of the refused keywords may be
   * passed. On success, the strftime pattern the handler keeps.
   */
  function ValidatePattern(pattern: string, kwargs: set<string>): (r: Result<string, HandlerError>)
    ensures '*' !in pattern ==> r == Failure(NoPlaceholder(pattern))
    ensures '*' in pattern && r.Failure? ==>
              r.error.UnsupportedArg? && r.error.name in kwargs && r.error.name in RefusedArgs
    ensures r.Success? <==> '*' in pattern && forall k :: k in RefusedArgs ==> k !in kwargs
    ensures r.Success? ==> r.value == ReplaceStar(pattern, DateFormat)
  {
    var fmt := ReplaceStar(pattern, DateFormat);
    if fmt == pattern then Failure(NoPlaceholder(fmt))
    else
      match FirstRefused(kwargs, RefusedArgs)
      case Some(k) => Failure(UnsupportedArg(k))
      case None => Success(fmt)
  }

  /**
   * All of `DailyRotatingFileHandler.__init__`'s argument checks: lo99ing's
   * own, then the base constructor's refusal of keywords it does not take.
   */
  function DailyHandlerArgs(pattern: string, kwargs: set<string>): (r: Result<string, HandlerError>)
    ensures ValidatePattern(pattern, kwargs).Failure? ==> r == Failure(ValidatePattern(pattern, kwargs).error)
    ensures ValidatePattern(pattern, kwargs).Success? && !(kwargs <= TimedArgs) ==>
              r == Failure(UnexpectedArgs(kwargs - TimedArgs))
    ensures r.Success? <==> '*' in pattern && kwargs <= TimedArgs
    ensures r.Success? ==> r.value == ReplaceStar(pattern, DateFormat)
  {
    match ValidatePattern(pattern, kwargs)
    case Failure(e) => Failure(e)
    case Success(fmt) =>
      if kwargs <= TimedArgs then Success(fmt) else Failure(UnexpectedArgs(kwargs - TimedArgs))
  }

  /** The value of one strftime directive letter among those a pattern can hold after validation. */
  function Directive(letter: char, d: Date): string {
    if letter == 'Y' then Digits(d.year, 4)
    else if letter == 'm' then Digits(d.month, 2)
    else if letter == 'd' then Digits(d.day, 2)
    else "%"
  }

  /** `date.strftime(fmt)` for the directives `%Y`, `%m`, `%d` and `%%`; other characters are copied. */
  function Strftime(fmt: string, d: Date): string
    decreases |fmt|
  {
    if fmt == [] then []
    else if |fmt| >= 2 && fmt[0] == '%' && fmt[1] in "Ymd%" then Directive(fmt[1], d) + Strftime(fmt[2..], d)
    else [fmt[0]] + Strftime(fmt[1..], d)
  }

  /** `get_filename_for_time(dt)` for the date of epoch second `t`. */
  function FileNameFor(fmt: string, t: nat): string {
    Strftime(fmt, DateOf(t))
  }

  lemma StrftimeDirective(letter: char, rest: string, d: Date)
    requires letter in "Ymd%"
    ensures Strftime(['%', letter] + rest, d) == Directive(letter, d) + Strftime(rest, d)
  {
    assert (['%', letter] + rest)[2..] == rest;
  }

  lemma StrftimeLiteral(c: char, rest: string, d: Date)
    requires c != '%'
    ensures Strftime([c] + rest, d) == [c] + Strftime(rest, d)
  {
    assert ([c] + rest)[1..] == rest;
  }

  /** `DATE_FORMAT` renders a date as YYYYMMDD. */
  lemma StrftimeDateFormat(rest: string, d: Date)
    ensures Strftime(DateFormat + rest, d) == YYYYMMDD(d) + Strftime(rest, d)
  {
    assert DateFormat + rest == ['%', 'Y'] + (['%', 'm'] + (['%', 'd'] + rest));
    StrftimeDirective('Y', ['%', 'm'] + (['%', 'd'] + rest), d);
    StrftimeDirective('m', ['%', 'd'] + rest, d);
    StrftimeDirective('d', rest, d);
  }

  /**
   * For a pattern without other directives, the file name of a date is the
   * pattern with every '*' replaced by the date as YYYYMMDD.
   */
  lemma {:induction false} FileNameReplacesStars(pattern: string, d: Date)
    requires '%' !in pattern
    ensures Strftime(ReplaceStar(pattern, DateFormat), d) == ReplaceStar(pattern, YYYYMMDD(d))
  {
    if pattern != [] {
      var rest := ReplaceStar(pattern[1..], DateFormat);
      assert '%' !in pattern[1..] by {
        forall i | 0 <= i < |pattern[1..]| ensures pattern[1..][i] != '%' {
          assert pattern[1..][i] == pattern[i + 1];
        }
      }
      FileNameReplacesStars(pattern[1..], d);
      if pattern[0] == '*' {
        StrftimeDateFormat(rest, d);
      } else {
        assert pattern[0] != '%';
        StrftimeLiteral(pattern[0], rest, d);
      }
    }
  }

  lemma {:induction false} ReplaceStarAt(s: string, repl: string, i: nat)
    requires i < |s| && s[i] == '*' && '*' !in s[..i]
    ensures ReplaceStar(s, repl) == s[..i] + repl + ReplaceStar(s[i + 1..], repl)
  {
    if i > 0 {
      assert '*' !in s[1..][..i - 1] by {
        assert s[1..][..i - 1] == s[1..i];
      }
      ReplaceStarAt(s[1..], repl, i - 1);
      assert s[..i] == [s[0]] + s[1..][..i - 1];
      assert s[1..][i..] == s[i + 1..];
    }
  }

  /** Different dates give different file names, so each day is logged to a file of its own. */
  lemma FileNamesDiffer(pattern: string, d1: Date, d2: Date)
    requires '*' in pattern
    requires ValidDate(d1) && d1.year <= 9999 && ValidDate(d2) && d2.year <= 9999
    requires d1 != d2
    ensures ReplaceStar(pattern, YYYYMMDD(d1)) != ReplaceStar(pattern, YYYYMMDD(d2))
  {
    var first := Find(pattern, '*');
    ReplaceStarAt(pattern, YYYYMMDD(d1), first);
    ReplaceStarAt(pattern, YYYYMMDD(d2), first);
    DateStringRoundTrip(d1);
    DateStringRoundTrip(d2);
    var n1 := ReplaceStar(pattern, YYYYMMDD(d1));
    var n2 := ReplaceStar(pattern, YYYYMMDD(d2));
    assert n1[first..first + 8] == YYYYMMDD(d1);
    assert n2[first..first + 8] == YYYYMMDD(d2);
    if n1 == n2 {
      DateStringInjective(d1, d2);
    }
  }

  /** `computeRollover` for `when='MIDNIGHT'` and `utc=True`: the next UTC midnight. */
  function NextMidnight(t: nat): (r: nat)
    ensures t < r <= t + SecondsPerDay
    ensures r % SecondsPerDay == 0
  {
    t - t % SecondsPerDay + SecondsPerDay
  }

  /** The next UTC midnight falls on the following day. */
  lemma NextMidnightIsNextDay(t: nat)
    ensures DayNumber(DateOf(NextMidnight(t))) == DayNumber(DateOf(t)) + 1
  {
  }

  /**
   * A rollover at the next midnight moves to a file of a new name: the name of
   * the new day differs from that of the day before.
   */
  lemma RolloverChangesFile(pattern: string, t: nat)
    requires '*' in pattern && '%' !in pattern
    requires DateOf(NextMidnight(t)).year <= 9999
    ensures FileNameFor(ReplaceStar(pattern, DateFormat), NextMidnight(t)) !=
            FileNameFor(ReplaceStar(pattern, DateFormat), t)
  {
    var fmt := ReplaceStar(pattern, DateFormat);
    var d1, d2 := DateOf(NextMidnight(t)), DateOf(t);
    NextMidnightIsNextDay(t);
    assert d1 != d2;
    assert d2.year <= d1.year by {
      if d2.year > d1.year {
        DayNumberOrdered(d1, d2);
      }
    }
    assert FileNameFor(fmt, NextMidnight(t)) == ReplaceStar(pattern, YYYYMMDD(d1)) by {
      FileNameReplacesStars(pattern, d1);
    }
    assert FileNameFor(fmt, t) == ReplaceStar(pattern, YYYYMMDD(d2)) by {
      FileNameReplacesStars(pattern, d2);
    }
    FileNamesDiffer(pattern, d1, d2);
  }

  /**
   * The instant `doRollover` schedules: `computed`, pushed forward a whole
   * number of intervals until it is after `now`.
   */
  function NextRollover(computed: int, now: int, interval: nat): (r: int)
    requires interval > 0
    decreases if computed <= now then now - computed + 1 else 0
  {
    if computed <= now then NextRollover(computed + interval, now, interval) else computed
  }

  /** The scheduled instant is after `now`, a whole number of intervals after `computed`, and the first such. */
  lemma {:induction false} NextRolloverSpec(computed: int, now: int, interval: nat)
    requires interval > 0
    ensures NextRollover(computed, now, interval) > now
    ensures exists k: nat :: NextRollover(computed, now, interval) == computed + k * interval
    ensures NextRollover(computed, now, interval) == computed || NextRollover(computed, now, interval) - interval <= now
    decreases if computed <= now then now - computed + 1 else 0
  {
    var r := NextRollover(computed, now, interval);
    if computed <= now {
      NextRolloverSpec(computed + interval, now, interval);
      var k: nat :| r == computed + interval + k * interval;
      assert r == computed + (k + 1) * interval;
    } else {
      assert r == computed + 0 * interval;
    }
  }

  /** With the next midnight as `computeRollover`, `doRollover` schedules exactly that midnight. */
  lemma NextRolloverAtMidnight(now: nat)
    ensures NextRollover(NextMidnight(now), now, SecondsPerDay) == NextMidnight(now)
  {
  }

  class DailyRotatingFileHandler {
    /** The pattern with each '*' replaced by `DATE_FORMAT`. */
    const filenamePattern: string
    /** Seconds between rollovers: one day for `when='MIDNIGHT'`. */
    const interval: nat := SecondsPerDay
    var baseFilename: string
    var mode: string
    /** The file the open stream writes to, if a stream is open. */
    var stream: Option<string>
    var rolloverAt: int

    /**
     * The state `__init__` leaves after successful `DailyHandlerArgs`: the
     * file of the current UTC date open for appending, and the first rollover
     * at `computed`, which `TimedRotatingFileHandler.__init__` takes from
     * `computeRollover` of the file's modification time when the file exists
     * and of the current time otherwise.
     */
    constructor (fmt: string, now: nat, computed: int)
      ensures filenamePattern == fmt
      ensures baseFilename == FileNameFor(fmt, now) && mode == "a"
      ensures stream == Some(baseFilename) && rolloverAt == computed
    {
      filenamePattern := fmt;
      baseFilename := FileNameFor(fmt, now);
      mode := "a";
      stream := Some(FileNameFor(fmt, now));
      rolloverAt := computed;
    }

    /**
     * `doRollover()`: close the current file, open the file of the date of
     * `now` for appending, and schedule the next rollover after `currentTime`
     * starting from `computed` (`computeRollover(currentTime)`).
     */
    method DoRollover(now: nat, currentTime: int, computed: int)
      modifies this
      ensures baseFilename == FileNameFor(filenamePattern, now) && mode == "a"
      ensures stream == Some(baseFilename)
      ensures rolloverAt == NextRollover(computed, currentTime, interval)
      ensures rolloverAt > currentTime && exists k: nat :: rolloverAt == computed + k * interval
    {
      if stream.Some? {
        stream := None;
      }
      baseFilename := FileNameFor(filenamePattern, now);
      mode := "a";
      stream := Some(baseFilename);
      var newRolloverAt := computed;
      while newRolloverAt <= currentTime
        invariant NextRollover(newRolloverAt, currentTime, interval) == NextRollover(computed, currentTime, interval)
        decreases currentTime - newRolloverAt
      {
        newRolloverAt := newRolloverAt + interval;
      }
      rolloverAt := newRolloverAt;
      NextRolloverSpec(computed, currentTime, interval);
    }
  }

  /**
   * `DailyRotatingFileHandler(pattern, **kwargs)`: the checks, then a handler
   * on the file of the date of `now`.
   */
  method NewDailyRotatingFileHandler(pattern: string, kwargs: set<string>, now: nat, computed: int)
    returns (r: Result<DailyRotatingFileHandler, HandlerError>)
    ensures r.Failure? <==> DailyHandlerArgs(pattern, kwargs).Failure?
    ensures r.Failure? ==> r.error == DailyHandlerArgs(pattern, kwargs).error
    ensures r.Success? ==>
              fresh(r.value) && r.value.filenamePattern == DailyHandlerArgs(pattern, kwargs).value &&
              r.value.baseFilename == FileNameFor(r.value.filenamePattern, now) &&
              r.value.stream == Some(r.value.baseFilename) && r.value.rolloverAt == computed
  {
    var v := DailyHandlerArgs(pattern, kwargs);
    if v.Failure? {
      return Failure(v.error);
    }
    var h := new DailyRotatingFileHandler(v.value, now, computed);
    r := Success(h);
  }

  /**
   * The handler `enable_file` installs: the caller's handler when given,
   * else a daily rotating handler (when `rotate`) or a plain file handler;
   * either constructor rejects keywords it does not take.
   */
  function FileHandlerFor(filename: string, fileHandler: Option<Handler>, rotate: bool, kwargs: set<string>)
    : (r: Result<Handler, HandlerError>)
    ensures fileHandler.Some? ==> r == Success(fileHandler.value)
    ensures fileHandler.None? && !rotate && kwargs <= FileArgs ==> r == Success(Handler(PlainFile(filename), None))
    ensures fileHandler.None? && !rotate && !(kwargs <= FileArgs) ==> r == Failure(UnexpectedArgs(kwargs - FileArgs))
    ensures fileHandler.None? && rotate && DailyHandlerArgs(filename, kwargs).Failure? ==>
              r == Failure(DailyHandlerArgs(filename, kwargs).error)
    ensures fileHandler.None? && rotate && DailyHandlerArgs(filename, kwargs).Success? ==>
              r == Success(Handler(DailyFile(DailyHandlerArgs(filename, kwargs).value), None))
  {
    if fileHandler.Some? then Success(fileHandler.value)
    else if !rotate then
      if kwargs <= FileArgs then Success(Handler(PlainFile(filename), None)) else Failure(UnexpectedArgs(kwargs - FileArgs))
    else
      match DailyHandlerArgs(filename, kwargs)
      case Failure(e) => Failure(e)
      case Success(fmt) => Success(Handler(DailyFile(fmt), None))
  }

  /**
   * `enable_file(filename, logger, file_handler, rotate, **kwargs)`; a refused
   * pattern changes nothing. `enable_file` itself returns `None`: `r` only
   * records which handler was installed or which error was raised. A handler
   * built here is a new object, so `addHandler` always attaches it, while a
   * handler the caller passes is attached only when it is not attached yet.
   */
  method EnableFile(host: Host, name: string, filename: string, fileHandler: Option<Handler>, rotate: bool,
                    kwargs: set<string>)
    returns (r: Result<Handler, HandlerError>)
    requires name in host.loggers && host.loggers[name].Live?
    modifies host
    ensures r == FileHandlerFor(filename, fileHandler, rotate, kwargs)
    ensures r.Failure? ==> host.loggers == old(host.loggers)
    ensures r.Success? && fileHandler.Some? ==>
              host.loggers == old(host.loggers)[name := old(host.loggers)[name].(
                handlers := AttachHandler(old(host.loggers)[name].handlers, r.value))]
    ensures r.Success? && fileHandler.None? ==>
              host.loggers == old(host.loggers)[name := old(host.loggers)[name].(
                handlers := old(host.loggers)[name].handlers + [Formatted(r.value)])]
  {
    r := FileHandlerFor(filename, fileHandler, rotate, kwargs);
    if r.Success? {
      if fileHandler.Some? {
        host.AddLoggingHandler(name, r.value);
      } else {
        host.AddNewLoggingHandler(name, r.value);
      }
    }
  }
}

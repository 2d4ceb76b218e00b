/**
 * The logger side of lo99ing/logger.py: prefix adapters and their chaining,
 * child names, the argument mapping of `Lo99er._log`, the exception object
 * that `Lo99er.exception` reports, and override forwarding.
 *
 * A logger-like object is either a logger of the host registry or a prefix
 * adapter around another logger-like object. An adapter's `extra['prefix']`
 * is written once, when it is built, so adapters are values here.
 *
 * Logging through an adapter follows the `logging` module in which
 * `LoggerAdapter.log` hands the processed message to `self.logger._log`.
 * An adapter's `_log` is its wrapped object's `_log`, so the message reaches
 * the underlying logger with the outermost adapter's prefix only; that
 * prefix already holds the prefixes of the adapters inside it.
 */
module Logger {
  import opened Wrappers
  import opened Misc
  import opened Registry
  import Levels
  import LevelApi

  /**
   * A logger or an adapter chain over one. A logger's `name` is its key in
   * the registry, not its `Logger.name`: the two differ only for the root,
   * which is keyed "" and is named "root".
   */
  datatype LoggerLike =
    | Base(name: string, isLo99er: bool)
    | Adapter(logger: LoggerLike, prefix: string)

  /** `self.logger.extra['prefix']` when an adapter is built: a logger has no `extra`, which gives "". */
  function InitialPrefix(l: LoggerLike): string {
    if l.Adapter? then l.prefix else ""
  }

  /**
   * `prefixed(logger, prefix)`, a `_PrefixedAdapter(logger, {'prefix': prefix})`:
   * its prefix is the wrapped object's prefix, the new text, then one space.
   */
  function Prefixed(l: LoggerLike, increment: string): (a: LoggerLike)
    ensures a.Adapter? && a.logger == l && BaseOf(a) == BaseOf(l)
  {
    Adapter(l, InitialPrefix(l) + increment + " ")
  }

  /** A new adapter's prefix starts with the wrapped object's prefix, then holds the new text, then ends with one space. */
  lemma PrefixedLayout(l: LoggerLike, increment: string)
    ensures |Prefixed(l, increment).prefix| == |InitialPrefix(l)| + |increment| + 1
    ensures Prefixed(l, increment).prefix[..|InitialPrefix(l)|] == InitialPrefix(l)
    ensures Prefixed(l, increment).prefix[|InitialPrefix(l)|..|InitialPrefix(l)| + |increment|] == increment
    ensures Prefixed(l, increment).prefix[|InitialPrefix(l)| + |increment|] == ' '
  {
    var p := Prefixed(l, increment).prefix;
    assert p[..|InitialPrefix(l)|] == InitialPrefix(l);
    assert p[|InitialPrefix(l)|..|InitialPrefix(l)| + |increment|] == increment;
  }

  /** The logger at the bottom of a chain of adapters. */
  function BaseOf(l: LoggerLike): (b: LoggerLike)
    ensures b.Base?
    ensures l.Base? ==> b == l
  {
    if l.Base? then l else BaseOf(l.logger)
  }

  /** `process(msg, kwargs)` of an adapter, or the message itself for a logger. */
  function Message(l: LoggerLike, msg: string): (r: string)
    ensures l.Base? ==> r == msg
    ensures l.Adapter? ==> |r| == |l.prefix| + |msg| && r[|l.prefix|..] == msg && r[..|l.prefix|] == l.prefix
  {
    if l.Adapter? then l.prefix + msg else msg
  }

  /** Each text followed by one space: the prefix a chain of adapters accumulates. */
  function Spaced(increments: seq<string>): string {
    if increments == [] then "" else Spaced(increments[..|increments| - 1]) + increments[|increments| - 1] + " "
  }

  /** Wraps `l` in one adapter per text, innermost first. */
  function Chain(l: LoggerLike, increments: seq<string>): (r: LoggerLike)
    decreases |increments|
  {
    if increments == [] then l else Prefixed(Chain(l, increments[..|increments| - 1]), increments[|increments| - 1])
  }

  /** Adapters nest to any depth: a chain over a logger carries each text followed by a space, innermost first. */
  lemma {:induction false} ChainPrefix(b: LoggerLike, increments: seq<string>)
    requires b.Base? && increments != []
    ensures Chain(b, increments).Adapter?
    ensures Chain(b, increments).prefix == Spaced(increments)
    ensures BaseOf(Chain(b, increments)) == b
    decreases |increments|
  {
    var front := increments[..|increments| - 1];
    if front != [] {
      ChainPrefix(b, front);
    }
  }

  /** `prefixed(prefixed(L, p1), p2)` logs `p1 + " " + p2 + " " + msg` through `L`. */
  lemma TwoPrefixes(b: LoggerLike, p1: string, p2: string, msg: string)
    requires b.Base?
    ensures Message(Prefixed(Prefixed(b, p1), p2), msg) == p1 + " " + p2 + " " + msg
    ensures BaseOf(Prefixed(Prefixed(b, p1), p2)) == b
  {
    var a1 := Prefixed(b, p1);
    assert a1.prefix == p1 + " ";
    var a2 := Prefixed(a1, p2);
    assert a2.prefix == p1 + " " + p2 + " ";
  }

  /** `Lo99er.getChild(suffix)`'s name: the suffix alone under the root, else `name + "." + suffix`. */
  function ChildName(name: string, suffix: string): (r: string)
    ensures name == RootName ==> r == suffix
    ensures name != RootName ==> |r| == |name| + 1 + |suffix| && r[..|name|] == name && r[|name|] == '.' &&
                                 r[|name| + 1..] == suffix
  {
    if name == RootName then suffix
    else
      var r := name + "." + suffix;
      assert r[|name| + 1..] == suffix;
      r
  }

  /** Taking a child of a child is taking the child named by the dotted path. */
  lemma ChildNameComposes(name: string, a: string, b: string)
    requires ChildName(name, a) != RootName
    ensures ChildName(ChildName(name, a), b) == ChildName(name, a + "." + b)
  {
  }

  /**
   * `_PrefixedAdapter.getChild` as written: the wrapped object's child,
   * wrapped in a new adapter whose added text is this adapter's whole prefix.
   * `child` is the logger `getChild` obtains at the bottom of the chain.
   */
  function GetChildAsWritten(l: LoggerLike, child: LoggerLike): (r: LoggerLike)
    requires child.Base?
    ensures BaseOf(r) == child
    ensures l.Base? ==> r == child
    ensures l.Adapter? ==> r.Adapter? && r.prefix == InitialPrefix(GetChildAsWritten(l.logger, child)) + l.prefix + " "
  {
    if l.Base? then child else Prefixed(GetChildAsWritten(l.logger, child), l.prefix)
  }

  /** The child of a one-level adapter logs with the adapter's prefix and one more space. */
  lemma GetChildAsWrittenOneLevel(b: LoggerLike, p: string, child: LoggerLike, msg: string)
    requires b.Base? && child.Base?
    ensures Message(GetChildAsWritten(Prefixed(b, p), child), msg) == Prefixed(b, p).prefix + " " + msg
  {
  }

  /**
   * The child of a two-level adapter repeats the inner prefix: for
   * `prefixed(prefixed(L, p1), p2)` it is `p1 + "  " + p1 + " " + p2 + "  "`.
   */
  lemma GetChildAsWrittenTwoLevels(b: LoggerLike, p1: string, p2: string, child: LoggerLike)
    requires b.Base? && child.Base?
    ensures GetChildAsWritten(Prefixed(Prefixed(b, p1), p2), child).prefix == p1 + "  " + p1 + " " + p2 + "  "
  {
    var a1 := Prefixed(b, p1);
    var inner := GetChildAsWritten(a1, child);
    assert inner.prefix == p1 + "  " by {
      GetChildAsWrittenOneLevel(b, p1, child, "");
    }
    var a2 := Prefixed(a1, p2);
    assert a2.prefix == p1 + " " + p2 + " " by {
      TwoPrefixes(b, p1, p2, "");
    }
    assert GetChildAsWritten(a2, child) == Prefixed(inner, a2.prefix);
  }

  /** With `prefixed(prefixed(L, "A"), "B")`, the child logs with "A  A B  " where the parent logs with "A B ". */
  lemma GetChildAsWrittenCounterexample(child: LoggerLike)
    requires child.Base?
    ensures Prefixed(Prefixed(Base("L", true), "A"), "B").prefix == "A B "
    ensures GetChildAsWritten(Prefixed(Prefixed(Base("L", true), "A"), "B"), child).prefix == "A  A B  "
    ensures GetChildAsWritten(Prefixed(Prefixed(Base("L", true), "A"), "B"), child).prefix !=
            Prefixed(Prefixed(Base("L", true), "A"), "B").prefix
  {
    GetChildAsWrittenTwoLevels(Base("L", true), "A", "B", child);
    TwoPrefixes(Base("L", true), "A", "B", "");
  }

  /** `getChild` on an adapter as intended: the same chain of adapters over the child logger. */
  function GetChild(l: LoggerLike, child: LoggerLike): (r: LoggerLike)
    requires child.Base?
    ensures BaseOf(r) == child
    ensures l.Base? ==> r == child
    ensures l.Adapter? ==> r.Adapter? && r.prefix == l.prefix
  {
    if l.Base? then child else Adapter(GetChild(l.logger, child), l.prefix)
  }

  /** A child of an adapter logs every message with the same prefix as its parent. */
  lemma GetChildKeepsMessages(l: LoggerLike, child: LoggerLike, msg: string)
    requires child.Base?
    ensures Message(GetChild(l, child), msg) == Message(l, msg)
  {
  }

  /** A positional argument of a logging call: an exception object, a string, or some other object. */
  datatype Arg = ExcArg(e: Exc) | StrArg(s: string) | OtherArg(id: nat)

  predicate IsExceptionArg(a: Arg) {
    a.ExcArg? && a.e.isException
  }

  /** `Lo99er._log`'s argument mapping: each `Exception` becomes its `format_exception` text. */
  function MapArgs(args: seq<Arg>): (r: seq<Arg>)
    ensures |r| == |args|
    ensures forall i :: 0 <= i < |args| && IsExceptionArg(args[i]) ==> r[i] == StrArg(FormatException(args[i].e))
    ensures forall i :: 0 <= i < |args| && !IsExceptionArg(args[i]) ==> r[i] == args[i]
  {
    seq(|args|, i requires 0 <= i < |args| => if IsExceptionArg(args[i]) then StrArg(FormatException(args[i].e)) else args[i])
  }

  /** After the mapping no `Exception` is left, so mapping again changes nothing. */
  lemma MapArgsIdempotent(args: seq<Arg>)
    ensures forall i :: 0 <= i < |MapArgs(args)| ==> !IsExceptionArg(MapArgs(args)[i])
    ensures MapArgs(MapArgs(args)) == MapArgs(args)
  {
  }

  /**
   * What reaches the underlying logger's `_log`: its registry key (so "" for
   * the root, whose records carry the name "root"), the message, and the arguments.
   */
  datatype Record = Record(loggerName: string, message: string, args: seq<Arg>)

  /**
   * `l.log(level, msg, *args)` once the level is enabled: the outermost
   * adapter's prefix is added, and a `Lo99er` maps the arguments.
   */
  function Log(l: LoggerLike, msg: string, args: seq<Arg>): (r: Record)
    ensures r.loggerName == BaseOf(l).name
    ensures r.message == Message(l, msg)
    ensures BaseOf(l).isLo99er ==> r.args == MapArgs(args)
    ensures !BaseOf(l).isLo99er ==> r.args == args
  {
    var b := BaseOf(l);
    Record(b.name, Message(l, msg), if b.isLo99er then MapArgs(args) else args)
  }

  /** Logging through a chain of adapters gives the underlying logger every prefix once, innermost first. */
  lemma LogThroughChain(b: LoggerLike, increments: seq<string>, msg: string, args: seq<Arg>)
    requires b.Base? && increments != []
    ensures Log(Chain(b, increments), msg, args) == Log(b, Spaced(increments) + msg, args)
  {
    ChainPrefix(b, increments);
  }

  /** The `exc_info` argument of `exception`. */
  datatype ExcInfo =
    | NoExcInfo                    // None
    | ExcInstance(e: Exc)          // a BaseException instance
    | ExcTuple(value: Option<Exc>) // a (type, value, traceback) tuple, by its value
    | OtherExcInfo                 // anything else, e.g. True

  /**
   * The exception object `exception` reports and the `exc_info` it passes
   * on: an instance is taken as it is, a tuple gives its value, and otherwise
   * the exception being handled (`sys.exc_info()`) is used.
   */
  function ResolveException(info: ExcInfo, current: Option<Exc>): (r: (Option<Exc>, ExcInfo))
    ensures info.ExcInstance? ==> r == (Some(info.e), info)
    ensures info.ExcTuple? && info.value.Some? ==> r == (info.value, info)
    ensures info.NoExcInfo? || info.OtherExcInfo? || info == ExcTuple(None) ==> r == (current, ExcTuple(current))
  {
    match info
    case ExcInstance(e) => (Some(e), info)
    case ExcTuple(Some(e)) => (Some(e), info)
    case _ => (current, ExcTuple(current))
  }

  /** The reported object is the one given, or else the exception being handled. */
  lemma ResolveExceptionSource(info: ExcInfo, current: Option<Exc>)
    ensures ResolveException(info, current).0.Some? ==>
              ResolveException(info, current).0 == current ||
              info == ExcInstance(ResolveException(info, current).0.value) ||
              info == ExcTuple(ResolveException(info, current).0)
    ensures ResolveException(info, current).1.ExcTuple? ==>
              ResolveException(info, current).1.value == ResolveException(info, current).0
  {
  }

  /** One attribute line: `'\t%s.%s = %s' % (class name, attr, oneline(v))`. */
  function AttributeLine(className: string, attr: string, value: string): string {
    "\t" + (className + ("." + (attr + (" = " + Oneline(value, DefaultMaxLen)))))
  }

  /** The lines `exception` adds, one per attribute `get_exception_kwargs` keeps, in order. */
  function AttributeLines(e: Exc): (r: seq<string>)
    ensures |r| == |ExceptionKwargs(e.attrs)|
    ensures forall k :: 0 <= k < |r| ==>
              r[k] == AttributeLine(e.className, ExceptionKwargs(e.attrs)[k].0, ExceptionKwargs(e.attrs)[k].1)
  {
    var kept := ExceptionKwargs(e.attrs);
    seq(|kept|, k requires 0 <= k < |kept| => AttributeLine(e.className, kept[k].0, kept[k].1))
  }

  /** Each attribute takes exactly one line: no attribute line holds a newline. */
  lemma AttributeLinesAreSingleLines(e: Exc)
    requires '\n' !in e.className
    requires forall k :: 0 <= k < |e.attrs| ==> '\n' !in e.attrs[k].0
    ensures forall k :: 0 <= k < |AttributeLines(e)| ==> '\n' !in AttributeLines(e)[k]
  {
    var kept := ExceptionKwargs(e.attrs);
    forall k | 0 <= k < |kept| ensures '\n' !in AttributeLines(e)[k] {
      var attr, value := kept[k].0, kept[k].1;
      assert kept[k] in e.attrs;
      assert '\n' !in attr;
      var tail := Oneline(value, DefaultMaxLen);
      NoNewlineConcat(" = ", tail);
      NoNewlineConcat(attr, " = " + tail);
      NoNewlineConcat(".", attr + (" = " + tail));
      NoNewlineConcat(e.className, "." + (attr + (" = " + tail)));
      NoNewlineConcat("\t", e.className + ("." + (attr + (" = " + tail))));
    }
  }

  lemma NoNewlineConcat(a: string, b: string)
    requires '\n' !in a && '\n' !in b
    ensures '\n' !in a + b
  {
  }

  /**
   * The outcome of `exception(msg, *args, exc_info=info)` on a `Lo99er`: the
   * records it logs, the `exc_info` of the first one, and whether it raises
   * at the end because no exception object was found (`vars(None)`).
   */
  datatype ExceptionOutcome = ExceptionOutcome(records: seq<Record>, excInfo: ExcInfo, raises: bool)

  function ExceptionLog(name: string, msg: string, args: seq<Arg>, info: ExcInfo, current: Option<Exc>)
    : (r: ExceptionOutcome)
    ensures r.excInfo == ResolveException(info, current).1
    ensures |r.records| >= 1 && r.records[0] == Log(Base(name, true), msg, args)
    ensures r.raises <==> ResolveException(info, current).0.None?
    ensures r.raises ==> |r.records| == 1
    ensures !r.raises ==>
              r.records[1..] == ErrorRecords(name, AttributeLines(ResolveException(info, current).0.value))
  {
    var (obj, excInfo) := ResolveException(info, current);
    var first := Log(Base(name, true), msg, args);
    match obj
    case None => ExceptionOutcome([first], excInfo, true)
    case Some(e) =>
      ExceptionOutcome([first] + ErrorRecords(name, AttributeLines(e)), excInfo, false)
  }

  /** The records of `self.error(line)` for each line, in order: a line is logged as it is, without arguments. */
  function ErrorRecords(name: string, lines: seq<string>): (r: seq<Record>)
    ensures |r| == |lines|
    ensures forall k :: 0 <= k < |lines| ==> r[k] == Record(name, lines[k], [])
  {
    seq(|lines|, k requires 0 <= k < |lines| => Record(name, lines[k], []))
  }

  /**
   * `set_log_level_override` on a `Lo99er` or on an adapter over one: the
   * override is set for the underlying logger's name. Only `Lo99er` has the
   * method; the adapter forwards to its logger.
   */
  method SetLogLevelOverride(mgr: Levels.LogLevelManager, host: Host, l: LoggerLike, level: Option<Levels.LevelInput>)
    returns (r: Result<Option<int>, Levels.LevelError>)
    requires BaseOf(l).isLo99er
    modifies mgr, host
    ensures level.Some? && Levels.ToLevel(level.value).Failure? ==>
              r == Failure(Levels.ToLevel(level.value).error) &&
              mgr.overrides == old(mgr.overrides) && host.loggers == old(host.loggers)
    ensures level.None? ==> r == Success(None)
    ensures level.Some? && Levels.ToLevel(level.value).Success? ==> r == Success(Some(Levels.ToLevel(level.value).value))
    ensures r.Success? ==> mgr.overrides == LevelApi.OverridesAfter(old(mgr.overrides), BaseOf(l).name, r.value)
    ensures mgr.initials == old(mgr.initials)
    ensures r.Success? && BaseOf(l).name !in mgr.initials ==> host.loggers == old(host.loggers)
    ensures r.Success? && BaseOf(l).name in mgr.initials ==>
              var eff := Levels.Effective(mgr.initials, mgr.overrides, BaseOf(l).name).value;
              host.loggers == Registered(old(host.loggers), BaseOf(l).name, eff)[BaseOf(l).name := Relevelled(Obtain(old(host.loggers), BaseOf(l).name, eff), eff)]
  {
    r := LevelApi.SetLogLevelOverride(mgr, host, BaseOf(l).name, level);
  }

  /** Wrapping in adapters or taking an adapter's child never changes whose override is set. */
  lemma OverrideTargetOfAdapters(l: LoggerLike, p: string, child: LoggerLike)
    requires child.Base?
    ensures BaseOf(Prefixed(l, p)) == BaseOf(l)
    ensures BaseOf(GetChildAsWritten(l, child)) == child && BaseOf(GetChild(l, child)) == child
  {
  }
}

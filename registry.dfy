/**
 * The host `logging` registry as lo99ing sees it: a map from logger name to
 * an entry. An entry is either a placeholder (a name that only has children
 * so far) or a logger with its class (`Lo99er` or foreign), its live level,
 * its `propagate` flag and its handler list. The model follows Python 3.6,
 * where `logging.getLogger` returns the root for the empty name and treats
 * "root" as an ordinary name; the root's entry is therefore kept under "".
 */
module Registry {
  import opened Wrappers
  import opened Handlers
  import opened Strings

  /** The name under which `logging.getLogger` finds the root logger. */
  const RootName: string := ""

  datatype Entry =
    | Placeholder
    | Live(isLo99er: bool, level: int, propagate: bool, handlers: seq<Handler>)

  /** A fresh `Lo99er`: its default level (INFO or WARNING), propagating, without handlers. */
  function NewLo99er(defaultLevel: int): (e: Entry)
    ensures e.Live? && e.isLo99er && e.level == defaultLevel && e.propagate && e.handlers == []
  {
    Live(true, defaultLevel, true, [])
  }

  /**
   * `logging.getLogger(name)` once `Lo99er` is the logger class: an existing
   * logger is returned as it is; a missing name or a placeholder gets a new `Lo99er`.
   */
  function Obtain(loggers: map<string, Entry>, name: string, defaultLevel: int): (e: Entry)
    ensures e.Live?
    ensures name in loggers && loggers[name].Live? ==> e == loggers[name]
    ensures !(name in loggers && loggers[name].Live?) ==> e == NewLo99er(defaultLevel)
  {
    if name in loggers && loggers[name].Live? then loggers[name] else NewLo99er(defaultLevel)
  }

  /** `getLogger('')` is the root logger itself, and "root" is just another name. */
  lemma EmptyNameIsRoot(loggers: map<string, Entry>, defaultLevel: int)
    requires RootName in loggers && loggers[RootName].Live?
    ensures Obtain(loggers, "", defaultLevel) == loggers[RootName]
    ensures "root" !in loggers ==> Obtain(loggers, "root", defaultLevel) == NewLo99er(defaultLevel)
  {
  }

  /** `name[..|k|] == k` is a proper prefix of `name` that ends just before a dot. */
  predicate IsDottedPrefix(k: string, name: string) {
    0 < |k| < |name| && name[..|k|] == k && name[|k|] == '.'
  }

  /**
   * The registry `_fixupParents` leaves behind once its scan has reached the
   * dot at `i` (-1 when the scan is over). The scan goes on with
   * `name.rfind(".", 0, i - 1)`, so a dot right before the current one is
   * passed over, as in Python.
   */
  function FixupFrom(loggers: map<string, Entry>, name: string, i: int): (r: map<string, Entry>)
    requires -1 <= i < |name| && (i >= 0 ==> name[i] == '.')
    ensures forall k :: k in loggers ==> k in r && r[k] == loggers[k]
    ensures forall k :: k in r && k !in loggers ==> r[k] == Placeholder && IsDottedPrefix(k, name)
    decreases i + 1
  {
    if i <= 0 then loggers
    else
      var prefix := name[..i];
      if prefix in loggers && loggers[prefix].Live? then loggers
      else
        var next := if prefix in loggers then loggers else loggers[prefix := Placeholder];
        FixupFrom(next, name, RFind(name[..i - 1], '.'))
  }

  /** `Manager._fixupParents` for a logger just registered under `name`. */
  function FixupParents(loggers: map<string, Entry>, name: string): (r: map<string, Entry>)
    ensures forall k :: k in loggers ==> k in r && r[k] == loggers[k]
    ensures forall k :: k in r && k !in loggers ==> r[k] == Placeholder && IsDottedPrefix(k, name)
  {
    FixupFrom(loggers, name, RFind(name, '.'))
  }

  /**
   * The registry after `logging.getLogger(name)`: unchanged for an existing
   * logger; otherwise the name holds a new `Lo99er` and some of its missing
   * dotted prefixes hold placeholders.
   */
  function Registered(loggers: map<string, Entry>, name: string, defaultLevel: int): (r: map<string, Entry>)
    ensures name in r && r[name] == Obtain(loggers, name, defaultLevel)
    ensures name in loggers && loggers[name].Live? ==> r == loggers
    ensures forall k :: k in loggers && k != name ==> k in r && r[k] == loggers[k]
    ensures forall k :: k in r && k !in loggers && k != name ==> r[k] == Placeholder && IsDottedPrefix(k, name)
  {
    if name in loggers && loggers[name].Live? then loggers
    else FixupParents(loggers[name := NewLo99er(defaultLevel)], name)
  }

  /** A name without a dot has no parent to fix up. */
  lemma UndottedNameHasNoParents(loggers: map<string, Entry>, name: string)
    requires '.' !in name
    ensures FixupParents(loggers, name) == loggers
  {
  }

  /** The immediate parent of a new dotted name is a logger already, or becomes a placeholder. */
  lemma ParentIsPresent(loggers: map<string, Entry>, name: string, defaultLevel: int)
    requires !(name in loggers && loggers[name].Live?)
    requires var d := RFind(name, '.'); d > 0
    ensures var d := RFind(name, '.'); name[..d] in Registered(loggers, name, defaultLevel)
  {
    var d := RFind(name, '.');
    var added := loggers[name := NewLo99er(defaultLevel)];
    assert Registered(loggers, name, defaultLevel) == FixupFrom(added, name, d);
    if !(name[..d] in added && added[name[..d]].Live?) {
      assert FixupFrom(added, name, d) == FixupFrom(Placed(added, name[..d]), name, RFind(name[..d - 1], '.'));
    }
  }

  /** No dot of `name` follows another dot: every component but a leading one is non-empty. */
  predicate NoDoubledDots(name: string) {
    forall j :: 0 < j < |name| && name[j] == '.' ==> name[j - 1] != '.'
  }

  /** No dotted prefix of `name` up to position `i` is a logger in `loggers`. */
  predicate NoLoggerAbove(loggers: map<string, Entry>, name: string, i: int)
    requires i < |name|
  {
    forall j :: 0 < j <= i && name[j] == '.' ==> !(name[..j] in loggers && loggers[name[..j]].Live?)
  }

  /** The registry after one scan step at `prefix`: a placeholder there unless the name is taken. */
  function Placed(loggers: map<string, Entry>, prefix: string): (r: map<string, Entry>)
    ensures prefix in r
    ensures forall k :: k in r && r[k].Live? ==> k in loggers && loggers[k].Live?
  {
    if prefix in loggers then loggers else loggers[prefix := Placeholder]
  }

  /** Without doubled dots, every dot before the one at `i` is at or before the next dot the scan finds. */
  lemma NextDotBelow(name: string, i: int, j: int)
    requires 0 < j < i < |name| && name[i] == '.' && name[j] == '.' && NoDoubledDots(name)
    ensures j <= RFind(name[..i - 1], '.')
  {
    assert name[..i - 1][j] == '.';
    RFindIsLast(name[..i - 1], '.', j);
  }

  /**
   * One scan step at a dot whose prefix is not a logger: the prefix is
   * placed, it stays in the result, and no prefix before the next dot is a logger.
   */
  lemma FixupFromStep(loggers: map<string, Entry>, name: string, i: int)
    requires 0 < i < |name| && name[i] == '.' && NoLoggerAbove(loggers, name, i)
    ensures var next := Placed(loggers, name[..i]);
            var i' := RFind(name[..i - 1], '.');
            FixupFrom(loggers, name, i) == FixupFrom(next, name, i') &&
            name[..i] in FixupFrom(loggers, name, i) && NoLoggerAbove(next, name, i')
  {
    assert !(name[..i] in loggers && loggers[name[..i]].Live?);
  }

  /** Without doubled dots, the scan from the dot at `i` visits every dot before it. */
  lemma {:induction false} FixupFromReachesEveryDot(loggers: map<string, Entry>, name: string, i: int)
    requires -1 <= i < |name| && (i >= 0 ==> name[i] == '.')
    requires NoDoubledDots(name) && NoLoggerAbove(loggers, name, i)
    ensures forall j :: 0 < j <= i && name[j] == '.' ==> name[..j] in FixupFrom(loggers, name, i)
    decreases i + 1
  {
    if i > 0 {
      var next := Placed(loggers, name[..i]);
      var i' := RFind(name[..i - 1], '.');
      FixupFromStep(loggers, name, i);
      FixupFromReachesEveryDot(next, name, i');
      forall j | 0 < j < i && name[j] == '.'
        ensures j <= i'
      {
        NextDotBelow(name, i, j);
      }
    }
  }

  /**
   * A new name without doubled dots, none of whose dotted prefixes is a
   * logger yet, leaves every dotted prefix registered: "a.b.c" brings "a" and "a.b".
   */
  lemma EveryParentPresent(loggers: map<string, Entry>, name: string, defaultLevel: int)
    requires !(name in loggers && loggers[name].Live?)
    requires NoDoubledDots(name) && NoLoggerAbove(loggers, name, |name| - 1)
    ensures forall j :: 0 < j < |name| && name[j] == '.' ==> name[..j] in Registered(loggers, name, defaultLevel)
  {
    var added := loggers[name := NewLo99er(defaultLevel)];
    var d := RFind(name, '.');
    forall j | 0 < j <= d && name[j] == '.'
      ensures !(name[..j] in added && added[name[..j]].Live?)
    {
      assert |name[..j]| != |name|;
    }
    FixupFromReachesEveryDot(added, name, d);
    forall j | 0 < j < |name| && name[j] == '.'
      ensures name[..j] in Registered(loggers, name, defaultLevel)
    {
      RFindIsLast(name, '.', j);
    }
  }

  /** The scan stops at the first dotted prefix that is a logger: nothing above it is touched. */
  lemma FixupStopsAtLogger(loggers: map<string, Entry>, name: string)
    requires var d := RFind(name, '.'); d > 0 && name[..d] in loggers && loggers[name[..d]].Live?
    ensures FixupParents(loggers, name) == loggers
  {
  }

  /** `getLogger("a.b.c")` with only the root registered adds placeholders for "a.b" and "a". */
  lemma ThreeLevelsFromRoot(root: Entry, defaultLevel: int)
    ensures Registered(map[RootName := root], "a.b.c", defaultLevel) ==
            map[RootName := root, "a.b.c" := NewLo99er(defaultLevel), "a.b" := Placeholder, "a" := Placeholder]
  {
    var name := "a.b.c";
    assert RFind(name, '.') == 3;
    assert name[..3] == "a.b" && name[..2] == "a.";
    assert RFind(name[..2], '.') == 1;
    assert name[..1] == "a" && name[..0] == "";
    assert RFind(name[..0], '.') == -1;
  }

  /** `Logger.setLevel` on an entry that is a logger. */
  function Relevelled(e: Entry, level: int): (r: Entry)
    requires e.Live?
    ensures r.Live? && r.level == level
    ensures r.isLo99er == e.isLo99er && r.propagate == e.propagate && r.handlers == e.handlers
  {
    e.(level := level)
  }

  class Host {
    var loggers: map<string, Entry>

    constructor (loggers: map<string, Entry>)
      ensures this.loggers == loggers
    {
      this.loggers := loggers;
    }

    /**
     * `logging.getLogger(name)`: an existing logger is returned as it is; a
     * missing name or a placeholder gets a new `Lo99er`, after which
     * `Manager._fixupParents` walks the dotted prefixes of the name from the
     * longest down, placing a placeholder at each missing one and stopping
     * at the first that is a logger.
     */
    method GetLogger(name: string, defaultLevel: int) returns (e: Entry)
      modifies this
      ensures e == Obtain(old(loggers), name, defaultLevel)
      ensures loggers == Registered(old(loggers), name, defaultLevel)
    {
      e := Obtain(loggers, name, defaultLevel);
      if name in loggers && loggers[name].Live? {
        return;
      }
      loggers := loggers[name := e];
      ghost var target := FixupParents(loggers, name);
      var i := RFind(name, '.');
      var found := false;
      while i > 0 && !found
        invariant -1 <= i < |name| && (i >= 0 ==> name[i] == '.')
        invariant found ==> loggers == target
        invariant !found ==> FixupFrom(loggers, name, i) == target
        decreases i + 1
      {
        var prefix := name[..i];
        if prefix !in loggers {
          loggers := loggers[prefix := Placeholder];
        } else if loggers[prefix].Live? {
          found := true;
        }
        i := RFind(name[..i - 1], '.');
      }
    }

    /** `set_log_level(name, level)` with an int level: `logging.getLogger(name).setLevel(level)`. */
    method SetLevel(name: string, level: int)
      modifies this
      ensures name in loggers && loggers[name].Live? && loggers[name].level == level
      ensures loggers == Registered(old(loggers), name, level)[name := Relevelled(Obtain(old(loggers), name, level), level)]
    {
      var e := GetLogger(name, level);
      loggers := loggers[name := e.(level := level)];
    }

    /** `logger.propagate = propagate`. */
    method SetPropagate(name: string, propagate: bool)
      requires name in loggers && loggers[name].Live?
      modifies this
      ensures loggers == old(loggers)[name := old(loggers)[name].(propagate := propagate)]
    {
      loggers := loggers[name := loggers[name].(propagate := propagate)];
    }

    /** `enable_stderr(logger)`. */
    method EnableStderr(name: string)
      requires name in loggers && loggers[name].Live?
      modifies this
      ensures loggers == old(loggers)[name := old(loggers)[name].(handlers := WithStderr(old(loggers)[name].handlers))]
    {
      var e := loggers[name];
      if !HasStderr(e.handlers) {
        e := e.(handlers := e.handlers + [StderrHandler]);
      }
      loggers := loggers[name := e];
    }

    /** `disable_stderr(logger)`: one `removeHandler` per stderr handler, over a snapshot of the list. */
    method DisableStderr(name: string)
      requires name in loggers && loggers[name].Live?
      modifies this
      ensures loggers == old(loggers)[name := old(loggers)[name].(handlers := WithoutStderr(old(loggers)[name].handlers))]
    {
      var e := loggers[name];
      var kept := RemoveStderr(e.handlers);
      loggers := loggers[name := e.(handlers := kept)];
    }

    /**
     * `_add_logging_handler(handler, logger)` for a handler object created
     * just before: no attached handler is that object, so `addHandler`
     * appends it whatever equal handlers are attached already.
     */
    method AddNewLoggingHandler(name: string, h: Handler)
      requires name in loggers && loggers[name].Live?
      modifies this
      ensures loggers == old(loggers)[name := old(loggers)[name].(handlers := old(loggers)[name].handlers + [Formatted(h)])]
    {
      var handler := h;
      if handler.formatter.None? {
        handler := handler.(formatter := Some(DefaultFormatter));
      }
      var e := loggers[name];
      loggers := loggers[name := e.(handlers := e.handlers + [handler])];
    }

    /**
     * `_add_logging_handler(handler, logger)` for a handler the caller
     * passes: `setFormatter` acts on the handler object, also where it is
     * attached already, and `addHandler` then appends it only when it is not.
     */
    method AddLoggingHandler(name: string, h: Handler)
      requires name in loggers && loggers[name].Live?
      modifies this
      ensures loggers == old(loggers)[name := old(loggers)[name].(handlers := AttachHandler(old(loggers)[name].handlers, h))]
    {
      var handler := h;
      var e := loggers[name];
      var hs := e.handlers;
      if handler.formatter.None? {
        hs := FormatAttached(hs, h);
        handler := handler.(formatter := Some(DefaultFormatter));
      } else {
        AttachFormattedIsAddHandler(hs, h);
      }
      if handler !in hs {
        hs := hs + [handler];
      }
      loggers := loggers[name := e.(handlers := hs)];
    }
  }
}

/**
 * `get_logger` (lo99ing/utils.py:22-75) and `Lo99er.getChild`
 * (lo99ing/logger.py:57-62): finding a logger by name and, on first use,
 * recording its initial level, setting its live level and its `propagate`
 * flag.
 */
module Utils {
  import opened Wrappers
  import opened Levels
  import opened Handlers
  import opened Registry
  import opened Paths
  import Logger

  /**
   * The level a new `Lo99er` gives itself (lo99ing/logger.py:67-89):
   * WARNING when the calling module is installed, INFO for a local module or
   * when the caller's file cannot be found.
   */
  function DefaultLevel(callerFile: Option<string>): (r: int)
    ensures r == INFO || r == WARNING
    ensures r == WARNING <==> callerFile.Some? && IsInstalledModule(callerFile.value)
  {
    if callerFile.Some? && IsInstalledModule(callerFile.value) then WARNING else INFO
  }

  /**
   * The initial level `get_logger` records for a logger that has none yet: a
   * `Lo99er` takes the caller's level, else its own (default) level; a foreign
   * logger keeps a level it already has, and otherwise takes the caller's
   * level, if any.
   */
  function ChooseInitial(isLo99er: bool, current: int, level: Option<int>): (r: Option<int>)
    ensures r.None? <==> !isLo99er && current == NOTSET && level.None?
    ensures r.Some? ==> r == level || r.value == current
    ensures (isLo99er || current == NOTSET) && level.Some? ==> r == level
    ensures isLo99er && level.None? ==> r == Some(current)
    ensures !isLo99er && current != NOTSET ==> r == Some(current)
  {
    if isLo99er then
      if level.Some? then level else Some(current)
    else if current == NOTSET then level
    else Some(current)
  }

  /** The caller's level of a `Lo99er` (or of a foreign logger without level) becomes its initial level. */
  lemma CallerLevelIsInitial(initials: map<string, int>, name: string, isLo99er: bool, current: int, level: int)
    requires name !in initials
    requires isLo99er || current == NOTSET
    ensures SetDefault(initials, name, ChooseInitial(isLo99er, current, Some(level)).value)[name] == level
  {
  }

  /**
   * An override registered before first use wins over the caller's level in
   * the live level, while the recorded initial is still the caller's level.
   */
  lemma PreRegisteredOverrideWins(initials: map<string, int>, overrides: map<string, int>, name: string,
                                  isLo99er: bool, current: int, level: Option<int>)
    requires name in overrides && name !in initials
    requires ChooseInitial(isLo99er, current, level).Some?
    ensures var chosen := ChooseInitial(isLo99er, current, level).value;
            Effective(SetDefault(initials, name, chosen), overrides, name) == Some(overrides[name]) &&
            SetDefault(initials, name, chosen)[name] == chosen
  {
  }

  /** A foreign logger with no level, found without a caller level, gets no initial and keeps NOTSET. */
  lemma ForeignUnsetStaysUnset(initials: map<string, int>, overrides: map<string, int>, name: string)
    requires name !in initials && name !in overrides
    ensures ChooseInitial(false, NOTSET, None).None?
    ensures Effective(initials, overrides, name).None?
  {
  }

  /** A logger's `propagate` flag set, with the stderr handler added when it does not propagate. */
  function Propagating(e: Entry, propagate: bool): (r: Entry)
    requires e.Live?
    ensures r.Live? && r.isLo99er == e.isLo99er && r.level == e.level && r.propagate == propagate
    ensures propagate ==> r.handlers == e.handlers
    ensures !propagate ==> r.handlers == WithStderr(e.handlers) && HasStderr(r.handlers)
  {
    e.(propagate := propagate, handlers := if propagate then e.handlers else WithStderr(e.handlers))
  }

  /**
   * The entry of a logger after its first `get_logger`: the new live level
   * (when an initial was chosen), then the `propagate` flag and handlers.
   */
  function Initialized(e: Entry, newLevel: Option<int>, propagate: bool): (r: Entry)
    requires e.Live?
    ensures r.Live? && r.isLo99er == e.isLo99er && r.propagate == propagate
    ensures r.level == (if newLevel.Some? then newLevel.value else e.level)
  {
    Propagating(if newLevel.Some? then Relevelled(e, newLevel.value) else e, propagate)
  }

  /** `logger.propagate = propagate`, then `enable_stderr(logger)` when it is false. */
  method SetPropagation(host: Host, name: string, propagate: bool)
    requires name in host.loggers && host.loggers[name].Live?
    modifies host
    ensures host.loggers == old(host.loggers)[name := Propagating(old(host.loggers)[name], propagate)]
  {
    host.SetPropagate(name, propagate);
    if !propagate {
      host.EnableStderr(name);
    }
  }

  /** Records the chosen initial, if any, and moves the live level to the effective level. */
  method RecordInitial(mgr: LogLevelManager, host: Host, name: string, chosen: Option<int>)
    requires name in host.loggers && host.loggers[name].Live? && name !in mgr.initials
    modifies mgr, host
    ensures mgr.overrides == old(mgr.overrides)
    ensures chosen.None? ==> mgr.initials == old(mgr.initials) && host.loggers == old(host.loggers)
    ensures chosen.Some? ==>
              mgr.initials == old(mgr.initials)[name := chosen.value] &&
              Effective(mgr.initials, mgr.overrides, name).Some? &&
              host.loggers == old(host.loggers)[name := Relevelled(old(host.loggers)[name],
                                                                    Effective(mgr.initials, mgr.overrides, name).value)]
  {
    if chosen.Some? {
      mgr.SetInitial(name, chosen.value);
      var eff := mgr.GetEffective(name);
      host.SetLevel(name, eff.value);
    }
  }

  /**
   * The first-use branch of `get_logger` for a logger with no initial level
   * yet: record the chosen initial, set the live level to the effective
   * level, set `propagate`, and add the stderr handler when not propagating.
   */
  method Initialize(mgr: LogLevelManager, host: Host, name: string, level: Option<int>, propagate: bool)
    requires name in host.loggers && host.loggers[name].Live? && name !in mgr.initials
    modifies mgr, host
    ensures mgr.overrides == old(mgr.overrides)
    ensures var e := old(host.loggers[name]);
            var chosen := ChooseInitial(e.isLo99er, e.level, level);
            if chosen.None? then
              mgr.initials == old(mgr.initials) &&
              host.loggers == old(host.loggers)[name := Initialized(e, None, propagate)]
            else
              mgr.initials == old(mgr.initials)[name := chosen.value] &&
              host.loggers == old(host.loggers)[name := Initialized(e, Effective(mgr.initials, mgr.overrides, name), propagate)]
  {
    var e := host.loggers[name];
    var chosen := ChooseInitial(e.isLo99er, e.level, level);
    RecordInitial(mgr, host, name, chosen);
    SetPropagation(host, name, propagate);
  }

  /**
   * `get_logger(name, level, propagate)`. `callerFile` stands for the call
   * stack a new `Lo99er` inspects. Returns the (fixed-up) name of the logger.
   */
  method GetLogger(mgr: LogLevelManager, host: Host, rawName: string, level: Option<LevelInput>,
                   propagate: bool, callerFile: Option<string>)
    returns (r: Result<string, LevelError>)
    modifies mgr, host
    ensures level.Some? && ToLevel(level.value).Failure? ==>
              r == Failure(ToLevel(level.value).error) &&
              mgr.initials == old(mgr.initials) && mgr.overrides == old(mgr.overrides) &&
              host.loggers == old(host.loggers)
    ensures (level.None? || ToLevel(level.value).Success?) ==> r == Success(NameFixup(rawName))
    ensures mgr.overrides == old(mgr.overrides)
    ensures r.Success? ==>
              var name := r.value;
              var e := Obtain(old(host.loggers), name, DefaultLevel(callerFile));
              var lvl := if level.Some? then Some(ToLevel(level.value).value) else None;
              var chosen := ChooseInitial(e.isLo99er, e.level, lvl);
              if name in old(mgr.initials) then
                mgr.initials == old(mgr.initials) && host.loggers == Registered(old(host.loggers), name, DefaultLevel(callerFile))
              else if chosen.None? then
                mgr.initials == old(mgr.initials) &&
                host.loggers == Registered(old(host.loggers), name, DefaultLevel(callerFile))[name := Initialized(e, None, propagate)]
              else
                mgr.initials == old(mgr.initials)[name := chosen.value] &&
                host.loggers == Registered(old(host.loggers), name, DefaultLevel(callerFile))[name := Initialized(e, Effective(mgr.initials, mgr.overrides, name), propagate)]
  {
    var name := NameFixup(rawName);
    var lvl: Option<int> := None;
    if level.Some? {
      var converted := ToLevel(level.value);
      if converted.Failure? {
        return Failure(converted.error);
      }
      lvl := Some(converted.value);
    }
    var e := host.GetLogger(name, DefaultLevel(callerFile));
    var isInitialized := mgr.HasInitial(name);
    if !isInitialized {
      Initialize(mgr, host, name, lvl, propagate);
    }
    r := Success(name);
  }

  /**
   * `Lo99er.getChild(suffix)`: `get_logger` of the child's name, with no
   * level and `propagate` left at its default. It never fails, and the child
   * is initialized on first use exactly as `GetLogger` does it.
   */
  method GetChild(mgr: LogLevelManager, host: Host, parent: string, suffix: string, callerFile: Option<string>)
    returns (r: Result<string, LevelError>)
    modifies mgr, host
    ensures r == Success(NameFixup(Logger.ChildName(parent, suffix)))
    ensures mgr.overrides == old(mgr.overrides)
    ensures var name := r.value;
            var e := Obtain(old(host.loggers), name, DefaultLevel(callerFile));
            var chosen := ChooseInitial(e.isLo99er, e.level, None);
            if name in old(mgr.initials) then
              mgr.initials == old(mgr.initials) && host.loggers == Registered(old(host.loggers), name, DefaultLevel(callerFile))
            else if chosen.None? then
              mgr.initials == old(mgr.initials) &&
              host.loggers == Registered(old(host.loggers), name, DefaultLevel(callerFile))[name := Initialized(e, None, true)]
            else
              mgr.initials == old(mgr.initials)[name := chosen.value] &&
              host.loggers == Registered(old(host.loggers), name, DefaultLevel(callerFile))[name := Initialized(e, Effective(mgr.initials, mgr.overrides, name), true)]
  {
    r := GetLogger(mgr, host, Logger.ChildName(parent, suffix), None, true, callerFile);
  }

  /**
   * A child taken for the first time records its own level as its initial:
   * a new `Lo99er` gets its default level (WARNING or INFO by caller) as both
   * its initial and, without an override, its live level.
   */
  lemma NewChildKeepsDefaultLevel(initials: map<string, int>, overrides: map<string, int>,
                                  loggers: map<string, Entry>, name: string, callerFile: Option<string>)
    requires name !in loggers && name !in initials && name !in overrides
    ensures var e := Obtain(loggers, name, DefaultLevel(callerFile));
            var chosen := ChooseInitial(e.isLo99er, e.level, None);
            chosen == Some(DefaultLevel(callerFile)) &&
            Effective(SetDefault(initials, name, chosen.value), overrides, name) == Some(DefaultLevel(callerFile)) &&
            Initialized(e, Some(DefaultLevel(callerFile)), true) == NewLo99er(DefaultLevel(callerFile))
  {
  }
}

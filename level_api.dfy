/**
 * The public level functions of lo99ing/level.py:16-18 and 88-124. They act on
 * the one process-wide `LogLevelManager` and on the host registry; the lock
 * they take is not modelled (every call is atomic).
 */
module LevelApi {
  import opened Wrappers
  import opened Levels
  import opened Registry

  /** The overrides after `set_log_level_override`: `None` clears, a level replaces. */
  function OverridesAfter(overrides: map<string, int>, name: string, level: Option<int>): (r: map<string, int>)
    ensures level.None? ==> name !in r
    ensures level.Some? ==> name in r && r[name] == level.value
    ensures forall n :: n != name ==> (n in r <==> n in overrides)
    ensures forall n :: n != name && n in r ==> r[n] == overrides[n]
  {
    if level.None? then overrides - {name} else overrides[name := level.value]
  }

  /** After an override is set, the effective level is that override; after it is cleared, the initial. */
  lemma EffectiveAfterOverride(initials: map<string, int>, overrides: map<string, int>, name: string, level: Option<int>)
    ensures level.Some? ==> Effective(initials, OverridesAfter(overrides, name, level), name) == level
    ensures level.None? ==>
              Effective(initials, OverridesAfter(overrides, name, level), name) ==
                (if name in initials then Some(initials[name]) else None)
    ensures forall n :: n != name ==>
              Effective(initials, OverridesAfter(overrides, name, level), n) == Effective(initials, overrides, n)
  {
  }

  /** `set_log_level(name, level)`: a level that `to_level` rejects raises before anything changes. */
  method SetLogLevel(host: Host, name: string, level: LevelInput) returns (r: Result<int, LevelError>)
    modifies host
    ensures r == ToLevel(level)
    ensures r.Failure? ==> host.loggers == old(host.loggers)
    ensures r.Success? ==>
              host.loggers == Registered(old(host.loggers), name, r.value)[name := Relevelled(Obtain(old(host.loggers), name, r.value), r.value)]
  {
    r := ToLevel(level);
    if r.Success? {
      host.SetLevel(name, r.value);
    }
  }

  /** `get_log_level_override(name)`. */
  method GetLogLevelOverride(mgr: LogLevelManager, name: string) returns (r: Option<int>)
    ensures r.Some? <==> name in mgr.overrides
    ensures r.Some? ==> r.value == mgr.overrides[name]
  {
    r := mgr.GetOverride(name);
  }

  /**
   * `set_log_level_override(name, level)`: `None` clears the override, any
   * other value stores `to_level(value)`; the live level follows the new
   * effective level only once the name has an initial level.
   */
  method SetLogLevelOverride(mgr: LogLevelManager, host: Host, name: string, level: Option<LevelInput>)
    returns (r: Result<Option<int>, LevelError>)
    modifies mgr, host
    ensures level.Some? && ToLevel(level.value).Failure? ==>
              r == Failure(ToLevel(level.value).error) &&
              mgr.overrides == old(mgr.overrides) && mgr.initials == old(mgr.initials) &&
              host.loggers == old(host.loggers)
    ensures level.None? ==> r == Success(None)
    ensures level.Some? && ToLevel(level.value).Success? ==> r == Success(Some(ToLevel(level.value).value))
    ensures r.Success? ==> mgr.overrides == OverridesAfter(old(mgr.overrides), name, r.value)
    ensures mgr.initials == old(mgr.initials)
    ensures r.Success? && name !in mgr.initials ==> host.loggers == old(host.loggers)
    ensures r.Success? && name in mgr.initials ==>
              var eff := Effective(mgr.initials, mgr.overrides, name).value;
              host.loggers == Registered(old(host.loggers), name, eff)[name := Relevelled(Obtain(old(host.loggers), name, eff), eff)]
  {
    if level.None? {
      mgr.ClearOverride(name);
      r := Success(None);
    } else {
      var converted := ToLevel(level.value);
      if converted.Failure? {
        return Failure(converted.error);
      }
      mgr.SetOverride(name, converted.value);
      r := Success(Some(converted.value));
    }
    if mgr.HasInitial(name) {
      var eff := mgr.GetEffective(name);
      host.SetLevel(name, eff.value);
    }
  }

  /** `get_log_level_overrides()`. */
  method GetLogLevelOverrides(mgr: LogLevelManager) returns (r: map<string, int>)
    ensures r == mgr.overrides
  {
    r := mgr.GetAllOverrides();
  }

  /** `restore_log_level_overrides(overrides)`: live levels are not touched. */
  method RestoreLogLevelOverrides(mgr: LogLevelManager, overrides: map<string, int>)
    modifies mgr
    ensures mgr.overrides == old(mgr.overrides) + overrides
    ensures mgr.initials == old(mgr.initials)
  {
    mgr.RestoreOverrides(overrides);
  }
}

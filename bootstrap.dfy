/**
 * The import-time set-up of lo99ing/_bootstrap.py:13-30: the root logger
 * gets the stderr handler and level NOTSET, and every logger registered
 * before the import that has no level of its own gets the initial level
 * WARNING. Registering `Lo99er` as the logger class is what makes
 * `Registry.Obtain` create `Lo99er`s.
 */
module Bootstrap {
  import opened Wrappers
  import opened Levels
  import opened Handlers
  import opened Registry

  /** A registered logger the loop initializes: not the root, not a placeholder, and with level NOTSET. */
  predicate Eligible(loggers: map<string, Entry>, name: string) {
    name != RootName && name in loggers && loggers[name].Live? && loggers[name].level == NOTSET
  }

  /** The initial levels after the loop has handled the names in `done`: WARNING where none was recorded. */
  function BootInitials(initials: map<string, int>, loggers: map<string, Entry>, done: set<string>)
    : (r: map<string, int>)
    ensures forall n :: n in r <==> n in initials || (n in done && Eligible(loggers, n))
    ensures forall n :: n in initials ==> r[n] == initials[n]
    ensures forall n :: n !in initials && n in done && Eligible(loggers, n) ==> r[n] == WARNING
  {
    initials + map n | n in done && Eligible(loggers, n) && n !in initials :: WARNING
  }

  /** Handling one more name adds its WARNING initial when it is eligible, first write winning. */
  lemma BootInitialsStep(initials: map<string, int>, loggers: map<string, Entry>, done: set<string>, name: string)
    ensures Eligible(loggers, name) ==>
              BootInitials(initials, loggers, done + {name}) == SetDefault(BootInitials(initials, loggers, done), name, WARNING)
    ensures !Eligible(loggers, name) ==>
              BootInitials(initials, loggers, done + {name}) == BootInitials(initials, loggers, done)
  {
    var before, after := BootInitials(initials, loggers, done), BootInitials(initials, loggers, done + {name});
    if Eligible(loggers, name) {
      assert after.Keys == SetDefault(before, name, WARNING).Keys;
    } else {
      assert after.Keys == before.Keys;
    }
  }

  /** Recording an initial for one name leaves the effective level of every other name as it was. */
  lemma EffectiveElsewhere(initials: map<string, int>, overrides: map<string, int>, name: string, level: int)
    ensures forall n :: n != name ==> Effective(SetDefault(initials, name, level), overrides, n) == Effective(initials, overrides, n)
  {
  }

  /** The root entry after `enable_stderr(logging.root)` and `logging.root.setLevel(logging.NOTSET)`. */
  function BootRoot(e: Entry): (r: Entry)
    requires e.Live?
    ensures r.Live? && r.level == NOTSET && HasStderr(r.handlers)
    ensures r.isLo99er == e.isLo99er && r.propagate == e.propagate
  {
    Relevelled(e.(handlers := WithStderr(e.handlers)), NOTSET)
  }

  /**
   * Every eligible logger ends with initial WARNING unless it already had
   * one, and with its live level at the effective level; an existing
   * override takes precedence over WARNING.
   */
  lemma EligibleLevel(initials: map<string, int>, overrides: map<string, int>, loggers: map<string, Entry>, name: string)
    requires Eligible(loggers, name)
    ensures Effective(BootInitials(initials, loggers, loggers.Keys), overrides, name) ==
              Some(if name in overrides then overrides[name]
                   else if name in initials then initials[name]
                   else WARNING)
  {
  }

  /**
   * One pass of the loop: a logger that is not the root, not a placeholder
   * and has level NOTSET gets the initial WARNING (first write wins) and the
   * effective level as its live level; any other name is skipped.
   */
  method InitializeUnset(mgr: LogLevelManager, host: Host, name: string)
    requires name in host.loggers
    modifies mgr, host
    ensures mgr.overrides == old(mgr.overrides)
    ensures !Eligible(old(host.loggers), name) ==> mgr.initials == old(mgr.initials) && host.loggers == old(host.loggers)
    ensures Eligible(old(host.loggers), name) ==>
              mgr.initials == SetDefault(old(mgr.initials), name, WARNING) &&
              Effective(mgr.initials, mgr.overrides, name).Some? &&
              host.loggers == old(host.loggers)[name := Relevelled(old(host.loggers)[name],
                                                                    Effective(mgr.initials, mgr.overrides, name).value)]
  {
    var e := host.loggers[name];
    if name != RootName && e.Live? && e.level == NOTSET {
      mgr.SetInitial(name, WARNING);
      var eff := mgr.GetEffective(name);
      host.SetLevel(name, eff.value);
    }
  }

  /**
   * The state after the loop has handled the names in `done`: the initials
   * are `BootInitials`, handled eligible loggers carry their effective level,
   * and every other entry is as it was.
   */
  ghost predicate Booted(loggers0: map<string, Entry>, initials0: map<string, int>, overrides: map<string, int>,
                         done: set<string>, initials: map<string, int>, loggers: map<string, Entry>)
  {
    && loggers.Keys == loggers0.Keys
    && initials == BootInitials(initials0, loggers0, done)
    && (forall n :: n in loggers0 && !(Eligible(loggers0, n) && n in done) ==> loggers[n] == loggers0[n])
    && (forall n :: Eligible(loggers0, n) && n in done ==>
          Effective(initials, overrides, n).Some? &&
          loggers[n] == Relevelled(loggers0[n], Effective(initials, overrides, n).value))
  }

  /** One more name handled as `InitializeUnset` does it keeps `Booted`. */
  lemma BootStep(loggers0: map<string, Entry>, initials0: map<string, int>, overrides: map<string, int>,
                 done: set<string>, name: string,
                 initials: map<string, int>, loggers: map<string, Entry>,
                 initials': map<string, int>, loggers': map<string, Entry>)
    requires Booted(loggers0, initials0, overrides, done, initials, loggers)
    requires name in loggers0 && name !in done
    requires !Eligible(loggers, name) ==> initials' == initials && loggers' == loggers
    requires Eligible(loggers, name) ==>
               initials' == SetDefault(initials, name, WARNING) &&
               Effective(initials', overrides, name).Some? &&
               loggers' == loggers[name := Relevelled(loggers[name], Effective(initials', overrides, name).value)]
    ensures Booted(loggers0, initials0, overrides, done + {name}, initials', loggers')
  {
    assert loggers[name] == loggers0[name];
    BootInitialsStep(initials0, loggers0, done, name);
    if Eligible(loggers0, name) {
      EffectiveElsewhere(initials, overrides, name, WARNING);
      forall n | n in loggers0 && !(Eligible(loggers0, n) && n in done + {name})
        ensures loggers'[n] == loggers0[n]
      {
        assert n != name;
      }
      forall n | Eligible(loggers0, n) && n in done + {name}
        ensures Effective(initials', overrides, n).Some?
        ensures loggers'[n] == Relevelled(loggers0[n], Effective(initials', overrides, n).value)
      {
        if n != name {
          assert n in done;
        }
      }
    }
  }

  /** The loop over the registry: `InitializeUnset` for every registered name, in any order. */
  method InitializeExisting(mgr: LogLevelManager, host: Host)
    modifies mgr, host
    ensures mgr.overrides == old(mgr.overrides)
    ensures mgr.initials == BootInitials(old(mgr.initials), old(host.loggers), old(host.loggers).Keys)
    ensures host.loggers.Keys == old(host.loggers).Keys
    ensures forall n :: n in old(host.loggers) && !Eligible(old(host.loggers), n) ==>
              host.loggers[n] == old(host.loggers)[n]
    ensures forall n :: Eligible(old(host.loggers), n) ==>
              Effective(mgr.initials, mgr.overrides, n).Some? &&
              host.loggers[n] == Relevelled(old(host.loggers)[n], Effective(mgr.initials, mgr.overrides, n).value)
  {
    ghost var loggers0 := host.loggers;
    ghost var initials0 := mgr.initials;
    var pending := host.loggers.Keys;
    assert loggers0.Keys - pending == {};
    assert BootInitials(initials0, loggers0, {}) == initials0;
    while pending != {}
      invariant pending <= loggers0.Keys
      invariant mgr.overrides == old(mgr.overrides)
      invariant Booted(loggers0, initials0, mgr.overrides, loggers0.Keys - pending, mgr.initials, host.loggers)
      decreases pending
    {
      var name :| name in pending;
      ghost var done := loggers0.Keys - pending;
      ghost var initials, loggers := mgr.initials, host.loggers;
      InitializeUnset(mgr, host, name);
      BootStep(loggers0, initials0, mgr.overrides, done, name, initials, loggers, mgr.initials, host.loggers);
      assert loggers0.Keys - (pending - {name}) == done + {name};
      pending := pending - {name};
    }
    assert loggers0.Keys - pending == loggers0.Keys;
  }

  /** `import lo99ing`: the root logger must exist (it always does in `logging`). */
  method Bootstrap(mgr: LogLevelManager, host: Host)
    requires RootName in host.loggers && host.loggers[RootName].Live?
    modifies mgr, host
    ensures mgr.overrides == old(mgr.overrides)
    ensures mgr.initials == BootInitials(old(mgr.initials), old(host.loggers), old(host.loggers).Keys)
    ensures host.loggers.Keys == old(host.loggers).Keys
    ensures host.loggers[RootName] == BootRoot(old(host.loggers)[RootName])
    ensures forall n :: n in old(host.loggers) && n != RootName && !Eligible(old(host.loggers), n) ==>
              host.loggers[n] == old(host.loggers)[n]
    ensures forall n :: Eligible(old(host.loggers), n) ==>
              Effective(mgr.initials, mgr.overrides, n).Some? &&
              host.loggers[n] == Relevelled(old(host.loggers)[n], Effective(mgr.initials, mgr.overrides, n).value)
  {
    ghost var loggers0 := host.loggers;
    host.EnableStderr(RootName);
    host.SetLevel(RootName, NOTSET);
    assert host.loggers == loggers0[RootName := BootRoot(loggers0[RootName])];
    assert forall n :: Eligible(host.loggers, n) <==> Eligible(loggers0, n);
    assert BootInitials(old(mgr.initials), host.loggers, host.loggers.Keys) ==
           BootInitials(old(mgr.initials), loggers0, loggers0.Keys);
    InitializeExisting(mgr, host);
  }
}

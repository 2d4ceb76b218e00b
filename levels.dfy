/**
 * Severity levels and the initial/override bookkeeping of lo99ing
 * (lo99ing/level.py). Levels are the plain integers of Python's `logging`
 * module; `LogLevelManager` keeps, per logger name, a one-time initial level
 * and an optional override level.
 */
module Levels {
  import opened Wrappers

  const NOTSET: int := 0
  const DEBUG: int := 10
  const INFO: int := 20
  const WARNING: int := 30
  const ERROR: int := 40
  const CRITICAL: int := 50

  /** The six standard levels of the `logging` module. */
  predicate IsStandard(level: int) {
    level in {NOTSET, DEBUG, INFO, WARNING, ERROR, CRITICAL}
  }

  /** What a caller may pass where a level is expected: an int, a str, or anything else. */
  datatype LevelInput = IntLevel(n: int) | NameLevel(s: string) | OtherValue

  /** `TypeError` for a value that is neither int nor str; an unknown level name. */
  datatype LevelError = InvalidType | UnknownName(name: string)

  /** ASCII upper-casing, standing for `str.upper`. */
  function UpperChar(c: char): (r: char)
    ensures 'a' <= c <= 'z' ==> 'A' <= r <= 'Z' && r as int == c as int - 32
    ensures !('a' <= c <= 'z') ==> r == c
  {
    if 'a' <= c <= 'z' then (c as int - 32) as char else c
  }

  function Upper(s: string): (r: string)
    ensures |r| == |s|
    ensures forall i :: 0 <= i < |s| ==> r[i] == UpperChar(s[i])
  {
    if s == [] then [] else [UpperChar(s[0])] + Upper(s[1..])
  }

  function LowerChar(c: char): char {
    if 'A' <= c <= 'Z' then (c as int + 32) as char else c
  }

  function Lower(s: string): (r: string)
    ensures |r| == |s|
    ensures forall i :: 0 <= i < |s| ==> r[i] == LowerChar(s[i])
  {
    if s == [] then [] else [LowerChar(s[0])] + Lower(s[1..])
  }

  /**
   * The integer-valued level attributes of the `logging` module, looked up by
   * their (upper-case) attribute name; `WARN` and `FATAL` are its aliases.
   */
  function LevelAttribute(upper: string): Option<int> {
    match upper
    case "NOTSET" => Some(NOTSET)
    case "DEBUG" => Some(DEBUG)
    case "INFO" => Some(INFO)
    case "WARNING" => Some(WARNING)
    case "WARN" => Some(WARNING)
    case "ERROR" => Some(ERROR)
    case "FATAL" => Some(CRITICAL)
    case "CRITICAL" => Some(CRITICAL)
    case _ => None
  }

  /** The canonical name of a standard level (`logging.getLevelName`). */
  function LevelName(level: int): (r: string)
    requires IsStandard(level)
    ensures LevelAttribute(r) == Some(level)
    ensures forall i :: 0 <= i < |r| ==> 'A' <= r[i] <= 'Z'
  {
    if level == NOTSET then "NOTSET"
    else if level == DEBUG then "DEBUG"
    else if level == INFO then "INFO"
    else if level == WARNING then "WARNING"
    else if level == ERROR then "ERROR"
    else "CRITICAL"
  }

  /** `to_level`: ints pass through, names are resolved case-insensitively, anything else fails. */
  function ToLevel(x: LevelInput): (r: Result<int, LevelError>)
    ensures x.IntLevel? ==> r == Success(x.n)
    ensures x.OtherValue? ==> r == Failure(InvalidType)
    ensures x.NameLevel? && r.Success? ==> IsStandard(r.value)
    ensures x.NameLevel? && r.Failure? ==> r.error == UnknownName(x.s)
  {
    match x
    case IntLevel(n) => Success(n)
    case NameLevel(s) =>
      (match LevelAttribute(Upper(s))
       case Some(v) => Success(v)
       case None => Failure(UnknownName(s)))
    case OtherValue => Failure(InvalidType)
  }

  lemma {:induction false} UpperIdempotent(s: string)
    ensures Upper(Upper(s)) == Upper(s)
  {
    if s != [] {
      UpperIdempotent(s[1..]);
      assert Upper(Upper(s)) == [UpperChar(UpperChar(s[0]))] + Upper(Upper(s[1..]));
    }
  }

  /** Level names are case-insensitive: a name and its upper-cased form resolve alike. */
  lemma ToLevelCaseInsensitive(s: string)
    ensures ToLevel(NameLevel(s)).Success? <==> ToLevel(NameLevel(Upper(s))).Success?
    ensures ToLevel(NameLevel(s)).Success? ==>
              ToLevel(NameLevel(s)).value == ToLevel(NameLevel(Upper(s))).value
  {
    UpperIdempotent(s);
  }

  lemma {:induction false} UpperOfLower(s: string)
    requires forall i :: 0 <= i < |s| ==> 'A' <= s[i] <= 'Z'
    ensures Upper(Lower(s)) == s
  {
    if s != [] {
      UpperOfLower(s[1..]);
      assert Lower(s) == [LowerChar(s[0])] + Lower(s[1..]);
    }
  }

  lemma {:induction false} UpperOfUpper(s: string)
    requires forall i :: 0 <= i < |s| ==> 'A' <= s[i] <= 'Z'
    ensures Upper(s) == s
  {
    if s != [] {
      UpperOfUpper(s[1..]);
    }
  }

  /** Every standard level round-trips through its name, in upper or lower case. */
  lemma NameRoundTrip(level: int)
    requires IsStandard(level)
    ensures ToLevel(NameLevel(LevelName(level))) == Success(level)
    ensures ToLevel(NameLevel(Lower(LevelName(level)))) == Success(level)
  {
    var name := LevelName(level);
    UpperOfLower(name);
    UpperOfUpper(name);
  }

  /** `get_effective`: the override if there is one, else the initial, else nothing. */
  function Effective(initials: map<string, int>, overrides: map<string, int>, name: string): (r: Option<int>)
    ensures name in overrides ==> r == Some(overrides[name])
    ensures name !in overrides && name in initials ==> r == Some(initials[name])
    ensures r.None? <==> name !in overrides && name !in initials
  {
    if name in overrides then Some(overrides[name])
    else if name in initials then Some(initials[name])
    else None
  }

  /** `dict.setdefault`: the first level recorded for a name is kept. */
  function SetDefault(m: map<string, int>, name: string, level: int): (r: map<string, int>)
    ensures name in r && r.Keys == m.Keys + {name}
    ensures name in m ==> r == m
    ensures name !in m ==> r[name] == level
    ensures forall n :: n in m ==> n in r && r[n] == m[n]
  {
    if name in m then m else m[name := level]
  }

  /** First write wins: a second `set_initial` for the same name changes nothing. */
  lemma InitialIsSticky(m: map<string, int>, name: string, first: int, later: int)
    ensures SetDefault(SetDefault(m, name, first), name, later) == SetDefault(m, name, first)
    ensures name !in m ==> SetDefault(SetDefault(m, name, first), name, later)[name] == first
  {
  }

  /** Clearing an override makes the effective level fall back to the initial. */
  lemma ClearFallsBackToInitial(initials: map<string, int>, overrides: map<string, int>, name: string)
    ensures Effective(initials, overrides - {name}, name) ==
              if name in initials then Some(initials[name]) else None
  {
  }

  /**
   * `LogLevelManager` (lo99ing/level.py:42-82). Levels are ints, so the
   * `assert level is not None` of `set_initial` and `set_override` is
   * discharged by the parameter type.
   */
  class LogLevelManager {
    var initials: map<string, int>
    var overrides: map<string, int>

    constructor ()
      ensures initials == map[] && overrides == map[]
    {
      initials := map[];
      overrides := map[];
    }

    method SetInitial(name: string, level: int)
      modifies this
      ensures initials == SetDefault(old(initials), name, level)
      ensures overrides == old(overrides)
    {
      if name !in initials {
        initials := initials[name := level];
      }
    }

    function GetInitial(name: string): (r: Option<int>)
      reads this
      ensures r.Some? <==> name in initials
      ensures r.Some? ==> r.value == initials[name]
    {
      if name in initials then Some(initials[name]) else None
    }

    function HasInitial(name: string): (r: bool)
      reads this
      ensures r <==> GetInitial(name).Some?
    {
      name in initials
    }

    method SetOverride(name: string, level: int)
      modifies this
      ensures overrides == old(overrides)[name := level]
      ensures initials == old(initials)
    {
      overrides := overrides[name := level];
    }

    function GetOverride(name: string): (r: Option<int>)
      reads this
      ensures r.Some? <==> name in overrides
      ensures r.Some? ==> r.value == overrides[name]
    {
      if name in overrides then Some(overrides[name]) else None
    }

    method ClearOverride(name: string)
      modifies this
      ensures overrides == old(overrides) - {name}
      ensures name !in old(overrides) ==> overrides == old(overrides)
      ensures initials == old(initials)
    {
      overrides := overrides - {name};
    }

    method GetEffective(name: string) returns (r: Option<int>)
      ensures r == Effective(initials, overrides, name)
    {
      if name in overrides {
        r := Some(overrides[name]);
      } else if name in initials {
        r := Some(initials[name]);
      } else {
        r := None;
      }
    }

    /** A copy of the overrides; maps are values, so later updates of either side are independent. */
    method GetAllOverrides() returns (r: map<string, int>)
      ensures r == overrides
    {
      r := overrides;
    }

    /** Replays `set_override` for every entry of `m`. */
    method RestoreOverrides(m: map<string, int>)
      modifies this
      ensures overrides == old(overrides) + m
      ensures initials == old(initials)
    {
      var pending := m.Keys;
      while pending != {}
        invariant pending <= m.Keys
        invariant overrides == old(overrides) + (m - pending)
        invariant initials == old(initials)
        decreases pending
      {
        var name :| name in pending;
        SetOverride(name, m[name]);
        pending := pending - {name};
      }
    }
  }
}

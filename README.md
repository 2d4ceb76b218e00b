# lo99ing in Dafny

This project models the core of lo99ing, a thin layer over Python's `logging` module. The model covers:

- **Levels.** Levels are the plain integers of `logging` (NOTSET 0 to CRITICAL 50). `to_level` turns an int or a level name into a level.
- **`LogLevelManager`.** It keeps two maps per logger name: a one-time *initial* level (the first write wins) and an optional *override*. The effective level is the override, else the initial. `set_log_level_override` pushes the effective level into the live logger, but only once the name has an initial.
- **`get_logger`.** On first use it picks the initial level from a five-row decision table, sets the live level to the effective level, and sets `propagate`. A logger that does not propagate gets the shared stderr handler. `_name_fixup` turns a file path into a module name.
- **The import-time bootstrap.** The root logger gets the stderr handler and level NOTSET. Every logger registered earlier that has no level of its own gets the initial WARNING.
- **Prefix adapters.** `prefixed(logger, text)` wraps a logger, or another adapter, and adds its accumulated prefix to every message. The model also covers `getChild` on loggers and adapters, how `Lo99er._log` maps exception arguments, and which exception object `Lo99er.exception` reports along with its attribute lines.
- **Handler lists.** `enable_stderr` and `disable_stderr` edit a logger's handler list. `_add_logging_handler` and `enable_file` install a handler.
- **The daily rotating file handler.** Its pattern must contain `*`, and four keyword arguments are refused. The file name is the pattern with every `*` replaced by the UTC date as `YYYYMMDD`. `doRollover` reopens the file of the current date and schedules the next rollover.
- **String helpers.** The model covers `truncate`, `join_lines`, `oneline`, `get_exception_kwargs`, `format_exception` and `is_installed_module`.

The host `logging` registry is the class `Registry.Host`. It holds a map from logger name to entry. An entry is either a placeholder or a logger, recorded by its class (`Lo99er` or foreign), live level, `propagate` flag and handler list. The model follows Python 3.6, the last version in which `LoggerAdapter.log` hands its message straight to the wrapped logger's `_log`, which is what lo99ing's prefix adapters are built for. In that version `logging.getLogger('')` is the root logger and `"root"` is an ordinary name, so the root's entry is kept under the empty name. A new name also brings placeholders for its missing dotted ancestors, as `Manager._fixupParents` places them; `logging/__init__.py` is not part of this model, and its 3.6 behaviour is stated in `Registry.FixupFrom`. The one process-wide `LogLevelManager` is an object of the class `Levels.LogLevelManager`. Operations that change the manager or the registry are methods on these objects. Pure computations are functions, and their properties are lemmas.

Time is a whole number of seconds since 1970-01-01 UTC. `Calendar` turns it into a civil date with a verified day-number conversion and renders the date as `YYYYMMDD`.

`to_level` on an unknown name is modelled as an error, `UnknownName`. The code catches `KeyError` around `getattr` (lo99ing/level.py:30-33), and `getattr` raises `AttributeError` instead. So an unknown name actually raises `AttributeError` rather than the `ValueError` the code intends. The model only records that the call fails and changes nothing.

## Model

| member | source | states |
|---|---|---|
| Levels.ToLevel | lo99ing/level.py:26-36 | an int is returned unchanged; a name resolves to a standard level or fails with that name; any other value fails with a type error |
| Levels.ToLevelCaseInsensitive | lo99ing/level.py:29-31 | a name and its upper-cased form resolve to the same result |
| Levels.NameRoundTrip | lo99ing/level.py:29-31 | each standard level's name, in upper or lower case, resolves back to that level |
| Levels.LevelName | lo99ing/level.py:31 | the canonical name of each standard level is an upper-case attribute name that resolves to that level |
| Levels.Effective | lo99ing/level.py:71-75 | the override if present, else the initial, else nothing; nothing exactly when neither map has the name |
| Levels.SetDefault | lo99ing/level.py:51-53 | a name already present keeps its level; a new name gets the given level; other names are unchanged |
| Levels.InitialIsSticky | lo99ing/level.py:51-59 | a second `set_initial` for a name changes nothing; the first level stays recorded |
| Levels.ClearFallsBackToInitial | lo99ing/level.py:68-75 | after an override is removed, the effective level is the initial, or nothing |
| Levels.LogLevelManager.constructor | lo99ing/level.py:47-49 | both maps start empty |
| Levels.LogLevelManager.SetInitial | lo99ing/level.py:51-53 | initials become `setdefault` of the old initials; overrides are untouched |
| Levels.LogLevelManager.GetInitial | lo99ing/level.py:55-56 | the recorded initial of the name, or nothing when there is none |
| Levels.LogLevelManager.HasInitial | lo99ing/level.py:58-59 | true exactly when an initial is recorded for the name |
| Levels.LogLevelManager.SetOverride | lo99ing/level.py:61-63 | the name's override becomes the level; initials are untouched |
| Levels.LogLevelManager.GetOverride | lo99ing/level.py:65-66 | the name's override, or nothing when there is none |
| Levels.LogLevelManager.ClearOverride | lo99ing/level.py:68-69 | the name's override is removed; without one nothing changes; initials are untouched |
| Levels.LogLevelManager.GetEffective | lo99ing/level.py:71-75 | returns `Effective` of the current maps |
| Levels.LogLevelManager.GetAllOverrides | lo99ing/level.py:77-78 | a copy equal to the overrides; as a value it cannot alias the manager's map |
| Levels.LogLevelManager.RestoreOverrides | lo99ing/level.py:80-82 | the loop leaves every entry of the argument in the overrides with its value; other overrides and all initials are unchanged |
| LevelApi.SetLogLevel | lo99ing/level.py:16-18 | a rejected level changes nothing; otherwise the named logger (created when missing, with placeholders for its missing dotted ancestors as `Registered` says) gets the level, and no other entry changes |
| LevelApi.GetLogLevelOverride | lo99ing/level.py:88-91 | the name's current override, or nothing |
| LevelApi.OverridesAfter | lo99ing/level.py:100-104 | `None` removes the name's override, a level sets it; other names keep theirs |
| LevelApi.EffectiveAfterOverride | lo99ing/level.py:99-108 | after the update the name's effective level is the new override, or the initial once cleared; other names are unaffected |
| LevelApi.SetLogLevelOverride | lo99ing/level.py:94-109 | a rejected level changes nothing; otherwise the overrides are updated, the initials are kept, and the live level becomes the effective level only if the name has an initial |
| LevelApi.GetLogLevelOverrides | lo99ing/level.py:112-115 | equals the current overrides |
| LevelApi.RestoreLogLevelOverrides | lo99ing/level.py:118-124 | the overrides are extended by the argument; initials and live levels are untouched |
| Registry.NewLo99er | lo99ing/_bootstrap.py:13 | a new `Lo99er` has the given default level, propagates, and has no handlers |
| Registry.Obtain | lo99ing/utils.py:34 | `getLogger` returns an existing logger as it is, and a new `Lo99er` for a missing name or a placeholder |
| Registry.EmptyNameIsRoot | lo99ing/level.py:16-18 | `getLogger('')` is the root logger, and "root" names an ordinary new logger |
| Registry.FixupFrom | lo99ing/utils.py:34 | the `_fixupParents` scan from one dot: every existing entry is kept, and every added entry is a placeholder at a proper prefix of the name that ends before a dot |
| Registry.FixupParents | lo99ing/utils.py:34 | the whole scan, from the last dot: existing entries kept, only placeholders at dotted prefixes added |
| Registry.Registered | lo99ing/utils.py:34 | the registry after `getLogger`: the name holds `Obtain`'s entry, an existing logger changes nothing, every other entry is kept, and added entries are placeholders at dotted prefixes |
| Registry.UndottedNameHasNoParents | lo99ing/utils.py:34 | a name without a dot adds no placeholder |
| Registry.ParentIsPresent | lo99ing/_bootstrap.py:25-27 | after `getLogger` of a new dotted name its immediate parent is registered, so `loggerDict` can hold placeholders |
| Registry.FixupStopsAtLogger | lo99ing/utils.py:34 | when the immediate parent is a logger, the scan adds nothing |
| Registry.FixupFromReachesEveryDot | lo99ing/utils.py:34 | without doubled dots and with no logger among the prefixes, the scan from a dot registers every dotted prefix before it |
| Registry.EveryParentPresent | lo99ing/_bootstrap.py:25-27 | a new name without doubled dots and without a logger among its prefixes leaves every dotted prefix registered |
| Registry.ThreeLevelsFromRoot | lo99ing/utils.py:34 | `getLogger("a.b.c")` with only the root registered adds the logger and placeholders for "a.b" and "a" |
| Registry.Relevelled | lo99ing/level.py:18 | `setLevel` changes the level only |
| Registry.Host.constructor | lo99ing/_bootstrap.py:26 | the registry holds the given entries |
| Registry.Host.GetLogger | lo99ing/utils.py:34 | returns `Obtain` of the registry; the `_fixupParents` loop leaves the registry as `Registered`: unchanged for an existing logger, else the new entry under the name and placeholders at missing dotted prefixes |
| Registry.Host.SetLevel | lo99ing/level.py:16-18 | the named logger exists afterwards and has the level; otherwise the registry is `Registered`, so only placeholders at dotted prefixes of a new name are added |
| Registry.Host.SetPropagate | lo99ing/utils.py:70 | only the named logger's `propagate` flag changes |
| Registry.Host.EnableStderr | lo99ing/handlers.py:127-136 | the logger's handler list becomes `WithStderr` of it; nothing else changes |
| Registry.Host.DisableStderr | lo99ing/handlers.py:139-146 | the logger's handler list becomes `WithoutStderr` of it, through `RemoveStderr`; nothing else changes |
| Registry.Host.AddNewLoggingHandler | lo99ing/handlers.py:167-172 | a handler object created just before, with the default formatter if it had none, is always appended to the logger's list; nothing else changes |
| Registry.Host.AddLoggingHandler | lo99ing/handlers.py:167-172 | the logger's list becomes `AttachHandler` of it: an attached handler is formatted in place and not added again, another one is appended formatted; nothing else changes |
| Handlers.WithStderr | lo99ing/handlers.py:133-136 | the result has a stderr handler; a list that already had one is unchanged; otherwise the shared handler is appended |
| Handlers.WithoutStderr | lo99ing/handlers.py:144-150 | the result has no stderr handler and holds exactly the non-stderr handlers of the input |
| Handlers.RemoveStderr | lo99ing/handlers.py:143-146 | the loop over a snapshot of the list keeps exactly `WithoutStderr` of it: the non-stderr handlers, in order |
| Handlers.WithStderrIdempotent | lo99ing/handlers.py:133-136 | `enable_stderr` twice is `enable_stderr` once |
| Handlers.WithoutStderrAppend | lo99ing/handlers.py:144-146 | removal distributes over concatenation, so the other handlers keep their order |
| Handlers.WithoutStderrNoop | lo99ing/handlers.py:144-146 | a list without stderr handlers is left as it is |
| Handlers.DisableThenEnable | lo99ing/handlers.py:127-146 | disabling then enabling leaves the other handlers in order, followed by one stderr handler |
| Handlers.AddHandler | lo99ing/handlers.py:172 | `addHandler` appends a handler that is not attached yet and leaves the list alone otherwise; the result holds the old handlers and the new one |
| Handlers.AddHandlerIdempotent | lo99ing/handlers.py:172 | adding the same handler twice is adding it once |
| Handlers.WithStderrIsAddHandler | lo99ing/handlers.py:133-136 | when no stderr handler is attached, `enable_stderr` is `addHandler` of the shared one |
| Handlers.Formatted | lo99ing/handlers.py:170-171 | the default formatter is set only when the handler has none |
| Handlers.FormatAttached | lo99ing/handlers.py:170-171 | `setFormatter` on an attached handler object: every entry that is the handler becomes `Formatted` of it, every other entry and the length stay |
| Handlers.AttachHandler | lo99ing/handlers.py:167-172 | `_add_logging_handler` on a list: the formatted handler is in the result; an attached handler is formatted in place with the length kept; any other is added through `AddHandler` |
| Handlers.AttachHandlerOnce | lo99ing/handlers.py:167-172 | passing the same handler object again, now formatted, changes nothing |
| Handlers.AttachFormattedIsAddHandler | lo99ing/handlers.py:170-172 | for a handler that has a formatter, `_add_logging_handler` is `addHandler` alone |
| Handlers.AttachedUnformattedHandler | lo99ing/handlers.py:170-172 | `[h]` with `h` attached without a formatter becomes `[h]` formatted, one entry |
| Misc.SlicePrefix | lo99ing/misc.py:27 | Python's `x[:k]`: a negative bound counts from the end, and bounds are clipped |
| Misc.Truncate | lo99ing/misc.py:18-29 | a string within the bound is unchanged; a longer one becomes `x[:maxlen-4] + " ..."` of exactly `maxlen` characters when `maxlen >= 4`; it always ends with " ..." after a prefix of `x` |
| Misc.TruncateSmallBound | lo99ing/misc.py:25-27 | with a bound below 4 the slice bound is negative and counts from the end of the string |
| Misc.Strip | lo99ing/misc.py:34 | `str.strip()` is the slice of the input (`SliceBetweenSpaces`) left after removing only whitespace at both ends, and it neither starts nor ends with whitespace |
| Misc.SplitLines | lo99ing/misc.py:34 | no line holds a newline; there are no lines exactly when the input is empty |
| Misc.JoinLinesHasNoNewline | lo99ing/misc.py:32-34 | `join_lines` output never contains a newline |
| Misc.JoinLinesOfOneLine | lo99ing/misc.py:32-34 | a string without newlines is only stripped |
| Misc.SplitJoinRoundTrip | lo99ing/misc.py:34 | splitting lines joined by newlines gives the lines back (the last line not empty) |
| Misc.Oneline | lo99ing/misc.py:37-39 | the result never contains a newline |
| Misc.ExceptionKwargs | lo99ing/misc.py:45-51 | keeps exactly the attributes that neither start with `_` nor are `args`/`message`, with their values |
| Misc.ExceptionKwargsOfOne | lo99ing/misc.py:48-50 | no attributes give nothing; one attribute is kept exactly when its name is kept |
| Misc.ExceptionKwargsAppend | lo99ing/misc.py:45-51 | filtering goes piece by piece, so the kept attributes are in the order of `vars(e)`, each once |
| Misc.ExceptionText | lo99ing/misc.py:56-62 | `str(e)`; if that fails, `repr(e)`; if that fails too, the fixed message |
| Misc.FormatException | lo99ing/misc.py:54-63 | the class name, then " - ", then the text |
| Misc.FormatExceptionClassName | lo99ing/misc.py:63 | the class name is recovered as the first word of the result |
| Paths.Components | lo99ing/misc.py:76 | the named components of a path contain no separator and are not empty |
| Paths.ParentNamesAreAncestors | lo99ing/misc.py:74-77 | some parent's name is an install directory iff some component other than the last one is |
| Paths.IsInstalledModuleSpec | lo99ing/misc.py:69-77 | a module is installed iff a directory above it (not its own name) is `site-packages` or `dist-packages` |
| Paths.Stem | lo99ing/utils.py:102 | the name cut before its last dot when some character before that dot is not a dot, and the whole name otherwise |
| Paths.NameFixup | lo99ing/utils.py:90-107 | a name without separator is unchanged; the result never holds a separator |
| Paths.NameFixupIdempotent | lo99ing/utils.py:90-107 | fixing a name up twice is fixing it once |
| Paths.ComponentsConcat | lo99ing/utils.py:101 | the components of `a/b` are those of `a` followed by those of `b` |
| Paths.StemOfAbc | lo99ing/utils.py:94-95 | the stem of "abc.py" is "abc" |
| Paths.StemOfInit | lo99ing/utils.py:96-97 | the stem of "\_\_init\_\_.py" is "\_\_init\_\_" |
| Paths.NameFixupOfModuleFile | lo99ing/utils.py:94-105 | a module file `dirs/file` is named by its stem |
| Paths.NameFixupOfPackageInit | lo99ing/utils.py:96-105 | a package's `dirs/pkg/__init__.py` is named by its directory |
| Calendar.MonthsFillYear | lo99ing/handlers.py:67 | the days before a month plus its length never pass the year's length |
| Calendar.CivilFromDays | lo99ing/handlers.py:110-111 | the date of a day number is a valid date with that day number |
| Calendar.DateOf | lo99ing/handlers.py:110-111 | the UTC date of an instant is valid, and its day number is the instant divided by 86400 |
| Calendar.DayNumberOrdered | lo99ing/handlers.py:110-111 | earlier dates have smaller day numbers |
| Calendar.DayNumberInjective | lo99ing/handlers.py:110-111 | different valid dates have different day numbers |
| Calendar.CivilRoundTrip | lo99ing/handlers.py:110-111 | a valid date converted to its day number and back is the same date |
| Calendar.DigitsRoundTrip | lo99ing/handlers.py:67 | a number below 10^width takes exactly `width` zero-padded digits that read back as the number |
| Calendar.YYYYMMDD | lo99ing/handlers.py:67 | `%Y%m%d` gives only digits |
| Calendar.DateStringRoundTrip | lo99ing/handlers.py:67 | a rendered date has 8 characters whose year, month and day fields read back as the date |
| Calendar.DateStringInjective | lo99ing/handlers.py:67 | different dates are rendered differently |
| Rotation.ReplaceStar | lo99ing/handlers.py:76 | a pattern without `*` is unchanged; with one, replacing by a longer text makes it longer |
| Rotation.FirstRefused | lo99ing/handlers.py:80-82 | the first refused keyword in checking order that was passed, or nothing when none was |
| Rotation.ValidatePattern | lo99ing/handlers.py:73-82 | a pattern without `*` fails first; then any refused keyword fails; success exactly when both checks pass, with the pattern's `*`s replaced by `%Y%m%d` |
| Rotation.DailyHandlerArgs | lo99ing/handlers.py:73-85 | lo99ing's checks first; then the base constructor rejects keywords other than `interval`, `encoding` and `delay`; success exactly for a pattern with `*` and only those keywords |
| Rotation.StrftimeDateFormat | lo99ing/handlers.py:113-114 | `%Y%m%d` renders a date as YYYYMMDD |
| Rotation.FileNameReplacesStars | lo99ing/handlers.py:113-114 | the file name of a date is the pattern with every `*` replaced by the date as YYYYMMDD |
| Rotation.FileNamesDiffer | lo99ing/handlers.py:113-114 | different dates give different file names |
| Rotation.NextMidnight | lo99ing/handlers.py:105 | the next UTC midnight is after the instant, at most one day later, and a multiple of 86400 |
| Rotation.NextMidnightIsNextDay | lo99ing/handlers.py:105 | the next midnight falls on the following day |
| Rotation.RolloverChangesFile | lo99ing/handlers.py:99-105 | a rollover at the next midnight opens a file with a different name |
| Rotation.NextRolloverSpec | lo99ing/handlers.py:104-108 | the scheduled instant is after now, a whole number of intervals after `computeRollover`, and the first such instant |
| Rotation.NextRolloverAtMidnight | lo99ing/handlers.py:105-108 | with the next midnight as `computeRollover`, the loop adds nothing |
| Rotation.DailyRotatingFileHandler.constructor | lo99ing/handlers.py:79-85 | the file of the current date is open for appending, and the first rollover is the given `computeRollover` result (of the file's modification time when it exists, else of the current time) |
| Rotation.DailyRotatingFileHandler.DoRollover | lo99ing/handlers.py:91-108 | exactly one stream is open, in mode 'a', on the file of the current date; `rolloverAt` is after now and is `computeRollover` plus whole intervals |
| Rotation.NewDailyRotatingFileHandler | lo99ing/handlers.py:69-85 | fails exactly as `DailyHandlerArgs` does; otherwise a new handler on the file of the current date |
| Rotation.FileHandlerFor | lo99ing/handlers.py:159-163 | the caller's handler; else a rotating handler or its error when `rotate`; else a plain file handler, or a `TypeError` for keywords other than `mode`, `encoding` and `delay` |
| Rotation.EnableFile | lo99ing/handlers.py:153-164 | a rejected pattern or keyword changes nothing; a handler the caller passes is attached through `AttachHandler`, so an attached one is formatted in place and not added twice; a handler built here is a new object and is always appended, formatted; the result only records the handler or the error, since `enable_file` returns `None` |
| Logger.Prefixed | lo99ing/logger.py:184-186 | the result is an adapter over the given object, with the same underlying logger |
| Logger.PrefixedLayout | lo99ing/logger.py:144-148 | a new adapter's prefix is the wrapped prefix ("" for a logger), then the new text, then one space |
| Logger.BaseOf | lo99ing/logger.py:169-171 | every chain of adapters ends in a logger |
| Logger.Message | lo99ing/logger.py:154-155 | an adapter's message is its prefix followed by the message; a logger's is the message |
| Logger.ChainPrefix | lo99ing/logger.py:144-163 | adapters nest to any depth, each adding its text and one space after the inner prefixes |
| Logger.TwoPrefixes | lo99ing/logger.py:184-186 | `prefixed(prefixed(L, p1), p2)` logs `p1 + " " + p2 + " " + msg` through `L` |
| Logger.ChildName | lo99ing/logger.py:57-62 | the suffix alone under the root, else `name + "." + suffix` |
| Logger.ChildNameComposes | lo99ing/logger.py:57-62 | a child of a child is the child named by the dotted path |
| Logger.GetChildAsWritten | lo99ing/logger.py:173-175 | the child of an adapter is a new adapter over the inner child, whose added text is the whole parent prefix |
| Logger.GetChildAsWrittenOneLevel | lo99ing/logger.py:173-175 | the child of a one-level adapter logs with the parent's prefix plus one more space |
| Logger.GetChildAsWrittenTwoLevels | lo99ing/logger.py:173-175 | the child of a two-level adapter repeats the inner prefix |
| Logger.GetChildAsWrittenCounterexample | lo99ing/logger.py:173-175 | for `prefixed(prefixed(L, "A"), "B")` the child's prefix is "A  A B  " where the parent's is "A B " |
| Logger.GetChild | lo99ing/logger.py:173-175 | corrected: the child adapter keeps the parent's prefix over the child logger |
| Logger.GetChildKeepsMessages | lo99ing/logger.py:173-175 | a corrected child logs every message exactly as its parent does |
| Logger.MapArgs | lo99ing/logger.py:28-31 | same count and order; each `Exception` becomes its `format_exception` text; other arguments are unchanged |
| Logger.MapArgsIdempotent | lo99ing/logger.py:28-31 | no `Exception` is left, so mapping again changes nothing |
| Logger.Log | lo99ing/logger.py:25-34 | the underlying logger receives the outermost prefix and the message, with arguments mapped when it is a `Lo99er` |
| Logger.LogThroughChain | lo99ing/logger.py:169-171 | logging through a chain of adapters adds every prefix once, innermost first |
| Logger.ResolveException | lo99ing/logger.py:39-47 | an instance is taken as it is; a tuple gives its value; otherwise the exception being handled is used and passed on |
| Logger.ResolveExceptionSource | lo99ing/logger.py:39-47 | the reported object is the given one or the current one, and the `exc_info` passed on carries it |
| Logger.AttributeLines | lo99ing/logger.py:53-55 | one line per kept attribute, in order, each `"\t" + class + "." + attr + " = " + oneline(value)` |
| Logger.AttributeLinesAreSingleLines | lo99ing/logger.py:53-55 | no attribute line holds a newline |
| Logger.ExceptionLog | lo99ing/logger.py:36-55 | the first record is the message; then one record per attribute line, in order; it raises, after the first record, when no exception object is found |
| Logger.ErrorRecords | lo99ing/logger.py:54-55 | one `error` record per line, in order, holding the line and no arguments |
| Logger.SetLogLevelOverride | lo99ing/logger.py:91-96 | on a `Lo99er` or an adapter over one: a rejected level changes nothing; otherwise the override of the underlying logger's name becomes the converted level or is cleared, and its live level follows the effective level only if the name has an initial |
| Logger.OverrideTargetOfAdapters | lo99ing/logger.py:177-178 | wrapping or taking an adapter's child never changes whose override is set |
| Utils.DefaultLevel | lo99ing/logger.py:67-89 | WARNING exactly for an installed calling module; INFO otherwise and when the caller's file is unknown |
| Utils.ChooseInitial | lo99ing/utils.py:43-61 | no initial exactly for a foreign NOTSET logger without a caller level; a `Lo99er` or a NOTSET logger takes the caller's level; otherwise the current level |
| Utils.CallerLevelIsInitial | lo99ing/utils.py:44-58 | the caller's level is recorded as the initial of a `Lo99er` or of an unset foreign logger |
| Utils.PreRegisteredOverrideWins | lo99ing/utils.py:63-68 | an override set before first use decides the live level, while the recorded initial is still the chosen one |
| Utils.ForeignUnsetStaysUnset | lo99ing/utils.py:53-58 | a foreign NOTSET logger found without a level gets no initial and no effective level |
| Utils.Propagating | lo99ing/utils.py:70-73 | `propagate` is set, and the stderr handler is present when it is false |
| Utils.Initialized | lo99ing/utils.py:63-73 | the live level is the new level when one was chosen; `propagate` is the argument |
| Utils.SetPropagation | lo99ing/utils.py:70-73 | only the logger's entry changes, to `Propagating` of it |
| Utils.RecordInitial | lo99ing/utils.py:63-68 | the chosen initial is recorded and the live level becomes the effective level; without a choice nothing changes |
| Utils.Initialize | lo99ing/utils.py:43-73 | the first-use branch: initial recorded per `ChooseInitial`, live level at the effective level, `propagate` set |
| Utils.GetLogger | lo99ing/utils.py:22-75 | a rejected level changes nothing; otherwise the registry becomes `Registered` (placeholders at missing dotted ancestors of a new name); an initialized name changes nothing more; otherwise the first-use update of the manager and the logger |
| Utils.GetChild | lo99ing/logger.py:57-62 | never fails; returns the child's name; the registry becomes `Registered` for it, and a child without initial is initialized as `get_logger` does with no level and `propagate` true |
| Utils.NewChildKeepsDefaultLevel | lo99ing/logger.py:57-62 | a child taken for the first time is a new `Lo99er` whose default level becomes its initial and, without an override, its live level |
| Bootstrap.BootInitials | lo99ing/_bootstrap.py:26-29 | exactly the old initials plus WARNING for each eligible name without one |
| Bootstrap.BootRoot | lo99ing/_bootstrap.py:16-22 | the root has level NOTSET and a stderr handler |
| Bootstrap.BootInitialsStep | lo99ing/_bootstrap.py:29 | handling one more name is `set_initial(name, WARNING)` when it is eligible, and nothing otherwise |
| Bootstrap.EffectiveElsewhere | lo99ing/_bootstrap.py:29-30 | recording one name's initial leaves every other name's effective level alone |
| Bootstrap.EligibleLevel | lo99ing/_bootstrap.py:29-30 | an eligible logger's effective level is its override, else its earlier initial, else WARNING |
| Bootstrap.InitializeUnset | lo99ing/_bootstrap.py:27-30 | an eligible logger gets initial WARNING (first write wins) and the effective level; other names are skipped |
| Bootstrap.BootStep | lo99ing/_bootstrap.py:26-30 | handling one more name as the loop body does keeps the state described for the names handled so far |
| Bootstrap.InitializeExisting | lo99ing/_bootstrap.py:26-30 | the loop: initials become `BootInitials`; eligible loggers get their effective level; the others are untouched |
| Bootstrap.Bootstrap | lo99ing/_bootstrap.py:13-30 | the root gets the stderr handler and NOTSET; the loop's result holds for every other logger |

## Left out

- The lock `logging_lock` and all threading: every operation is atomic and sequential.
- Level filtering (`isEnabledFor`), record formatting, handler emission and file I/O belong to `logging` itself. `Logger.Log` describes what reaches `_log` once a level is enabled.
- Logger.Log: follows Python 3.6, in which `LoggerAdapter.log` hands the processed message to `self.logger._log`, so only the outermost prefix is applied. From Python 3.7 on, `LoggerAdapter.log` calls `self.logger.log`, so every inner adapter processes the message again. That behaviour is not modelled.
- Utils.DefaultLevel: the call-stack search of `_set_default_level` becomes the caller's file name as a parameter. `None` stands for a failed search.
- `TRACE`, `_findCaller`, `__repr__`, `_ErrorHandlerMixin.handleError`, `use_utc`/`use_clock`, `get_file_logger`, `get_log_level` and `is_enabled` are not part of this model. They do stack inspection, printing, formatter patching, or only combine modelled operations.
- Levels.ToLevel: upper-cases ASCII letters only. Python's `str.upper` also maps other characters ("ınfo" becomes "INFO", "notſet" becomes "NOTSET"), so such names resolve in the code and are unknown here.
- Levels.ToLevel: resolves only the int-valued level attributes of `logging`, including the aliases WARN and FATAL. An upper-case name of some other attribute (such as `BASIC_FORMAT`) returns that attribute's value in the code; here it is an unknown name.
- Rotation.Strftime: interprets `%Y`, `%m`, `%d` and `%%` only. Other `%` directives in a pattern are copied as text.
- Rotation.DailyRotatingFileHandler.constructor: `os.path.abspath` of the first file name, and the effect of the accepted `delay`, `encoding` and `interval` keywords are not modelled; `interval` would multiply the day. The interval is one day.
- Rotation.DailyRotatingFileHandler.DoRollover: `computeRollover` (in `logging.handlers`) is a parameter. `Rotation.NextMidnight` is its value for `when='MIDNIGHT'`, `utc=True`. The two clock reads (`utcnow()` for the file name and `time.time()` for scheduling) are separate parameters.
- Registry.Host: handlers are values describing their target and formatter. Object identity of handlers and the `stderr_handler` singleton is reduced to this value.
- Registry.Host.GetLogger: a placeholder's list of children, each logger's `parent` link and `_fixupChildren` are not modelled; a placeholder is only a marker in the registry.
- Registry.Host.AddLoggingHandler: handler objects are identified by value, so `setFormatter` reaches every attached entry equal to the handler, and `addHandler` treats a distinct object with the same target and formatter as attached, while Python attaches both.
- Rotation.FileHandlerFor: the effect of the accepted `mode`, `encoding` and `delay` keywords of a plain file handler is not modelled. Python's `TypeError` names one unexpected keyword, and the model's error carries all of them.
- Misc.SplitLines: only `\n` ends a line. The other line boundaries `str.splitlines` knows are not modelled.
- Paths: paths are POSIX paths with '/' as the only separator. On Windows, `os.path.sep` and `Path` also split at `\`, which is not modelled.
- Paths.Stem: only the last-dot rule of `os.path.splitext` is modelled, together with its rule for names that start with dots.
- Calendar: instants before 1970 are not modelled. Years above 9999, which `datetime` cannot reach, are left out of the string round-trip lemmas.
- Non-string logger names, `Path` objects as patterns, and `None` as a pattern are left out. The model passes strings.

## Findings

| source | as written | input that shows it | evidently intended | confidence | as-written member | corrected member |
|---|---|---|---|---|---|---|
| lo99ing/logger.py:173-175 | `getChild` on an adapter wraps the inner object's child in a new adapter whose added text is the parent's whole prefix. Line 148 then puts the inner child's prefix in front again and appends a space. | `prefixed(prefixed(L, "A"), "B").getChild("c")` logs with prefix "A  A B  " | the child logs with the parent's prefix "A B " | not executed | Logger.GetChildAsWrittenCounterexample | Logger.GetChildKeepsMessages |

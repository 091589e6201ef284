# slepy core in Dafny

This project models three parts of the slepy toolkit and proves what they promise:

- **Colours** (`Colors`, `Palette`). `colorize(color, reset)` returns a wrapper that frames a text between a colour code and a reset code. The metaclass `DynamicColorize` runs once, when class `Color` is created. It walks the `__colors__` table and stores one static wrapper per entry, under the lower-cased entry name. Each wrapper is built from that entry's code and the table's `RESET` code. `colorize_bool` renders a boolean with the green or red wrapper. The codes are SGR control sequences (section 8.3.117 of ECMA-48). The bright parameters 90–97 and 100–107, used by `GREY` and the three bright groups, are a widespread terminal extension outside the standard.
  - The metaclass loop is a method with a loop (`Colors.DynamicColorizeNew`). It is proved equal to a fold over the table (`Colors.NewClassDict`), and the lemmas about the fold state what the class namespace ends up holding.
  - The 58-entry table is kept in the source's eight groups. Six of those groups list the same eight hues with a suffix (`RED_BOLD`, `RED_UNDERLINED`, …). The model builds their names as hue + suffix, which gives exactly the names the source spells out. The facts the metaclass relies on are proved for the whole table: names are upper-case and pairwise distinct, so their lower-cased forms are distinct too.
- **Singleton registry** (`Singleton`). `SingletonMeta` keeps one registry `_instances` for every class it builds. It is a class with a `map` field. Its methods are proved against specification functions, and lemmas over any sequence of operations state the singleton promise:
  - an entry is never replaced or removed;
  - strict construction succeeds at most once per class;
  - every object handed out for a class is the same one.
- **Logger factory** (`Logger`).
  - `LoggerFactory.getLogger` is a method on a class that holds the name → logger cache. It resolves a new logger's level (`Logger.ResolveLevel`), adds exactly one handler at that level, and caches the logger.
  - `FORMATS` maps each severity to a template built from the colour wrappers.
  - The `log` property that `inject_logger` adds to a class asks the factory once and keeps the answer in `__logger__`. It reaches the factory through `LoggerFactory.instance`. That accessor calls `get_instance()` with no arguments, so it fails until the factory has been constructed with its default level.

Three behaviours of the code that the model keeps:

- A level of 0, or the name `"NOTSET"`, also falls back to the default level, because the code tests `if not logging_level`.
- `logging.getLogger(name)` may hand back a logger that already exists. The factory then adds its handler to that logger's existing handlers.
- `logging.getLogger("")` returns the root logger, whose name is "root". The cache may therefore hold one logger under two keys, `""` and `"root"`, and asking for both adds two handlers to it.

## Model

| member | source | states |
|---|---|---|
| Colors.Wrapper.Apply | slepy/colors/colors.py:6-9 | the wrapped text is the colour code, then the text, then the reset code; its length is their total |
| Colors.Unwrap | slepy/colors/colors.py:9 | the inverse of a wrapper: whatever it returns, wrapped again, gives the input |
| Colors.UnwrapApply | slepy/colors/colors.py:6-9 | unwrapping a wrapper's output gives back the wrapped text |
| Colors.ApplyInjective | slepy/colors/colors.py:6-9 | a wrapper never maps two texts to one output |
| Colors.DistinctColorsDistinctOutput | slepy/colors/colors.py:6-9 | two wrappers with different colour codes and one reset never render a text alike |
| Colors.Lower | slepy/colors/colors.py:13 | `str.lower` keeps the length and lower-cases each character on its own |
| Colors.LowerAppend | slepy/colors/colors.py:13 | lower-casing distributes over concatenation |
| Colors.LowerInjective | slepy/colors/colors.py:13 | two upper-case names with the same lower-case form are equal |
| Colors.Lookup | slepy/colors/colors.py:15 | dictionary lookup: no entry has the key exactly when the result is missing, and a found value belongs to an entry with that key |
| Colors.DynamicColorizeNew | slepy/colors/colors.py:11-17 | the loop over `__colors__` yields exactly the namespace, or the exception, that the fold over the table gives |
| Colors.AddWrappersConcat | slepy/colors/colors.py:12-15 | handling `a + b` is handling `a` and then `b` |
| Colors.AddWrappersFrame | slepy/colors/colors.py:12-15 | a key that no entry lower-cases to keeps its presence and value |
| Colors.AddWrappersAddsNames | slepy/colors/colors.py:12-15 | after a successful loop every entry's lower-cased name is a key |
| Colors.AddWrappersSucceeds | slepy/colors/colors.py:12-15 | with RESET readable and no entry named like `__colors__`, the loop succeeds and RESET stays readable |
| Colors.AddWrappersFailsWithoutReset | slepy/colors/colors.py:15 | a non-empty table whose RESET cannot be read raises that error on the first entry |
| Colors.LastEntryWins | slepy/colors/colors.py:12-15 | the wrapper stored for an entry uses its own code and RESET, and stays unless a later entry has the same lower-case name |
| Colors.NewClassWrapsEveryEntry | slepy/colors/colors.py:11-17 | on a table with RESET and lower-case-distinct names, class creation succeeds; each entry gets its own wrapper and every other key keeps its value |
| Colors.NewClassNeedsReset | slepy/colors/colors.py:15 | a non-empty table without RESET makes class creation raise `KeyError('RESET')` |
| Colors.UpperNamesLowered | slepy/colors/colors.py:13 | distinct upper-case names stay distinct once lower-cased, and none becomes `__colors__` |
| Colors.PaletteWellFormed | slepy/colors/colors.py:24-97 | `Color.__colors__` holds RESET, and its names stay distinct once lower-cased |
| Colors.ColorClass | slepy/colors/colors.py:20-98 | class `Color` keeps its table and has, for every entry, a member named by the lower-cased entry name that wraps in the entry's code and RESET |
| Colors.Call | slepy/colors/colors.py:15 | calling a generated member yields a text that unwraps to its argument |
| Colors.EntryMember | slepy/colors/colors.py:12-15 | for every table entry, `Color.<lower(name)>(x)` is the entry's code + x + RESET |
| Colors.MembersIndependent | slepy/colors/colors.py:7-9 | members for entries with different codes render every text differently |
| Colors.NamedMember | slepy/colors/colors.py:12-15 | a table entry gives the member named by its lower-cased name, wrapping in the entry's code |
| Colors.ColorMembers | slepy/colors/colors.py:26-71 | `reset`, `red`, `green`, `yellow`, `blue`, `grey`, `black_bright` and `red_bright` exist and wrap in their table codes |
| Colors.ColorizeBool | slepy/colors/colors.py:101-102 | `colorize_bool(True)` is GREEN + "True" + RESET and `colorize_bool(False)` is RED + "False" + RESET |
| Colors.ColorizeBoolDistinct | slepy/colors/colors.py:101-102 | the two booleans render differently |
| Colors.ResetMember | slepy/colors/colors.py:26 | `Color.reset(x)` is RESET + x + RESET |
| Colors.GreyIsBlackBright | slepy/colors/colors.py:37 | `Color.grey` and `Color.black_bright` share a code and render every text alike |
| Palette.TableWellFormed | slepy/colors/colors.py:24-97 | the table lists RESET first, and its names are upper-case and pairwise distinct |
| Palette.UsedEntries | slepy/colors/colors.py:26-71 | the entries used elsewhere are in the table with their codes |
| Palette.StyledWellFormed | slepy/colors/colors.py:39-97 | a group of hue + suffix names is upper-case and free of repeats |
| Palette.StyledApart | slepy/colors/colors.py:39-97 | two groups with different suffixes share no name |
| Singleton.CallOutcome | slepy/singleton/singleton.py:14-20 | `cls(...)` succeeds exactly when the class is unregistered and its constructor returns; it then registers and returns that object; otherwise the registry is unchanged and a registered class raises the RuntimeError |
| Singleton.GetInstanceOutcome | slepy/singleton/singleton.py:22-26 | a registered class returns its instance and changes nothing; otherwise the object the constructor built is returned and registered under the class, or the constructor's exception propagates with the registry unchanged; it never raises the RuntimeError |
| Singleton.SingletonMeta.constructor | slepy/singleton/singleton.py:12 | the registry starts empty |
| Singleton.SingletonMeta.Call | slepy/singleton/singleton.py:14-20 | result and new registry are those of `CallOutcome` on the old registry |
| Singleton.SingletonMeta.GetInstance | slepy/singleton/singleton.py:22-26 | result and new registry are those of `GetInstanceOutcome` on the old registry |
| Singleton.SingletonMeta.Instance | slepy/singleton/singleton.py:30-31 | reading `instance` is `get_instance()` on the same class |
| Singleton.ApplyFrame | slepy/singleton/singleton.py:12-26 | an operation only adds its own class; every other entry keeps its presence and instance |
| Singleton.RunKeepsInstances | slepy/singleton/singleton.py:12-26 | over any sequence of operations the registry only grows and no instance is replaced |
| Singleton.RunLeavesOthers | slepy/singleton/singleton.py:15-25 | operations on other classes never register a class |
| Singleton.CallAfterRegistration | slepy/singleton/singleton.py:15-20 | once a class is registered, by either entry point, calling it raises whatever came in between |
| Singleton.GetInstanceIdempotent | slepy/singleton/singleton.py:22-26 | a second `get_instance` returns the same object and leaves the registry as it was |
| Singleton.AtMostOneCall | slepy/singleton/singleton.py:14-20 | in any sequence of operations at most one call of a class succeeds, and none once it is registered |
| Singleton.OneInstance | slepy/singleton/singleton.py:14-26 | every object handed out for a class over any sequence of operations is one and the same, the registered one if there was one |
| Logger.LevelByName | slepy/logger/logger.py:82 | exactly the six level names resolve, each to one of the six levels |
| Logger.LevelByNameInjective | slepy/logger/logger.py:82 | different level names resolve to different levels |
| Logger.ResolveLevel | slepy/logger/logger.py:80-88 | the warning is printed exactly for an unknown name; a non-zero requested level is used; absent, unknown or zero levels give the default |
| Logger.WarningByName | slepy/logger/logger.py:80-82 | "WARNING" resolves to 30 without a warning |
| Logger.UnknownNameFallsBack | slepy/logger/logger.py:83-88 | an unknown name warns and gives the default level |
| Logger.FalsyFallsBack | slepy/logger/logger.py:87-88 | absent, 0 and "NOTSET" give the default level without a warning |
| Logger.ResolvedLevelOrigin | slepy/logger/logger.py:80-88 | the resolved level is the requested one or the default |
| Logger.Template | slepy/logger/logger.py:11-16 | the template is the grey time field, the level field in the given colour, the yellow name field, then the message field |
| Logger.TemplatePrefix | slepy/logger/logger.py:11-16 | the template starts with the grey time field, followed by the level colour's code |
| Logger.TemplateInjective | slepy/logger/logger.py:11-16 | among colour codes of one length, the template determines the code |
| Logger.FormatFor | slepy/logger/logger.py:18-33 | `FORMATS.get` has a template for exactly DEBUG, INFO, WARNING, ERROR and CRITICAL |
| Logger.LowLevelColours | slepy/logger/logger.py:18-26 | DEBUG uses green, INFO blue and WARNING red |
| Logger.HighLevelColours | slepy/logger/logger.py:28-33 | ERROR and CRITICAL both use red_bright |
| Logger.TemplatesDiffer | slepy/logger/logger.py:11-16 | different level colours of one length give different templates |
| Logger.FormatsDistinct | slepy/logger/logger.py:18-33 | DEBUG, INFO, WARNING and ERROR templates differ pairwise; ERROR and CRITICAL are equal |
| Logger.Logger.AddHandler | slepy/logger/logger.py:94 | `addHandler` appends the handler and keeps the level |
| Logger.Logger.SetLevel | slepy/logger/logger.py:95 | `setLevel` sets the level and keeps the handlers |
| Logger.LoggerFactory.constructor | slepy/logger/logger.py:72-74 | the factory keeps the default level and starts with an empty cache |
| Logger.LoggerFactory.GetLogger | slepy/logger/logger.py:76-98 | a cached name returns its logger and changes nothing; a new name gets `base` with one added handler at the resolved level and that level, cached under the name; the returned logger is named `name`, or "root" for the empty name |
| Logger.RootUnderTwoNames | slepy/logger/logger.py:77-98 | asking for `""` and then `"root"` caches the root logger under both keys and adds two handlers to it |
| Logger.LevelFixedAtCreation | slepy/logger/logger.py:77-78 | asking twice for a name gives one logger whose level comes from the first request |
| Logger.CreateFactory | slepy/logger/logger.py:71-74 | `LoggerFactory(level)` registers a fresh factory with that level and an empty cache, and raises once one is registered |
| Logger.FactoryInstance | slepy/logger/logger.py:111 | `LoggerFactory.instance` returns the registered factory, and raises the missing-argument TypeError before one is constructed |
| Logger.InjectedClass.constructor | slepy/logger/logger.py:104-105 | `__logger__` starts as `None` |
| Logger.InjectedClass.Log | slepy/logger/logger.py:107-129 | the first successful read asks the factory and keeps its logger, and no registered object other than the factory changes; for a name new to the factory that logger gets the default level and one handler at it; later reads return the kept logger and touch nothing; before the factory exists the read raises and keeps nothing |

## Left out

- Colors.Lower: models `str.lower` on ASCII letters only. The table's names are ASCII, and Unicode case mapping is not modelled.
- The default `reset` argument of `colorize` is not modelled, because the metaclass always passes `reset=` (slepy/colors/colors.py:15).
- Colors.Wrapper.Apply: takes a string. The source formats any value with `str()`, which is not modelled.
- Colors.ColorClass: the class body holds only `__colors__`. Other namespace keys (`__module__`, `__qualname__`, annotations) are covered only by the general frame lemma `Colors.NewClassWrapsEveryEntry`.
- Logger.LevelByName: a finite table of the six level names, not `getattr(logging, …)`. Other attributes of the module (`WARN`, `FATAL`, or a function such as `debug`) are treated as unknown names. For a function, the source does not fall back: building the handler with it raises `TypeError` before `addHandler` and `setLevel` run.
- Logger.LoggerFactory.GetLogger:
  - the default level is an integer; a default given as a level name, which `logging` would also accept, is not modelled;
  - the printed message is the `warned` result, not output;
  - `logging.getLogger(name)` is the `base` argument, not a global registry of the model.
- Logger.InjectedClass.Log: `__logger__` belongs to the decorated class. A subclass reads the decorated class's `__logger__` by inheritance and, only while that is still `None`, stores the logger under itself; this is not modelled. Either way the subclass gets the same logger, from the factory's name cache.
- Singleton.SingletonMeta.Call: a class is identified by its name, and its constructor's effect is a parameter. Side effects of user constructors, and two distinct classes sharing one name, are not modelled.
- `LoggerFormatter.converter` and `formatTime`: time zones and `datetime` are outside the model. They are also unreachable, because `format` builds a plain `logging.Formatter`.
- `LoggerFormatter.format`: interpolation of a record into the template is `logging` internals. Only the template choice (`FORMATS.get`) is modelled.
- `TqdmLoggingHandler`: a handler is its level. Writing through tqdm is terminal I/O.
- `debug_print`: call-stack introspection, `warnings` and `print` are not modelled.
- slepy/properties/properties.py: the `classproperty` descriptor is modelled only by its effect. Reading `instance` calls `get_instance` on the owning class (`Singleton.SingletonMeta.Instance`).
- Concurrency: the source has no locking, and the model is single-threaded.

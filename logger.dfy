/**
 * The logger factory of slepy/logger/logger.py: the coloured message templates (`FORMATS`), the
 * `LoggerFactory` singleton that caches one logger per name and resolves the level a new logger
 * gets, and the lazily cached `log` property that `inject_logger` gives a class.
 *
 * The `logging` module itself is outside the model: a logger is a handle that records its name,
 * its level and the handlers added to it, and `logging.getLogger(name)` is the `base` handle the
 * caller passes in.
 */
module Logger {
  import opened Wrappers
  import Colors
  import Palette
  import Singleton

  // ---------------------------------------------------------------------------------------
  // Levels

  const NotSet: int := 0
  const Debug: int := 10
  const Info: int := 20
  const Warning: int := 30
  const Error: int := 40
  const Critical: int := 50

  /** `getattr(logging, s)` on the six level names; any other string is not a level. */
  function LevelByName(s: string): (r: Option<int>)
    ensures r.Some? <==> s in {"NOTSET", "DEBUG", "INFO", "WARNING", "ERROR", "CRITICAL"}
    ensures r.Some? ==> r.value in {NotSet, Debug, Info, Warning, Error, Critical}
  {
    if s == "NOTSET" then Some(NotSet)
    else if s == "DEBUG" then Some(Debug)
    else if s == "INFO" then Some(Info)
    else if s == "WARNING" then Some(Warning)
    else if s == "ERROR" then Some(Error)
    else if s == "CRITICAL" then Some(Critical)
    else None
  }

  /** Different level names stand for different levels. */
  lemma LevelByNameInjective(s: string, t: string)
    requires LevelByName(s).Some? && LevelByName(s) == LevelByName(t)
    ensures s == t
  {}

  /** The `logging_level` argument of `getLogger`: absent (`None`), a level name, or a number. */
  datatype LevelArg = NoLevel | LevelName(name: string) | LevelNumber(n: int)

  /** The level an argument asks for, when it asks for one. */
  function Requested(arg: LevelArg): Option<int>
  {
    match arg
    case NoLevel => None
    case LevelName(s) => LevelByName(s)
    case LevelNumber(n) => Some(n)
  }

  /** The level a new logger gets, and whether the invalid-level message is printed. */
  datatype Resolution = Resolution(level: int, warned: bool)

  /**
   * Level resolution in `getLogger`: a name is looked up, an unknown name prints the warning,
   * and a falsy level (absent, unknown or 0) falls back to the factory's default.
   */
  function ResolveLevel(arg: LevelArg, default: int): (r: Resolution)
    ensures r.warned <==> arg.LevelName? && LevelByName(arg.name).None?
    ensures Requested(arg).Some? && Requested(arg).value != 0 ==> r.level == Requested(arg).value
    ensures Requested(arg).None? || Requested(arg) == Some(0) ==> r.level == default
  {
    var (level, warned) :=
      if arg.LevelName? then
        (if LevelByName(arg.name).Some? then (Some(LevelByName(arg.name).value), false) else (None, true))
      else if arg.LevelNumber? then (Some(arg.n), false)
      else (None, false);
    if level.None? || level.value == 0 then Resolution(default, warned) else Resolution(level.value, warned)
  }

  /** A recognised name gives its level: `"WARNING"` gives 30, whatever the default. */
  lemma WarningByName(default: int)
    ensures ResolveLevel(LevelName("WARNING"), default) == Resolution(Warning, false)
  {}

  /** An unrecognised name prints the warning and gives the default level, raising nothing. */
  lemma UnknownNameFallsBack(s: string, default: int)
    requires s !in {"NOTSET", "DEBUG", "INFO", "WARNING", "ERROR", "CRITICAL"}
    ensures ResolveLevel(LevelName(s), default) == Resolution(default, true)
  {}

  /** Every falsy level, 0 and `"NOTSET"` included, gives the default without a warning. */
  lemma FalsyFallsBack(default: int)
    ensures ResolveLevel(NoLevel, default) == Resolution(default, false)
    ensures ResolveLevel(LevelNumber(0), default) == Resolution(default, false)
    ensures ResolveLevel(LevelName("NOTSET"), default) == Resolution(default, false)
  {}

  /** The resolved level is the one asked for or the default, never anything else. */
  lemma ResolvedLevelOrigin(arg: LevelArg, default: int)
    ensures ResolveLevel(arg, default).level == default || Requested(arg) == Some(ResolveLevel(arg, default).level)
  {}

  // ---------------------------------------------------------------------------------------
  // Message templates

  const TimeField: string := "[%(asctime)s] "
  const LevelField: string := "[%(levelname)s] "
  const NameField: string := "[%(name)s] "
  const MessageField: string := "%(message)s "

  /**
   * `LoggerFormatter.__format__(color)`: the time in grey, the level name in `color`, the
   * logger name in yellow, then the message.
   */
  function Template(color: Colors.Wrapper): (t: string)
    ensures t == Colors.Colorize(Palette.GreyCode, Palette.ResetCode).Apply(TimeField) + color.Apply(LevelField)
      + Colors.Colorize(Palette.YellowCode, Palette.ResetCode).Apply(NameField) + MessageField
  {
    Colors.ColorMembers();
    Colors.Call("grey", TimeField) + color.Apply(LevelField) + Colors.Call("yellow", NameField) + MessageField
  }

  /** The template starts with the grey time field, then the level colour's code. */
  lemma TemplatePrefix(color: Colors.Wrapper)
    ensures var g := Colors.Colorize(Palette.GreyCode, Palette.ResetCode).Apply(TimeField);
      Template(color)[..|g|] == g && Template(color)[|g|..|g| + |color.color|] == color.color
  {
    var g := Colors.Colorize(Palette.GreyCode, Palette.ResetCode).Apply(TimeField);
    var rest := Colors.Colorize(Palette.YellowCode, Palette.ResetCode).Apply(NameField) + MessageField;
    FieldsPrefix(g, color, rest);
  }

  /** A text made of `g`, then a coloured level field, starts with `g` and then the colour code. */
  lemma FieldsPrefix(g: string, color: Colors.Wrapper, rest: string)
    ensures (g + color.Apply(LevelField) + rest)[..|g|] == g
    ensures (g + color.Apply(LevelField) + rest)[|g|..|g| + |color.color|] == color.color
  {
    assert g + color.Apply(LevelField) + rest == g + (color.Apply(LevelField) + rest);
    assert (color.Apply(LevelField) + rest)[..|color.color|] == color.color;
  }

  /** The template gives back the colour code it was built from, among codes of one length. */
  lemma TemplateInjective(v: Colors.Wrapper, w: Colors.Wrapper)
    requires |v.color| == |w.color|
    requires Template(v) == Template(w)
    ensures v.color == w.color
  {
    TemplatePrefix(v);
    TemplatePrefix(w);
  }

  /** `LoggerFormatter.FORMATS.get(levelno)`. */
  function FormatFor(levelno: int): (r: Option<string>)
    ensures r.Some? <==> levelno in {Debug, Info, Warning, Error, Critical}
  {
    Colors.ColorMembers();
    if levelno == Debug then Some(Template(Colors.Member("green")))
    else if levelno == Info then Some(Template(Colors.Member("blue")))
    else if levelno == Warning then Some(Template(Colors.Member("red")))
    else if levelno == Error then Some(Template(Colors.Member("red_bright")))
    else if levelno == Critical then Some(Template(Colors.Member("red_bright")))
    else None
  }

  /** DEBUG, INFO and WARNING frame the level name in green, blue and red. */
  lemma LowLevelColours()
    ensures FormatFor(Debug) == Some(Template(Colors.Colorize(Palette.GreenCode, Palette.ResetCode)))
    ensures FormatFor(Info) == Some(Template(Colors.Colorize(Palette.BlueCode, Palette.ResetCode)))
    ensures FormatFor(Warning) == Some(Template(Colors.Colorize(Palette.RedCode, Palette.ResetCode)))
  {
    Colors.ColorMembers();
  }

  /** ERROR and CRITICAL both frame the level name in bright red. */
  lemma HighLevelColours()
    ensures FormatFor(Error) == Some(Template(Colors.Colorize(Palette.RedBrightCode, Palette.ResetCode)))
    ensures FormatFor(Critical) == Some(Template(Colors.Colorize(Palette.RedBrightCode, Palette.ResetCode)))
  {
    Colors.ColorMembers();
  }

  /** Level colours of one length that differ give templates that differ. */
  lemma TemplatesDiffer(c: string, d: string)
    requires |c| == |d| && c != d
    ensures Template(Colors.Colorize(c, Palette.ResetCode)) != Template(Colors.Colorize(d, Palette.ResetCode))
  {
    if Template(Colors.Colorize(c, Palette.ResetCode)) == Template(Colors.Colorize(d, Palette.ResetCode)) {
      TemplateInjective(Colors.Colorize(c, Palette.ResetCode), Colors.Colorize(d, Palette.ResetCode));
    }
  }

  /** DEBUG, INFO, WARNING and ERROR look different; ERROR and CRITICAL look alike. */
  lemma FormatsDistinct()
    ensures FormatFor(Debug) != FormatFor(Info) && FormatFor(Debug) != FormatFor(Warning)
    ensures FormatFor(Debug) != FormatFor(Error) && FormatFor(Info) != FormatFor(Warning)
    ensures FormatFor(Info) != FormatFor(Error) && FormatFor(Warning) != FormatFor(Error)
    ensures FormatFor(Error) == FormatFor(Critical)
  {
    LowLevelColours();
    HighLevelColours();
    TemplatesDiffer(Palette.GreenCode, Palette.BlueCode);
    TemplatesDiffer(Palette.GreenCode, Palette.RedCode);
    TemplatesDiffer(Palette.GreenCode, Palette.RedBrightCode);
    TemplatesDiffer(Palette.BlueCode, Palette.RedCode);
    TemplatesDiffer(Palette.BlueCode, Palette.RedBrightCode);
    TemplatesDiffer(Palette.RedCode, Palette.RedBrightCode);
  }

  // ---------------------------------------------------------------------------------------
  // Loggers and the factory

  /** A `TqdmLoggingHandler` with its level; its formatter is always a `LoggerFormatter`. */
  datatype Handler = TqdmHandler(level: int)

  /** The handle `logging.getLogger(name)` returns, as far as the factory touches it. */
  class Logger {
    const name: string
    var level: int
    var handlers: seq<Handler>

    /** `logger.addHandler(h)`. */
    method AddHandler(h: Handler)
      modifies this
      ensures handlers == old(handlers) + [h] && level == old(level)
    {
      handlers := handlers + [h];
    }

    /** `logger.setLevel(l)`. */
    method SetLevel(l: int)
      modifies this
      ensures level == l && handlers == old(handlers)
    {
      level := l;
    }
  }

  /**
   * The name of the logger `logging.getLogger(name)` returns: the empty name gives the root
   * logger, whose name is "root".
   */
  function HandleName(name: string): string
  {
    if name == "" then "root" else name
  }

  /** The class name under which the factory is registered as a singleton. */
  const FactoryClass: Singleton.ClassId := "LoggerFactory"

  /** The TypeError of `LoggerFactory()`: `__init__` needs `default_logging_level`. */
  const MissingDefaultLevel: string := "LoggerFactory.__init__() missing 1 required positional argument: 'default_logging_level'"

  class LoggerFactory {
    const defaultLevel: int
    var loggermap: map<string, Logger>

    /** Every cached logger is the one `logging.getLogger` gives for the name it is cached under. */
    predicate Valid()
      reads this
    {
      forall n :: n in loggermap ==> loggermap[n].name == HandleName(n)
    }

    /** `LoggerFactory.__init__(default_logging_level)`. */
    constructor(defaultLevel: int)
      ensures this.defaultLevel == defaultLevel && loggermap == map[]
      ensures Valid()
    {
      this.defaultLevel := defaultLevel;
      loggermap := map[];
    }

    /**
     * `getLogger(name, logging_level)`. A cached name returns its logger and changes nothing;
     * otherwise `base` gets one handler at the resolved level, takes that level, and is cached.
     * `warned` tells whether the invalid-level message is printed.
     */
    method GetLogger(name: string, arg: LevelArg, base: Logger) returns (logger: Logger, warned: bool)
      requires Valid() && base.name == HandleName(name)
      modifies this, base
      ensures Valid()
      ensures name in loggermap && loggermap[name] == logger && logger.name == HandleName(name)
      ensures name in old(loggermap) ==>
        && logger == old(loggermap[name])
        && loggermap == old(loggermap)
        && !warned
        && unchanged(base) && unchanged(logger)
      ensures name !in old(loggermap) ==>
        && logger == base
        && loggermap == old(loggermap)[name := base]
        && Resolution(base.level, warned) == ResolveLevel(arg, defaultLevel)
        && base.handlers == old(base.handlers) + [TqdmHandler(base.level)]
    {
      if name in loggermap {
        return loggermap[name], false;
      }

      var level := arg;
      warned := false;
      if level.LevelName? {
        match LevelByName(level.name) {
          case Some(n) =>
            level := LevelNumber(n);
          case None =>
            warned := true;
            level := NoLevel;
        }
      }

      var resolved: int;
      if level.NoLevel? || level.n == 0 {
        resolved := defaultLevel;
      } else {
        resolved := level.n;
      }

      base.AddHandler(TqdmHandler(resolved));
      base.SetLevel(resolved);
      loggermap := loggermap[name := base];
      logger := base;
    }
  }

  /**
   * Asking twice for one name gives one logger, whose level is the one resolved on the first
   * request: the second request's level has no effect.
   */
  method LevelFixedAtCreation(f: LoggerFactory, name: string, first: LevelArg, second: LevelArg, base: Logger)
    returns (h1: Logger, h2: Logger)
    requires f.Valid() && base.name == HandleName(name) && name !in f.loggermap
    modifies f, base
    ensures h1 == h2 == base
    ensures h2.level == ResolveLevel(first, f.defaultLevel).level
    ensures h2.handlers == old(base.handlers) + [TqdmHandler(h2.level)]
  {
    var warned;
    h1, warned := f.GetLogger(name, first, base);
    h2, warned := f.GetLogger(name, second, base);
  }

  /**
   * `LoggerFactory(default_logging_level)`: constructs and registers the factory unless one is
   * registered already, in which case the metaclass raises.
   */
  method CreateFactory(reg: Singleton.SingletonMeta<LoggerFactory>, defaultLevel: int)
    returns (r: Result<LoggerFactory, Singleton.SingletonError>)
    modifies reg
    ensures r.Success? <==> FactoryClass !in old(reg.instances)
    ensures r.Success? ==>
      && fresh(r.value) && r.value.defaultLevel == defaultLevel && r.value.loggermap == map[] && r.value.Valid()
      && reg.instances == old(reg.instances)[FactoryClass := r.value]
    ensures r.Failure? ==> r == Failure(Singleton.AlreadyInstantiated) && reg.instances == old(reg.instances)
  {
    var f := new LoggerFactory(defaultLevel);
    r := reg.Call(FactoryClass, Singleton.Built(f));
  }

  /**
   * `LoggerFactory.instance`: `get_instance()` without arguments, which succeeds only once the
   * factory has been constructed; before that, building it raises the missing-argument error.
   */
  method FactoryInstance(reg: Singleton.SingletonMeta<LoggerFactory>)
    returns (r: Result<LoggerFactory, Singleton.SingletonError>)
    modifies reg
    ensures reg.instances == old(reg.instances)
    ensures FactoryClass in reg.instances ==> r == Success(reg.instances[FactoryClass])
    ensures FactoryClass !in reg.instances ==> r == Failure(Singleton.ConstructorRaised(MissingDefaultLevel))
  {
    r := reg.Instance(FactoryClass, Singleton.Raised(MissingDefaultLevel));
  }

  /**
   * The empty name and "root" are two cache keys for one logger: `logging.getLogger` gives the
   * root logger for both, so asking for each adds a second handler to it.
   */
  method RootUnderTwoNames(f: LoggerFactory, root: Logger) returns (h1: Logger, h2: Logger)
    requires f.Valid() && root.name == "root" && "" !in f.loggermap && "root" !in f.loggermap
    modifies f, root
    ensures h1 == h2 == root && "" in f.loggermap && "root" in f.loggermap
    ensures f.loggermap[""] == f.loggermap["root"] == root
    ensures root.level == f.defaultLevel
    ensures root.handlers == old(root.handlers) + [TqdmHandler(f.defaultLevel), TqdmHandler(f.defaultLevel)]
  {
    var warned;
    h1, warned := f.GetLogger("", NoLevel, root);
    h2, warned := f.GetLogger("root", NoLevel, root);
  }

  // ---------------------------------------------------------------------------------------
  // inject_logger

  /** How a class was decorated: `@inject_logger("name")` or `@inject_logger`. */
  datatype Decoration = ByName(name: string) | ByClass(className: string)

  /** The logger name the `log` property asks for: the decorator's string, or the class name. */
  function LoggerName(d: Decoration): string
  {
    match d
    case ByName(name) => name
    case ByClass(className) => className
  }

  /** The class `inject_logger` returns, with its class attribute `__logger__`. */
  class InjectedClass {
    const decoration: Decoration
    var cached: Logger?

    /** `NewClass.__logger__ = None`. */
    constructor(decoration: Decoration)
      ensures this.decoration == decoration && cached == null
    {
      this.decoration := decoration;
      cached := null;
    }

    /**
     * The `log` property: the first read asks the factory for the logger and keeps it in
     * `__logger__`; every later read returns the kept logger without asking again. Before the
     * factory exists the read raises and nothing is kept.
     */
    method Log(reg: Singleton.SingletonMeta<LoggerFactory>, base: Logger)
      returns (r: Result<Logger, Singleton.SingletonError>)
      requires base.name == HandleName(LoggerName(decoration))
      requires FactoryClass in reg.instances ==> reg.instances[FactoryClass].Valid()
      modifies this, reg, base, if FactoryClass in reg.instances then {reg.instances[FactoryClass]} else {}
      ensures reg.instances == old(reg.instances)
      ensures old(cached) != null ==>
        && r == Success(old(cached)) && cached == old(cached)
        && unchanged(base) && unchanged(old(reg.instances).Values)
      ensures old(cached) == null && FactoryClass !in old(reg.instances) ==>
        && r == Failure(Singleton.ConstructorRaised(MissingDefaultLevel)) && cached == null
        && unchanged(base) && unchanged(old(reg.instances).Values)
      ensures old(cached) == null && FactoryClass in old(reg.instances) ==>
        var f := old(reg.instances[FactoryClass]);
        var name := LoggerName(decoration);
        && r.Success? && cached == r.value
        && f.Valid() && name in f.loggermap && f.loggermap[name] == r.value
        && (name in old(f.loggermap) ==>
              r.value == old(f.loggermap[name]) && f.loggermap == old(f.loggermap) && unchanged(base))
        && (name !in old(f.loggermap) ==>
              && r.value == base && f.loggermap == old(f.loggermap)[name := base]
              && base.level == f.defaultLevel
              && base.handlers == old(base.handlers) + [TqdmHandler(f.defaultLevel)])
    {
      if cached == null {
        var f := FactoryInstance(reg);
        if f.Failure? {
          return Failure(f.error);
        }
        var logger, _ := f.value.GetLogger(LoggerName(decoration), NoLevel, base);
        cached := logger;
      }
      return Success(cached);
    }
  }
}

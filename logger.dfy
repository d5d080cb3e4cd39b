/** Poco::Logger: named loggers with a level and a channel, kept in one
    map from name to logger. Dotted names form a hierarchy: a new logger
    takes its level and channel from its nearest existing ancestor, and the
    name-wide setters reach a logger and all of its descendants. */
module Logging {
  import opened Results
  import opened Text
  import opened LogFormat

  /** The identity of a Channel object. */
  type ChannelId = nat

  // Message::Priority
  const PRIO_FATAL := 1
  const PRIO_CRITICAL := 2
  const PRIO_ERROR := 3
  const PRIO_WARNING := 4
  const PRIO_NOTICE := 5
  const PRIO_INFORMATION := 6
  const PRIO_DEBUG := 7
  const PRIO_TRACE := 8

  /** The name of the root logger: the empty string. */
  const ROOT: string := ""

  datatype Message = Message(source: string, text: string, priority: int)

  /** A logger's state: its name, its channel (None for a null pointer) and
      its level. */
  datatype Logger = Logger(name: string, channel: Option<ChannelId>, level: int)

  const RootLogger := Logger(ROOT, None, PRIO_INFORMATION)

  // ---------------------------------------------------------------------
  // Levels

  /** Logger::parseLevel: a level name, compared without regard to case, or
      a number from 1 to 8. */
  function ParseLevel(level: string): (r: Result<int>)
    ensures r.Ok? ==> 0 <= r.value <= PRIO_TRACE
    ensures r.Err? ==> r.error == InvalidArgument
  {
    if IEquals(level, "none") then Ok(0)
    else if IEquals(level, "fatal") then Ok(PRIO_FATAL)
    else if IEquals(level, "critical") then Ok(PRIO_CRITICAL)
    else if IEquals(level, "error") then Ok(PRIO_ERROR)
    else if IEquals(level, "warning") then Ok(PRIO_WARNING)
    else if IEquals(level, "notice") then Ok(PRIO_NOTICE)
    else if IEquals(level, "information") then Ok(PRIO_INFORMATION)
    else if IEquals(level, "debug") then Ok(PRIO_DEBUG)
    else if IEquals(level, "trace") then Ok(PRIO_TRACE)
    else
      match ParseInt(level)
      case Some(n) => if n > 0 && n < 9 then Ok(n) else Err(InvalidArgument)
      case None => Err(InvalidArgument)
  }

  /** The level names parseLevel accepts, by value. */
  function LevelName(level: nat): string
    requires level <= PRIO_TRACE
  {
    ["none", "fatal", "critical", "error", "warning", "notice", "information", "debug", "trace"][level]
  }

  /** Every level name parses to its level. */
  lemma LevelNameRoundTrip(level: nat)
    requires level <= PRIO_TRACE
    ensures ParseLevel(LevelName(level)) == Ok(level)
  {
    var s := LevelName(level);
    match level
    case 0 => NamesAsWritten(s);
    case 1 => NamesAsWritten(s);
    case 2 => NamesAsWritten(s);
    case 3 => NamesAsWritten(s);
    case 4 => NamesAsWritten(s);
    case 5 => NamesAsWritten(s);
    case 6 => NamesAsWritten(s);
    case 7 => NamesAsWritten(s);
    case 8 => NamesAsWritten(s);
  }

  /** A string without upper-case letters matches a level name only when it
      is that name. */
  lemma NamesAsWritten(s: string)
    requires NoUpper(s)
    ensures IEquals(s, "none") <==> s == "none"
    ensures IEquals(s, "fatal") <==> s == "fatal"
    ensures IEquals(s, "critical") <==> s == "critical"
    ensures IEquals(s, "error") <==> s == "error"
    ensures IEquals(s, "warning") <==> s == "warning"
    ensures IEquals(s, "notice") <==> s == "notice"
    ensures IEquals(s, "information") <==> s == "information"
    ensures IEquals(s, "debug") <==> s == "debug"
    ensures IEquals(s, "trace") <==> s == "trace"
  {
    IEqualsNoUpper(s, "none");
    IEqualsNoUpper(s, "fatal");
    IEqualsNoUpper(s, "critical");
    IEqualsNoUpper(s, "error");
    IEqualsNoUpper(s, "warning");
    IEqualsNoUpper(s, "notice");
    IEqualsNoUpper(s, "information");
    IEqualsNoUpper(s, "debug");
    IEqualsNoUpper(s, "trace");
  }

  /** The numbers 1 to 8 parse to themselves; 0 is refused although "none"
      is level 0. */
  lemma ParseLevelNumeric(n: nat)
    ensures ParseLevel(Decimal(n)) == if 1 <= n <= 8 then Ok(n) else Err(InvalidArgument)
  {
    DecimalRoundTrip(n);
    var s := Decimal(n);
    NoLevelNameIsNumeric(s);
    assert ParseInt(s) == Some(n) by {
      assert IsDigit(s[0]);
    }
  }

  /** A string of digits is none of the level names, which are letters. */
  lemma NoLevelNameIsNumeric(s: string)
    requires s != [] && AllDigits(s)
    ensures !IEquals(s, "none") && !IEquals(s, "fatal") && !IEquals(s, "critical")
    ensures !IEquals(s, "error") && !IEquals(s, "warning") && !IEquals(s, "notice")
    ensures !IEquals(s, "information") && !IEquals(s, "debug") && !IEquals(s, "trace")
  {
    assert IsDigit(s[0]) && LowerChar(s[0]) == s[0];
  }

  /** parseLevel does not look at the case of letters. */
  lemma ParseLevelIgnoresCase(level: string)
    ensures ParseLevel(ToLower(level)) == ParseLevel(level)
  {
    IEqualsToLower(level, "none");
    IEqualsToLower(level, "fatal");
    IEqualsToLower(level, "critical");
    IEqualsToLower(level, "error");
    IEqualsToLower(level, "warning");
    IEqualsToLower(level, "notice");
    IEqualsToLower(level, "information");
    IEqualsToLower(level, "debug");
    IEqualsToLower(level, "trace");
    LowerKeepsNumbers(level);
  }

  /** Lower-casing does not change what parses as a number. */
  lemma LowerKeepsNumbers(s: string)
    ensures ParseInt(ToLower(s)) == ParseInt(s)
  {
    var l := ToLower(s);
    if s != [] && (s[0] == '-' || s[0] == '+') {
      assert l[0] == s[0];
      LowerKeepsDigits(s[1..]);
      assert l[1..] == ToLower(s[1..]);
    } else {
      if s != [] { assert l[0] != '-' && l[0] != '+'; }
      LowerKeepsDigits(s);
    }
  }

  lemma LowerKeepsDigits(s: string)
    ensures AllDigits(ToLower(s)) <==> AllDigits(s)
    ensures AllDigits(s) ==> ToLower(s) == s
  {
    var l := ToLower(s);
    if AllDigits(l) {
      forall i | 0 <= i < |s| ensures IsDigit(s[i]) {
        assert l[i] == LowerChar(s[i]);
      }
    }
  }

  // ---------------------------------------------------------------------
  // One logger

  /** Logger::log: the channel that receives the message, if any: the
      logger's level must be at least the message's priority, and a channel
      must be set. */
  function Log(lg: Logger, msg: Message): (r: Option<ChannelId>)
    ensures r.Some? <==> lg.level >= msg.priority && lg.channel.Some?
    ensures r.Some? ==> r == lg.channel
  {
    if lg.level >= msg.priority && lg.channel.Some? then lg.channel else None
  }

  /** A logger that passes a message on passes every more urgent message on
      too (a smaller priority value is more urgent), and a logger at level
      0 passes nothing on. */
  lemma LogMonotone(lg: Logger, msg: Message, urgent: Message)
    requires urgent.priority <= msg.priority
    ensures Log(lg, msg).Some? ==> Log(lg, urgent) == Log(lg, msg)
    ensures lg.level == 0 && msg.priority >= PRIO_FATAL ==> Log(lg, msg).None?
  {
  }

  /** Logger::dump: the message the channel receives, with the hex dump of
      `bytes` appended to `text`. */
  function Dump(lg: Logger, text: string, bytes: seq<Byte>, prio: int): (r: Option<(ChannelId, Message)>)
    ensures r.Some? <==> Log(lg, Message(lg.name, text, prio)).Some?
    ensures r.Some? ==> r.value == (lg.channel.value, Message(lg.name, DumpText(text, bytes), prio))
  {
    if lg.level >= prio && lg.channel.Some? then Some((lg.channel.value, Message(lg.name, DumpText(text, bytes), prio)))
    else None
  }

  /** Logger::setProperty on one logger: "channel" looks the channel up by
      name (`channelFor`, None when the registry has none), "level" parses
      the level; any other name is not supported. */
  function ApplyProperty(lg: Logger, propertyName: string, value: string,
                         channelFor: string -> Option<ChannelId>): (r: Result<Logger>)
    ensures r.Ok? ==> r.value.name == lg.name
    ensures r.Ok? <==> ((propertyName == "channel" && channelFor(value).Some?)
                        || (propertyName == "level" && ParseLevel(value).Ok?))
    ensures r.Ok? && propertyName == "channel" ==> r.value == lg.(channel := channelFor(value))
    ensures r.Ok? && propertyName == "level" ==> r.value == lg.(level := ParseLevel(value).value)
    ensures r.Err? && propertyName == "channel" ==> r.error == NotFound
    ensures r.Err? && propertyName == "level" ==> r.error == ParseLevel(value).error
    ensures r.Err? && propertyName != "channel" && propertyName != "level" ==> r.error == PropertyNotSupported
  {
    if propertyName == "channel" then
      match channelFor(value)
      case None => Err(NotFound)
      case Some(c) => Ok(lg.(channel := Some(c)))
    else if propertyName == "level" then
      match ParseLevel(value)
      case Err(e) => Err(e)
      case Ok(l) => Ok(lg.(level := l))
    else Err(PropertyNotSupported)
  }

  /** Whether setting a property fails does not depend on the logger, and
      neither does the error. */
  lemma ApplyPropertyUniform(a: Logger, b: Logger, propertyName: string, value: string,
                             channelFor: string -> Option<ChannelId>)
    ensures ApplyProperty(a, propertyName, value, channelFor).Err? == ApplyProperty(b, propertyName, value, channelFor).Err?
    ensures ApplyProperty(a, propertyName, value, channelFor).Err? ==>
      ApplyProperty(a, propertyName, value, channelFor).error == ApplyProperty(b, propertyName, value, channelFor).error
  {
  }

  // ---------------------------------------------------------------------
  // The name hierarchy

  /** `a` names a proper ancestor of `n`: `n` is `a`, a dot, and more. */
  predicate IsAncestor(a: string, n: string) {
    |a| < |n| && n[..|a|] == a && n[|a|] == '.'
  }

  /** The test of setLevel, setChannel and setProperty by name: the empty
      name reaches every logger; otherwise `name` reaches the logger `n` when
      it is a prefix of `n` that ends at the end of `n` or at a dot. */
  predicate Matches(name: string, n: string) {
    |name| == 0 || (|name| <= |n| && n[..|name|] == name && (|n| == |name| || n[|name|] == '.'))
  }

  /** What the test means: the name itself, its descendants, or everything
      for the empty name. */
  lemma MatchesSubtree(name: string, n: string)
    ensures Matches(name, n) <==> name == ROOT || name == n || IsAncestor(name, n)
  {
  }

  /** "a" reaches "a" and "a.b" but not "ab". */
  lemma MatchesExamples()
    ensures Matches("a", "a") && Matches("a", "a.b") && !Matches("a", "ab") && Matches("", "ab")
  {
    assert "a.b"[..1] == "a";
  }

  /** Reaching is transitive: what a descendant's name reaches, the
      ancestor's name reaches too. */
  lemma MatchesTransitive(a: string, b: string, c: string)
    requires Matches(a, b) && Matches(b, c)
    ensures Matches(a, c)
  {
    if |a| > 0 {
      assert c[..|b|][..|a|] == c[..|a|];
      if |a| < |b| {
        assert c[|a|] == c[..|b|][|a|];
      }
    }
  }

  /** std::string::rfind('.'): the position of the last dot, if any. */
  function LastDot(s: string): (r: Option<nat>)
    ensures r.Some? ==> r.value < |s| && s[r.value] == '.' && forall j :: r.value < j < |s| ==> s[j] != '.'
    ensures r.None? ==> forall j :: 0 <= j < |s| ==> s[j] != '.'
  {
    if s == [] then None
    else if s[|s| - 1] == '.' then Some(|s| - 1)
    else LastDot(s[..|s| - 1])
  }

  /** The recursion of Logger::parent: cut the name at its last dot and
      look the prefix up, until a logger is found (Some) or no dot is left
      (None: the root is the parent). */
  function ParentName(m: map<string, Logger>, name: string): (r: Option<string>)
    ensures r.Some? ==> r.value in m
    decreases |name|
  {
    match LastDot(name)
    case None => None
    case Some(p) =>
      if name[..p] in m then Some(name[..p]) else ParentName(m, name[..p])
  }

  /** The parent is the nearest existing ancestor: an ancestor in the map
      that no longer existing ancestor lies between; None when no ancestor
      exists. */
  lemma {:induction false} ParentNearest(m: map<string, Logger>, name: string)
    ensures ParentName(m, name).Some? ==> IsAncestor(ParentName(m, name).value, name)
    ensures ParentName(m, name).Some? ==>
      forall q :: IsAncestor(q, name) && |q| > |ParentName(m, name).value| ==> q !in m
    ensures ParentName(m, name).None? ==> forall q :: IsAncestor(q, name) ==> q !in m
    decreases |name|
  {
    match LastDot(name)
    case None =>
      forall q ensures !IsAncestor(q, name) {
        if |q| < |name| {
          assert name[|q|] != '.';
        }
      }
    case Some(p) =>
      var pn := name[..p];
      forall q | IsAncestor(q, name) ensures |q| <= p && (|q| == p ==> q == pn) && (|q| < p ==> IsAncestor(q, pn)) {
        assert name[|q|] == '.';
        if |q| < p {
          assert pn[..|q|] == name[..|q|];
          assert pn[|q|] == name[|q|];
        }
      }
      if pn !in m {
        ParentNearest(m, pn);
        var r := ParentName(m, pn);
        if r.Some? {
          assert pn[..|r.value|] == name[..|r.value|];
          assert pn[|r.value|] == name[|r.value|];
        }
      }
  }

  /** The logger whose channel and level a new logger `name` takes: its
      parent, or the root when it has none (a fresh root if there is no root
      yet). */
  function ParentOf(m: map<string, Logger>, name: string): Logger {
    match ParentName(m, name)
    case Some(p) => m[p]
    case None => if ROOT in m then m[ROOT] else RootLogger
  }

  /** The loggers after giving every logger that `name` reaches the level
      `level`. */
  function WithLevel(m: map<string, Logger>, name: string, level: int): map<string, Logger> {
    map n | n in m :: if Matches(name, n) then m[n].(level := level) else m[n]
  }

  function WithChannel(m: map<string, Logger>, name: string, channel: Option<ChannelId>): map<string, Logger> {
    map n | n in m :: if Matches(name, n) then m[n].(channel := channel) else m[n]
  }

  function WithProperty(m: map<string, Logger>, name: string, propertyName: string, value: string,
                        channelFor: string -> Option<ChannelId>): map<string, Logger> {
    map n | n in m :: if Matches(name, n) && ApplyProperty(m[n], propertyName, value, channelFor).Ok?
                      then ApplyProperty(m[n], propertyName, value, channelFor).value else m[n]
  }

  /** Setting the level of a name reaches exactly the loggers it matches,
      and a later setting for a descendant's name overrides it for that
      subtree only. */
  lemma WithLevelReaches(m: map<string, Logger>, name: string, level: int, n: string)
    requires n in m
    ensures n in WithLevel(m, name, level)
    ensures WithLevel(m, name, level)[n].level == if Matches(name, n) then level else m[n].level
    ensures WithLevel(m, name, level)[n].name == m[n].name && WithLevel(m, name, level)[n].channel == m[n].channel
  {
  }

  /** Every logger sits under its own name. */
  ghost predicate Named(m: map<string, Logger>) {
    forall n :: n in m ==> m[n].name == n
  }

  /** The loop of setLevel, over the map of loggers. */
  method UpdateLevels(m0: map<string, Logger>, name: string, level: int) returns (m: map<string, Logger>)
    ensures m == WithLevel(m0, name, level)
    ensures Named(m0) ==> Named(m)
  {
    m := m0;
    var todo := m.Keys;
    while todo != {}
      invariant todo <= m.Keys && m.Keys == m0.Keys
      invariant forall n :: n in m ==> m[n] == if n !in todo && Matches(name, n) then m0[n].(level := level) else m0[n]
      decreases |todo|
    {
      var n :| n in todo;
      if Matches(name, n) {
        m := m[n := m[n].(level := level)];
      }
      todo := todo - {n};
    }
  }

  /** The loop of setChannel, over the map of loggers. */
  method UpdateChannels(m0: map<string, Logger>, name: string, channel: Option<ChannelId>) returns (m: map<string, Logger>)
    ensures m == WithChannel(m0, name, channel)
    ensures Named(m0) ==> Named(m)
  {
    m := m0;
    var todo := m.Keys;
    while todo != {}
      invariant todo <= m.Keys && m.Keys == m0.Keys
      invariant forall n :: n in m ==> m[n] == if n !in todo && Matches(name, n) then m0[n].(channel := channel) else m0[n]
      decreases |todo|
    {
      var n :| n in todo;
      if Matches(name, n) {
        m := m[n := m[n].(channel := channel)];
      }
      todo := todo - {n};
    }
  }

  /** The loop of setProperty, over the map of loggers: on failure the map
      comes back unchanged. */
  method UpdateProperties(m0: map<string, Logger>, loggerName: string, propertyName: string, value: string,
                          channelFor: string -> Option<ChannelId>) returns (m: map<string, Logger>, r: Status)
    ensures Named(m0) ==> Named(m)
    ensures r.Failed? ==> m == m0
    ensures r.Failed? ==> exists n :: n in m0 && Matches(loggerName, n)
    ensures r.Failed? ==> ApplyProperty(RootLogger, propertyName, value, channelFor).Err?
                          && r.error == ApplyProperty(RootLogger, propertyName, value, channelFor).error
    ensures r.Done? ==> m == WithProperty(m0, loggerName, propertyName, value, channelFor)
    ensures r.Done? <==> (ApplyProperty(RootLogger, propertyName, value, channelFor).Ok?
                          || forall n :: n in m0 ==> !Matches(loggerName, n))
  {
    m := m0;
    var todo := m.Keys;
    while todo != {}
      invariant todo <= m.Keys && m.Keys == m0.Keys
      invariant forall n :: n in m ==> m[n] == if n !in todo && Matches(loggerName, n) && ApplyProperty(m0[n], propertyName, value, channelFor).Ok?
                                               then ApplyProperty(m0[n], propertyName, value, channelFor).value else m0[n]
      invariant (exists n :: n in m0 && n !in todo && Matches(loggerName, n)) ==>
                  ApplyProperty(RootLogger, propertyName, value, channelFor).Ok?
      decreases |todo|
    {
      var n :| n in todo;
      if Matches(loggerName, n) {
        var res := ApplyProperty(m[n], propertyName, value, channelFor);
        ApplyPropertyUniform(m[n], RootLogger, propertyName, value, channelFor);
        if res.Err? {
          forall k | k in m ensures m[k] == m0[k] {
            ApplyPropertyUniform(m0[k], RootLogger, propertyName, value, channelFor);
          }
          return m0, Failed(res.error);
        }
        m := m[n := res.value];
      }
      todo := todo - {n};
    }
    forall k | k in m0 ensures ApplyProperty(m0[k], propertyName, value, channelFor).Ok? == ApplyProperty(RootLogger, propertyName, value, channelFor).Ok? {
      ApplyPropertyUniform(m0[k], RootLogger, propertyName, value, channelFor);
    }
    return m, Done;
  }

  // ---------------------------------------------------------------------
  // The logger map

  /** The map of all loggers (Logger::_pLoggerMap). A reset map and an empty
      one behave alike, so both are the empty map here. */
  class LoggerMap {
    var loggers: map<string, Logger>

    /** Every logger sits under its own name. */
    ghost predicate Valid()
      reads this`loggers
    {
      Named(loggers)
    }

    constructor ()
      ensures Valid() && loggers == map[]
    {
      loggers := map[];
    }

    /** Logger::find and Logger::has. */
    function Find(name: string): (r: Option<Logger>)
      reads this`loggers
      ensures r.Some? <==> name in loggers
      ensures r.Some? ==> r.value == loggers[name]
    {
      if name in loggers then Some(loggers[name]) else None
    }

    /** Logger::add: insert under the logger's name unless the name is
      taken (std::map::insert). */
    method Add(lg: Logger)
      requires Valid()
      modifies this`loggers
      ensures Valid()
      ensures loggers == if lg.name in old(loggers) then old(loggers) else old(loggers)[lg.name := lg]
    {
      if lg.name !in loggers {
        loggers := loggers[lg.name := lg];
      }
    }

    /** Logger::get and Logger::unsafeGet (they differ only in the lock):
        the logger called `name`, created if need be. A new root gets level
        information and no channel; any other new logger gets the channel and
        level of its parent, and looking the parent up creates the root when
        no ancestor exists and the root does not either. */
    method Get(name: string) returns (r: Logger)
      requires Valid()
      modifies this`loggers
      ensures Valid()
      ensures name in loggers && loggers[name] == r && r.name == name
      ensures name in old(loggers) ==> r == old(loggers)[name] && loggers == old(loggers)
      ensures name !in old(loggers) && name == ROOT ==> r == RootLogger && loggers == old(loggers)[ROOT := r]
      ensures name !in old(loggers) && name != ROOT ==>
        && r == Logger(name, ParentOf(old(loggers), name).channel, ParentOf(old(loggers), name).level)
        && loggers == (if ParentName(old(loggers), name).None? && ROOT !in old(loggers)
                       then old(loggers)[ROOT := RootLogger] else old(loggers))[name := r]
      ensures forall n :: n in old(loggers) ==> n in loggers && loggers[n] == old(loggers)[n]
    {
      var found := Find(name);
      if found.Some? { return found.value; }
      if name == ROOT {
        r := RootLogger;
      } else {
        var p := ParentName(loggers, name);
        var parent: Logger;
        if p.Some? {
          parent := loggers[p.value];
        } else {
          if ROOT !in loggers { Add(RootLogger); }
          parent := loggers[ROOT];
        }
        r := Logger(name, parent.channel, parent.level);
      }
      Add(r);
    }

    /** Logger::root. */
    method Root() returns (r: Logger)
      requires Valid()
      modifies this`loggers
      ensures Valid()
      ensures ROOT in old(loggers) ==> r == old(loggers)[ROOT] && loggers == old(loggers)
      ensures ROOT !in old(loggers) ==> r == RootLogger && loggers == old(loggers)[ROOT := RootLogger]
    {
      r := Get(ROOT);
    }

    /** Logger::create: a new logger with the given channel and level; an
        existing name is refused. */
    method Create(name: string, channel: Option<ChannelId>, level: int) returns (r: Result<Logger>)
      requires Valid()
      modifies this`loggers
      ensures Valid()
      ensures name in old(loggers) ==> r == Err(Exists) && loggers == old(loggers)
      ensures name !in old(loggers) ==> r == Ok(Logger(name, channel, level)) && loggers == old(loggers)[name := r.value]
    {
      if Find(name).Some? { return Err(Exists); }
      var lg := Logger(name, channel, level);
      Add(lg);
      return Ok(lg);
    }

    /** Logger::destroy: forget the logger called `name`, if any. */
    method Destroy(name: string)
      requires Valid()
      modifies this`loggers
      ensures Valid()
      ensures loggers == old(loggers) - {name}
    {
      if name in loggers {
        loggers := loggers - {name};
      }
    }

    /** Logger::names: every logger name, once each. */
    method Names() returns (names: seq<string>)
      ensures forall n :: n in names <==> n in loggers
      ensures forall i, j :: 0 <= i < j < |names| ==> names[i] != names[j]
      ensures |names| == |loggers.Keys|
    {
      names := [];
      var todo := loggers.Keys;
      while todo != {}
        invariant todo <= loggers.Keys
        invariant forall n :: n in names <==> n in loggers && n !in todo
        invariant forall i, j :: 0 <= i < j < |names| ==> names[i] != names[j]
        invariant |names| + |todo| == |loggers.Keys|
        decreases |todo|
      {
        var n :| n in todo;
        names := names + [n];
        todo := todo - {n};
      }
    }

    /** Logger::shutdown: drop every logger. */
    method Shutdown()
      modifies this`loggers
      ensures Valid() && loggers == map[]
    {
      loggers := map[];
    }

    /** Logger::setLevel(name, level). */
    method SetLevel(name: string, level: int)
      requires Valid()
      modifies this`loggers
      ensures Valid()
      ensures loggers == WithLevel(old(loggers), name, level)
    {
      loggers := UpdateLevels(loggers, name, level);
    }

    /** Logger::setChannel(name, channel). */
    method SetChannel(name: string, channel: Option<ChannelId>)
      requires Valid()
      modifies this`loggers
      ensures Valid()
      ensures loggers == WithChannel(old(loggers), name, channel)
    {
      loggers := UpdateChannels(loggers, name, channel);
    }

    /** Logger::setProperty(loggerName, propertyName, value): set the
        property on every logger the name reaches. The first reached logger
        that refuses the property ends the walk with its error; since the
        refusal does not depend on the logger, no logger has changed then.
        When no logger is reached, nothing fails. */
    method SetProperty(loggerName: string, propertyName: string, value: string,
                       channelFor: string -> Option<ChannelId>) returns (r: Status)
      requires Valid()
      modifies this`loggers
      ensures Valid()
      ensures r.Failed? ==> loggers == old(loggers)
      ensures r.Failed? ==> exists n :: n in old(loggers) && Matches(loggerName, n)
      ensures r.Failed? ==> ApplyProperty(RootLogger, propertyName, value, channelFor).Err?
                            && r.error == ApplyProperty(RootLogger, propertyName, value, channelFor).error
      ensures r.Done? ==> loggers == WithProperty(old(loggers), loggerName, propertyName, value, channelFor)
      ensures r.Done? <==> (ApplyProperty(RootLogger, propertyName, value, channelFor).Ok?
                            || forall n :: n in old(loggers) ==> !Matches(loggerName, n))
    {
      var m;
      m, r := UpdateProperties(loggers, loggerName, propertyName, value, channelFor);
      loggers := m;
    }
  }
}

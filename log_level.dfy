/** Log levels: which strings name a level, and the logger's threshold rule. */
module LogLevel {
  import opened Common

  datatype Level = Error | Warn | Info | Debug

  function LevelName(l: Level): string
  {
    match l
    case Error => "error"
    case Warn => "warn"
    case Info => "info"
    case Debug => "debug"
  }

  /** The logger's `order` table. */
  function Rank(l: Level): nat
  {
    match l
    case Error => 0
    case Warn => 1
    case Info => 2
    case Debug => 3
  }

  /** `order[level]`: the level a string names, if any. */
  function ParseLevel(s: string): (r: Option<Level>)
    ensures r.Some? ==> LevelName(r.value) == s
  {
    if s == "error" then Some(Error)
    else if s == "warn" then Some(Warn)
    else if s == "info" then Some(Info)
    else if s == "debug" then Some(Debug)
    else None
  }

  /** `validateLogLevel`: true for exactly the four level names. */
  predicate ValidateLogLevel(s: string)
  {
    s == "error" || s == "warn" || s == "info" || s == "debug"
  }

  /** A string passes validation exactly when it is the name of a level, and naming a
      level then parsing the name gives the level back. */
  lemma ValidateLogLevelSpec(s: string, l: Level)
    ensures ValidateLogLevel(s) <==> ParseLevel(s).Some?
    ensures ValidateLogLevel(s) <==> exists m: Level :: LevelName(m) == s
    ensures ParseLevel(LevelName(l)) == Some(l)
  {
    if ValidateLogLevel(s) {
      assert LevelName(ParseLevel(s).value) == s;
    }
  }

  /** `shouldLog(l)` of a logger created with `level`: the message's rank is at most the
      threshold's; a level that names nothing gives an undefined threshold and nothing
      is printed. */
  predicate ShouldLog(level: string, l: Level)
  {
    ParseLevel(level).Some? && Rank(l) <= Rank(ParseLevel(level).value)
  }

  /** The threshold rule: a logger at a level prints its own level and every more severe
      one, nothing less severe, and raising the threshold only adds messages. */
  lemma ShouldLogSpec(level: Level, m: Level, higher: Level)
    ensures ShouldLog(LevelName(level), m) <==> Rank(m) <= Rank(level)
    ensures ShouldLog(LevelName(level), level) && ShouldLog(LevelName(level), Error)
    ensures Rank(level) <= Rank(higher) && ShouldLog(LevelName(level), m) ==> ShouldLog(LevelName(higher), m)
  {
    assert ParseLevel(LevelName(level)) == Some(level);
    assert ParseLevel(LevelName(higher)) == Some(higher);
  }

  lemma ShouldLogInvalid(level: string, m: Level)
    requires !ValidateLogLevel(level)
    ensures !ShouldLog(level, m)
  {
  }
}

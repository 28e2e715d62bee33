/**
 * Log4NetManager: reading and changing the root level of the application's
 * log4net repository, with integer codes 2 (Fatal) to 6 (Debug) and level
 * names matched without regard to ASCII case.
 */
module LevelManager {
  import opened Wrappers
  import S = Sink

  /** The root level and configuration state of the log4net hierarchy the manager reaches. */
  class Repository {
    var root: S.Level
    var configured: bool
    /** How many configuration-changed events have been raised. */
    var changes: nat

    constructor (root: S.Level)
      ensures this.root == root && !configured && changes == 0
    {
      this.root := root;
      configured := false;
      changes := 0;
    }
  }

  /** `lookupLogLevelFromInt`: 6 Debug, 5 Info, 4 Warn, 3 Error, 2 Fatal, anything else Info. */
  function LevelFromInt(i: int): (l: S.Level)
    ensures S.IsCanonical(l)
    ensures l == S.Info <==> !(2 <= i <= 6) || i == 5
  {
    match i
    case 6 => S.Debug
    case 5 => S.Info
    case 4 => S.Warn
    case 3 => S.Error
    case 2 => S.Fatal
    case _ => S.Info
  }

  /**
   * `lookupIntFromLogLevel`: compares the level with Debug, Info, Warn, Error
   * and Fatal in turn using log4net's `==`, which compares level values. A
   * level equal in value to one of the five gets that level's code, so a
   * differently named level such as FINE (the value of DEBUG) reads as 6;
   * any other level reads as 5.
   */
  function IntFromLevel(l: S.Level): (i: int)
    ensures 2 <= i <= 6
    ensures S.HasCanonicalValue(l) ==> S.Value(LevelFromInt(i)) == S.Value(l)
    ensures !S.HasCanonicalValue(l) ==> i == 5
  {
    var v := S.Value(l);
    if v == S.Value(S.Debug) then 6
    else if v == S.Value(S.Info) then 5
    else if v == S.Value(S.Warn) then 4
    else if v == S.Value(S.Error) then 3
    else if v == S.Value(S.Fatal) then 2
    else 5
  }

  /** FINE, log4net's level with the same value as DEBUG, reads as code 6. */
  lemma FineReadsAsDebug()
    ensures IntFromLevel(S.Other("FINE", 30000)) == 6
  {
  }

  /** Codes 2 to 6 survive the trip through a level; every other code comes back as 5. */
  lemma IntRoundTrip(i: int)
    ensures IntFromLevel(LevelFromInt(i)) == if 2 <= i <= 6 then i else 5
  {
  }

  /** The five canonical levels survive the trip through a code; the codes name them one-to-one. */
  lemma LevelRoundTrip(l: S.Level, m: S.Level)
    requires S.IsCanonical(l) && S.IsCanonical(m)
    ensures LevelFromInt(IntFromLevel(l)) == l
    ensures IntFromLevel(l) == IntFromLevel(m) ==> l == m
  {
  }

  /** ASCII upper case; every other character is left as it is. */
  function Upper(c: char): (u: char)
    ensures !('a' <= u <= 'z')
    ensures 'a' <= c <= 'z' ==> 'A' <= u <= 'Z' && u as int - 'A' as int == c as int - 'a' as int
    ensures !('a' <= c <= 'z') ==> u == c
  {
    if 'a' <= c <= 'z' then (c as int - 32) as char else c
  }

  /** ASCII upper case of a string: it has no lower-case letter left and still equals `s` ignoring case. */
  function UpperString(s: string): (u: string)
    ensures |u| == |s| && forall i :: 0 <= i < |u| ==> !('a' <= u[i] <= 'z')
    ensures EqualsIgnoreCase(s, Some(u))
  {
    seq(|s|, i requires 0 <= i < |s| => Upper(s[i]))
  }

  /** `string.Equals(a, b, StringComparison.OrdinalIgnoreCase)` with `a` non-null: false for a null `b`. */
  predicate EqualsIgnoreCase(a: string, b: Option<string>)
  {
    b.Some? && |a| == |b.value| && forall i :: 0 <= i < |a| ==> Upper(a[i]) == Upper(b.value[i])
  }

  /**
   * `lookupLogLevelFromString`: DEBUG; INFO or INFORMATION; WARN or WARNING;
   * ERROR; FATAL or CRITICAL, in any case. Anything else, null included, is
   * Info.
   */
  function LevelFromString(s: Option<string>): (l: S.Level)
    ensures S.IsCanonical(l)
    ensures l == S.Debug <==> EqualsIgnoreCase("DEBUG", s)
    ensures l == S.Warn <==> EqualsIgnoreCase("WARN", s) || EqualsIgnoreCase("WARNING", s)
    ensures l == S.Error <==> EqualsIgnoreCase("ERROR", s)
    ensures l == S.Fatal <==> EqualsIgnoreCase("FATAL", s) || EqualsIgnoreCase("CRITICAL", s)
  {
    if EqualsIgnoreCase("DEBUG", s) then
      FirstLetterDecides("DEBUG", "ERROR", s);
      S.Debug
    else if EqualsIgnoreCase("INFO", s) then
      FirstLetterDecides("INFO", "WARN", s);
      S.Info
    else if EqualsIgnoreCase("INFORMATION", s) then S.Info
    else if EqualsIgnoreCase("WARN", s) then S.Warn
    else if EqualsIgnoreCase("WARNING", s) then S.Warn
    else if EqualsIgnoreCase("ERROR", s) then S.Error
    else if EqualsIgnoreCase("FATAL", s) then S.Fatal
    else if EqualsIgnoreCase("CRITICAL", s) then S.Fatal
    else S.Info
  }

  /** Two names whose first letters differ (ignoring case) are never both equal to one string. */
  lemma FirstLetterDecides(a: string, b: string, s: Option<string>)
    requires |a| > 0 && |b| > 0 && Upper(a[0]) != Upper(b[0])
    ensures EqualsIgnoreCase(a, s) ==> !EqualsIgnoreCase(b, s)
  {
    if EqualsIgnoreCase(a, s) && |b| == |s.value| {
      assert Upper(b[0]) != Upper(s.value[0]);
    }
  }

  /** A name is read the same whatever the ASCII case of its letters. */
  lemma ParseIgnoresCase(s: string)
    ensures LevelFromString(Some(s)) == LevelFromString(Some(UpperString(s)))
  {
    var u := UpperString(s);
    forall a: string ensures EqualsIgnoreCase(a, Some(s)) <==> EqualsIgnoreCase(a, Some(u)) {
      if |a| == |s| {
        forall i | 0 <= i < |a| ensures Upper(u[i]) == Upper(s[i]) {
          UpperIdempotent(s[i]);
        }
      }
    }
  }

  lemma UpperIdempotent(c: char)
    ensures Upper(Upper(c)) == Upper(c)
  {
  }

  /** `ConvertIntLogLevelToString`: the name of the level a code selects. */
  function ConvertIntLogLevelToString(i: int): (name: string)
    ensures LevelFromString(Some(name)) == LevelFromInt(i)
    ensures name in {"DEBUG", "INFO", "WARN", "ERROR", "FATAL"}
  {
    match i
    case 6 => "DEBUG"
    case 5 => "INFO"
    case 4 => "WARN"
    case 3 => "ERROR"
    case 2 => "FATAL"
    case _ => "INFO"
  }

  /** A code's name parses back to the same code; every code outside 2 to 6 comes back as 5. */
  lemma NameRoundTrip(i: int)
    ensures IntFromLevel(LevelFromString(Some(ConvertIntLogLevelToString(i)))) == if 2 <= i <= 6 then i else 5
  {
    IntRoundTrip(i);
  }

  /**
   * Setting a level from the code read for it gives back the same code; the
   * same level exactly when it is one of the five canonical ones; and a level
   * of the same value exactly when its value is one of theirs.
   */
  lemma CodeReadBackIsStable(l: S.Level)
    ensures IntFromLevel(LevelFromInt(IntFromLevel(l))) == IntFromLevel(l)
    ensures LevelFromInt(IntFromLevel(l)) == l <==> S.IsCanonical(l)
    ensures S.Value(LevelFromInt(IntFromLevel(l))) == S.Value(l) <==> S.HasCanonicalValue(l)
  {
  }

  /** `GetLogLevel`: the root level's code, or -1 when there is no repository. */
  function GetLogLevel(repo: Repository?): (code: int)
    reads repo
    ensures repo == null <==> code == -1
    ensures repo != null ==> 2 <= code <= 6 && code == IntFromLevel(repo.root)
  {
    if repo == null then -1 else IntFromLevel(repo.root)
  }

  /**
   * `setLevel`: with no repository, -1 and nothing changes; otherwise the root
   * level is set, the repository marked configured, one change event raised,
   * and the code of the new root level returned.
   */
  method SetLevel(repo: Repository?, level: S.Level) returns (code: int)
    modifies repo
    ensures repo == null ==> code == -1
    ensures repo != null ==>
      repo.root == level && repo.configured && repo.changes == old(repo.changes) + 1
      && code == GetLogLevel(repo)
  {
    if repo == null {
      return -1;
    }
    repo.root := level;
    repo.configured := true;
    repo.changes := repo.changes + 1;
    code := IntFromLevel(repo.root);
  }

  /** `SetLogLevel(string)`. */
  method SetLogLevelString(repo: Repository?, level: Option<string>) returns (code: int)
    modifies repo
    ensures repo == null ==> code == -1
    ensures repo != null ==>
      repo.root == LevelFromString(level) && repo.configured && repo.changes == old(repo.changes) + 1
      && code == GetLogLevel(repo)
  {
    var l := LevelFromString(level);
    code := SetLevel(repo, l);
  }

  /** `SetLogLevel(int)`: a code 2 to 6 is returned as given, any other sets Info and returns 5. */
  method SetLogLevelInt(repo: Repository?, iLevel: int) returns (code: int)
    modifies repo
    ensures repo == null ==> code == -1
    ensures repo != null ==>
      repo.root == LevelFromInt(iLevel) && repo.configured && repo.changes == old(repo.changes) + 1
      && code == (if 2 <= iLevel <= 6 then iLevel else 5)
  {
    var l := LevelFromInt(iLevel);
    code := SetLevel(repo, l);
  }

  /**
   * `SetLogLevel(GetLogLevel())`: returns the code it read, and leaves a
   * canonical root level as it was. Another root level is replaced by the
   * canonical level of the same value when there is one (FINE by Debug), and
   * by Info otherwise.
   */
  method ReapplyLogLevel(repo: Repository?) returns (code: int)
    modifies repo
    ensures code == old(GetLogLevel(repo))
    ensures repo != null ==> S.IsCanonical(repo.root)
    ensures repo != null && S.IsCanonical(old(repo.root)) ==> repo.root == old(repo.root)
    ensures repo != null && S.HasCanonicalValue(old(repo.root)) ==> S.Value(repo.root) == S.Value(old(repo.root))
    ensures repo != null && !S.HasCanonicalValue(old(repo.root)) ==> repo.root == S.Info
  {
    var current := GetLogLevel(repo);
    code := SetLogLevelInt(repo, current);
    if repo != null {
      CodeReadBackIsStable(old(repo.root));
    }
  }
}

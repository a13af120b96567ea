/**
 * The level selection of logger/logger.go: a configuration string chooses one of four zerolog
 * levels, matched without regard to case, Info when it names none of them.
 */
module Logger {

  datatype Level = Debug | Info | Warn | Error

  /**
   * Go's `unicode.ToLower` of one rune, as far as it can produce an ASCII letter: 'A'..'Z', and the
   * two non-ASCII runes whose lower case is ASCII (U+0130, capital I with dot above, gives 'i';
   * U+212A, the Kelvin sign, gives 'k'). Every other rune is left as it is.
   */
  function LowerRune(c: char): (r: char)
    ensures 'A' <= c <= 'Z' ==> r as int == c as int + 32
    ensures !('A' <= r <= 'Z')
    ensures r != c ==> 'a' <= r <= 'z'
  {
    if 'A' <= c <= 'Z' then (c as int + 32) as char
    else if c == '\U{0130}' then 'i'
    else if c == '\U{212A}' then 'k'
    else c
  }

  /** `strings.ToLower`: lower-case every rune. */
  function ToLower(s: string): (r: string)
    ensures |r| == |s|
    ensures forall i | 0 <= i < |s| :: r[i] == LowerRune(s[i])
  {
    if s == [] then [] else [LowerRune(s[0])] + ToLower(s[1..])
  }

  /**
   * The level a configuration string selects: each level other than Info has exactly one name,
   * when lower-cased, and every other string selects Info.
   */
  function LevelOf(level: string): (l: Level)
    ensures l == Error <==> ToLower(level) == "error"
    ensures l == Warn <==> ToLower(level) == "warn"
    ensures l == Debug <==> ToLower(level) == "debug"
    ensures l == Info <==> ToLower(level) != "error" && ToLower(level) != "warn" && ToLower(level) != "debug"
  {
    var name := ToLower(level);
    if name == "error" then Error
    else if name == "warn" then Warn
    else if name == "info" then Info
    else if name == "debug" then Debug
    else Info
  }

  /** Lower-casing twice is lower-casing once. */
  lemma {:induction false} ToLowerIdempotent(s: string)
    ensures ToLower(ToLower(s)) == ToLower(s)
  {
    if s != [] {
      ToLowerIdempotent(s[1..]);
      assert ToLower(s)[1..] == ToLower(s[1..]);
    }
  }

  /** The choice ignores case: a string selects the same level as its lower-case form. */
  lemma LevelOfIgnoresCase(level: string)
    ensures LevelOf(ToLower(level)) == LevelOf(level)
  {
    ToLowerIdempotent(level);
  }

  /** A string lower-cases to `name` when its runes do, one by one. */
  lemma ToLowerMatches(s: string, name: string)
    requires |s| == |name| && forall i | 0 <= i < |s| :: LowerRune(s[i]) == name[i]
    ensures ToLower(s) == name
  {
  }

  /** The four names as written select their levels. */
  lemma LevelOfLowerCaseNames()
    ensures LevelOf("error") == Error && LevelOf("warn") == Warn
    ensures LevelOf("info") == Info && LevelOf("debug") == Debug
  {
    ToLowerMatches("error", "error");
    ToLowerMatches("warn", "warn");
    ToLowerMatches("debug", "debug");
  }

  /** Upper and mixed case select the same levels. */
  lemma LevelOfOtherCaseNames()
    ensures LevelOf("ERROR") == Error && LevelOf("Warn") == Warn
    ensures LevelOf("DEBUG") == Debug && LevelOf("Debug") == Debug
  {
    ToLowerMatches("ERROR", "error");
    ToLowerMatches("Warn", "warn");
    ToLowerMatches("DEBUG", "debug");
    ToLowerMatches("Debug", "debug");
  }

  /** The empty string and an unknown level name fall back to Info. */
  lemma LevelOfUnknownNames()
    ensures LevelOf("") == Info && LevelOf("trace") == Info && LevelOf("INFO") == Info
  {
    assert ToLower("trace")[0] == 't';
  }
}

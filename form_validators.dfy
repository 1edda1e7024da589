/**
  Angular's built-in `Validators.required`, `Validators.pattern` and
  `Validators.minLength`, as the person form configures them.

  A string is a sequence of Unicode scalar values. JavaScript strings are
  sequences of UTF-16 code units, which matters in two places: `minLength`
  counts code units (see `Utf16Length`), and an unescaped `.` in a regular
  expression without flags matches a single code unit, so it can never consume
  a character outside the Basic Multilingual Plane as a whole (see `MatchesDot`).
*/
module FormValidators {

  /** The keys Angular's validators put into a control's `errors` object. */
  datatype ErrorKey = RequiredError | PatternError | MinLengthError

  /** The two regular expressions the form passes to `Validators.pattern`. */
  datatype Pattern =
    | NamePattern   // '^[a-zA-ZäöüÄÖÜß]+$'
    | EmailPattern  // '[a-zA-Z0-9._%+-]+@[a-zA-Z0-9.-]+\.[a-zA-Z]{2,}' (the TS literal '\.' is '.')

  datatype Validator = Required | MatchPattern(pattern: Pattern) | MinLength(min: nat)

  /** The validators of the first- and last-name controls (`customValidator`). */
  const NameValidators: seq<Validator> := [Required, MatchPattern(NamePattern), MinLength(3)]

  /** The validators of the email controls (`emailValidator`). */
  const EmailValidators: seq<Validator> := [Required, MatchPattern(EmailPattern)]

  // ---------------------------------------------------------------------------
  // Character classes

  predicate IsAsciiLetter(c: char) { 'a' <= c <= 'z' || 'A' <= c <= 'Z' }

  predicate IsDigit(c: char) { '0' <= c <= '9' }

  /** `[a-zA-ZäöüÄÖÜß]` */
  predicate IsNameChar(c: char) { IsAsciiLetter(c) || c in "äöüÄÖÜß" }

  /** `[a-zA-Z0-9._%+-]` */
  predicate IsLocalChar(c: char) { IsAsciiLetter(c) || IsDigit(c) || c in "._%+-" }

  /** `[a-zA-Z0-9.-]` */
  predicate IsDomainChar(c: char) { IsAsciiLetter(c) || IsDigit(c) || c in ".-" }

  predicate IsLineTerminator(c: char) {
    c == '\n' || c == '\r' || c == '\U{2028}' || c == '\U{2029}'
  }

  /** A character that JavaScript stores as one UTF-16 code unit. */
  predicate IsBmp(c: char) { c as int <= 0xFFFF }

  /** What an unescaped `.` consumes: one code unit that is not a line terminator. */
  predicate MatchesDot(c: char) { IsBmp(c) && !IsLineTerminator(c) }

  predicate AllOf(s: seq<char>, p: char -> bool) {
    forall i :: 0 <= i < |s| ==> p(s[i])
  }

  // ---------------------------------------------------------------------------
  // The two anchored patterns

  /** `^[a-zA-ZäöüÄÖÜß]+$` */
  predicate NamePatternMatches(s: seq<char>) {
    |s| >= 1 && AllOf(s, IsNameChar)
  }

  /**
    `s` splits as local part `s[..at]`, the `@` at `at`, domain `s[at+1..dot]`,
    one arbitrary character at `dot`, and a top-level domain `s[dot+1..]` of at
    least two letters.
  */
  predicate EmailSplitAt(s: seq<char>, at: int, dot: int) {
    && 0 < at && at + 1 < dot && dot + 3 <= |s|
    && AllOf(s[..at], IsLocalChar)
    && s[at] == '@'
    && AllOf(s[at + 1..dot], IsDomainChar)
    && MatchesDot(s[dot])
    && AllOf(s[dot + 1..], IsAsciiLetter)
  }

  /** `^[a-zA-Z0-9._%+-]+@[a-zA-Z0-9.-]+.[a-zA-Z]{2,}$`: some split of `s` fits the pattern. */
  predicate EmailPatternMatches(s: seq<char>) {
    exists at, dot | 0 <= at < dot < |s| :: EmailSplitAt(s, at, dot)
  }

  predicate Matches(p: Pattern, s: seq<char>) {
    match p
    case NamePattern => NamePatternMatches(s)
    case EmailPattern => EmailPatternMatches(s)
  }

  // ---------------------------------------------------------------------------
  // A backtracking-free reading of the email pattern

  /** Index of the first `@` in `s`, or `|s|` when there is none. */
  function FirstAt(s: seq<char>): (k: nat)
    ensures k <= |s|
    ensures forall i :: 0 <= i < k ==> s[i] != '@'
    ensures k < |s| ==> s[k] == '@'
  {
    if s == [] then 0
    else if s[0] == '@' then 0
    else 1 + FirstAt(s[1..])
  }

  /** Start of the longest suffix of `s` made of ASCII letters. */
  function LetterSuffixStart(s: seq<char>): (j: nat)
    ensures j <= |s|
    ensures AllOf(s[j..], IsAsciiLetter)
    ensures 0 < j ==> !IsAsciiLetter(s[j - 1])
  {
    if s == [] then 0
    else if IsAsciiLetter(s[|s| - 1]) then
      var j := LetterSuffixStart(s[..|s| - 1]);
      assert s[j..] == s[..|s| - 1][j..] + [s[|s| - 1]];
      j
    else |s|
  }

  /**
    Where the scan puts the arbitrary character: as far left as the one-character
    minimum of the domain and the letter-only top-level domain allow.
  */
  function ScanDot(s: seq<char>): int {
    var at: int := FirstAt(s);
    var j: int := LetterSuffixStart(s);
    if at + 2 < j - 1 then j - 1 else at + 2
  }

  /**
    Decides the email pattern without search: the local part ends at the first
    `@`, and the arbitrary character sits at `ScanDot(s)`.
  */
  predicate EmailScan(s: seq<char>) {
    var at := FirstAt(s);
    var dot := ScanDot(s);
    && 0 < at < |s|
    && dot + 3 <= |s|
    && AllOf(s[..at], IsLocalChar)
    && AllOf(s[at + 1..dot], IsDomainChar)
    && MatchesDot(s[dot])
  }

  lemma LettersFrom(s: seq<char>, j: int, k: int)
    requires 0 <= j <= k <= |s| && AllOf(s[j..], IsAsciiLetter)
    ensures AllOf(s[k..], IsAsciiLetter)
  {
    assert s[k..] == s[j..][k - j..];
  }

  lemma FirstAtIs(s: seq<char>, at: int)
    requires 0 <= at < |s| && s[at] == '@' && AllOf(s[..at], IsLocalChar)
    ensures FirstAt(s) == at
  {
  }

  lemma LetterSuffixAtMost(s: seq<char>, k: int)
    requires 0 <= k <= |s| && AllOf(s[k..], IsAsciiLetter)
    ensures LetterSuffixStart(s) <= k
  {
  }

  /** Every string the scan accepts fits the email pattern. */
  lemma EmailScanSound(s: seq<char>)
    requires EmailScan(s)
    ensures EmailPatternMatches(s)
  {
    var at, dot := FirstAt(s), ScanDot(s);
    LettersFrom(s, LetterSuffixStart(s), dot + 1);
    assert EmailSplitAt(s, at, dot);
  }

  /** Every string that fits the email pattern is accepted by the scan. */
  lemma EmailScanComplete(s: seq<char>, at: int, dot: int)
    requires 0 <= at < dot < |s| && EmailSplitAt(s, at, dot)
    ensures EmailScan(s)
  {
    FirstAtIs(s, at);
    LetterSuffixAtMost(s, dot + 1);
    var d := ScanDot(s);
    assert d <= dot;
    if d < dot {
      assert s[at + 1..d] == s[at + 1..dot][..d - (at + 1)];
      assert IsDomainChar(s[at + 1..dot][d - (at + 1)]);
    }
  }

  /** The scan is an exact decision procedure for the email pattern. */
  lemma EmailScanAgrees(s: seq<char>)
    ensures EmailPatternMatches(s) <==> EmailScan(s)
  {
    if EmailScan(s) {
      EmailScanSound(s);
    }
    if EmailPatternMatches(s) {
      var at, dot :| 0 <= at < dot < |s| && EmailSplitAt(s, at, dot);
      EmailScanComplete(s, at, dot);
    }
  }

  // ---------------------------------------------------------------------------
  // Angular's validator semantics

  /** `value.length` of a JavaScript string: characters outside the BMP count twice. */
  function Utf16Length(s: seq<char>): nat {
    if s == [] then 0 else (if IsBmp(s[0]) then 1 else 2) + Utf16Length(s[1..])
  }

  /**
    The errors one validator reports. `pattern` and `minLength` pass the empty
    string, so an empty control reports only `required`.
  */
  function Check(v: Validator, s: seq<char>): set<ErrorKey> {
    match v
    case Required => if |s| == 0 then {RequiredError} else {}
    case MatchPattern(p) => if |s| == 0 || Matches(p, s) then {} else {PatternError}
    case MinLength(n) => if |s| == 0 || Utf16Length(s) >= n then {} else {MinLengthError}
  }

  /** The merged `errors` of a control holding `s`, empty when the control is valid. */
  function Errors(vs: seq<Validator>, s: seq<char>): set<ErrorKey> {
    if vs == [] then {} else Check(vs[0], s) + Errors(vs[1..], s)
  }

  /** `FormControl.invalid`. */
  predicate ControlInvalid(vs: seq<Validator>, s: seq<char>) {
    Errors(vs, s) != {}
  }

  // ---------------------------------------------------------------------------
  // The rules the two controls enforce

  /** A valid name: at least three characters, each a Latin letter, an umlaut or ß. */
  predicate ValidName(s: seq<char>) {
    |s| >= 3 && AllOf(s, IsNameChar)
  }

  lemma {:induction false} Utf16LengthOfBmp(s: seq<char>)
    requires AllOf(s, IsBmp)
    ensures Utf16Length(s) == |s|
  {
    if s != [] {
      assert AllOf(s[1..], IsBmp) by {
        forall i | 0 <= i < |s[1..]| ensures IsBmp(s[1..][i]) { assert s[1..][i] == s[i + 1]; }
      }
      Utf16LengthOfBmp(s[1..]);
    }
  }

  /** The name control is valid exactly when its text is a valid name. */
  lemma NameRule(s: seq<char>)
    ensures !ControlInvalid(NameValidators, s) <==> ValidName(s)
  {
    if AllOf(s, IsNameChar) {
      assert AllOf(s, IsBmp) by {
        forall i | 0 <= i < |s| ensures IsBmp(s[i]) { assert IsNameChar(s[i]); }
      }
      Utf16LengthOfBmp(s);
    }
    assert NameValidators[1..][1..] == [MinLength(3)];
    assert Errors(NameValidators[1..][1..], s) == Check(MinLength(3), s);
    assert Errors(NameValidators, s)
        == Check(Required, s) + Check(MatchPattern(NamePattern), s) + Check(MinLength(3), s);
  }

  /**
    The email control reports `required` exactly when it is empty, and is valid
    exactly when it is non-empty and fits the email pattern.
  */
  lemma EmailRule(s: seq<char>)
    ensures RequiredError in Errors(EmailValidators, s) <==> |s| == 0
    ensures !ControlInvalid(EmailValidators, s) <==> |s| > 0 && EmailPatternMatches(s)
  {
    assert EmailValidators[1..] == [MatchPattern(EmailPattern)];
    assert EmailValidators[1..][1..] == [];
    assert Errors(EmailValidators[1..], s) == Check(MatchPattern(EmailPattern), s);
    assert Errors(EmailValidators, s) == Check(Required, s) + Check(MatchPattern(EmailPattern), s);
  }
}

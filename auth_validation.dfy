/**
 * The login and registration form schemas. Each field's checks all run and
 * report their messages in declaration order; a form is valid when no field
 * reports anything. The email format check is a parameter, `isEmail`.
 */
module AuthValidation {

  /** The letters of the name pattern: A-Z, a-z, À-Ö, Ø-ö and ø-ÿ. */
  predicate IsNameLetter(c: char) {
    ('A' <= c <= 'Z') || ('a' <= c <= 'z') ||
    (0xC0 <= c as int <= 0xD6) || (0xD8 <= c as int <= 0xF6) || (0xF8 <= c as int <= 0xFF)
  }

  predicate AllNameLetters(s: string) {
    forall k :: 0 <= k < |s| ==> IsNameLetter(s[k])
  }

  /**
   * What `/^[letters]+ [letters]+/` accepts: one or more letters, a space,
   * one or more letters, then anything (the pattern has no end anchor).
   */
  ghost predicate FullNamePattern(s: string) {
    exists i, j :: FullNameAt(s, i, j)
  }

  /** `s[..j]` is the matched text: letters `s[..i]`, the space `s[i]`, letters `s[i + 1..j]`. */
  predicate FullNameAt(s: string, i: int, j: int) {
    0 < i && i + 1 < j <= |s| && AllNameLetters(s[..i]) && s[i] == ' ' && AllNameLetters(s[i + 1..j])
  }

  /** The number of letters the string starts with. */
  function LeadingLetters(s: string): (k: nat)
    ensures k <= |s| && AllNameLetters(s[..k])
    ensures k < |s| ==> !IsNameLetter(s[k])
  {
    if s == [] || !IsNameLetter(s[0]) then 0
    else
      var k := 1 + LeadingLetters(s[1..]);
      assert s[..k] == [s[0]] + s[1..][..k - 1];
      k
  }

  /** The pattern test as a scan: the first non-letter is a space followed by a letter. */
  function MatchesFullName(s: string): bool {
    var k := LeadingLetters(s);
    0 < k && k + 1 < |s| && s[k] == ' ' && IsNameLetter(s[k + 1])
  }

  /** The scan decides the pattern, in both directions. */
  lemma MatchesFullNameIff(s: string)
    ensures MatchesFullName(s) <==> FullNamePattern(s)
  {
    var k := LeadingLetters(s);
    if MatchesFullName(s) {
      assert AllNameLetters(s[k + 1..k + 2]);
      assert FullNameAt(s, k, k + 2);
    }
    if FullNamePattern(s) {
      var i, j :| FullNameAt(s, i, j);
      assert s[k + 1] == s[i + 1..j][0];
    }
  }

  /** A name the pattern accepts has at least three characters. */
  lemma FullNameLength(s: string)
    requires MatchesFullName(s)
    ensures |s| >= 3
  {
  }

  const NameTooShort := "Name must be at least 2 characters"
  const NameTooLong := "Name must be less than 50 characters"
  const NotFullName := "Please enter your full name (first and last name)"
  const EmailRequired := "Email is required"
  const EmailInvalid := "Invalid email format"
  const PasswordTooShort := "Password must be at least 6 characters"
  const PasswordTooLong := "Password must be less than 50 characters"

  /** `registerSchema.name`: min 2, max 50, full-name pattern. */
  function NameIssues(name: string): (r: seq<string>)
    ensures r == [] <==> 2 <= |name| <= 50 && MatchesFullName(name)
    ensures NameTooShort in r <==> |name| < 2
    ensures NameTooLong in r <==> |name| > 50
    ensures NotFullName in r <==> !MatchesFullName(name)
    ensures |name| < 2 ==> r[0] == NameTooShort
    ensures |name| > 50 ==> r[0] == NameTooLong
    ensures !MatchesFullName(name) ==> r[|r| - 1] == NotFullName
  {
    (if |name| < 2 then [NameTooShort] else []) +
    (if |name| > 50 then [NameTooLong] else []) +
    (if MatchesFullName(name) then [] else [NotFullName])
  }

  /** `.min(1).email()` on an email field. */
  function EmailIssues(email: string, isEmail: string -> bool): (r: seq<string>)
    ensures r == [] <==> |email| >= 1 && isEmail(email)
    ensures EmailRequired in r <==> email == ""
    ensures EmailInvalid in r <==> !isEmail(email)
    ensures email == "" ==> r[0] == EmailRequired
    ensures !isEmail(email) ==> r[|r| - 1] == EmailInvalid
  {
    (if |email| < 1 then [EmailRequired] else []) +
    (if isEmail(email) then [] else [EmailInvalid])
  }

  /** `registerSchema.password`: min 6, max 50. */
  function PasswordIssues(password: string): (r: seq<string>)
    ensures r == [] <==> 6 <= |password| <= 50
    ensures PasswordTooShort in r <==> |password| < 6
    ensures PasswordTooLong in r <==> |password| > 50
    ensures |password| < 6 ==> r == [PasswordTooShort]
    ensures |password| > 50 ==> r == [PasswordTooLong]
  {
    (if |password| < 6 then [PasswordTooShort] else []) +
    (if |password| > 50 then [PasswordTooLong] else [])
  }

  /** `loginSchema`: a non-empty, well-formed email and a password of at least 6 characters. */
  function LoginIssues(email: string, password: string, isEmail: string -> bool): (r: seq<string>)
    ensures r == [] <==> |email| >= 1 && isEmail(email) && |password| >= 6
  {
    EmailIssues(email, isEmail) + (if |password| < 6 then [PasswordTooShort] else [])
  }

  function RegisterIssues(name: string, email: string, password: string, isEmail: string -> bool): (r: seq<string>)
    ensures r == [] <==>
      2 <= |name| <= 50 && FullNamePattern(name) &&
      |email| >= 1 && isEmail(email) &&
      6 <= |password| <= 50
  {
    MatchesFullNameIff(name);
    NameIssues(name) + EmailIssues(email, isEmail) + PasswordIssues(password)
  }

  /** The minimum of 2 never decides anything: a name it rejects also fails the pattern. */
  lemma MinimumImpliedByPattern(name: string)
    ensures NameTooShort in NameIssues(name) ==> NotFullName in NameIssues(name)
  {
  }

  /** A registration that passes the schema passes the action's own required-field check. */
  lemma RegisterValidImpliesNonEmpty(name: string, email: string, password: string, isEmail: string -> bool)
    requires RegisterIssues(name, email, password, isEmail) == []
    ensures name != "" && email != "" && password != ""
  {
  }
}

/** The string checks shared by the registration and login forms
    (frontend/src/Register.js, frontend/src/Login.js) and the constraints of
    the user schema in backend/models/User.js. Each regular expression is
    given twice: as the regular expression reads (an existential over where
    its parts fall) and as a direct check, with a lemma that the two agree. */
module Validators {
  import opened Seqs
  import opened Strings

  predicate IsAsciiLower(c: char) { 'a' <= c <= 'z' }
  predicate IsAsciiUpper(c: char) { 'A' <= c <= 'Z' }
  predicate IsAsciiLetter(c: char) { IsAsciiLower(c) || IsAsciiUpper(c) }
  /** `\d`: the ASCII digits only. */
  predicate IsDigit(c: char) { '0' <= c <= '9' }

  /** `[a-zA-Z0-9._%+-]` */
  predicate IsLocalChar(c: char) {
    IsAsciiLetter(c) || IsDigit(c) || c == '.' || c == '_' || c == '%' || c == '+' || c == '-'
  }

  /** `[a-zA-Z0-9.-]` */
  predicate IsDomainChar(c: char) {
    IsAsciiLetter(c) || IsDigit(c) || c == '.' || c == '-'
  }

  /** `[!@#$%^&*]` */
  predicate IsSpecial(c: char) {
    c == '!' || c == '@' || c == '#' || c == '$' || c == '%' || c == '^' || c == '&' || c == '*'
  }

  /** The characters `.` does not match. */
  predicate IsLineTerminator(c: char) {
    c == '\n' || c == '\r' || c == '\U{2028}' || c == '\U{2029}'
  }

  predicate AllLocal(s: string) { forall k :: 0 <= k < |s| ==> IsLocalChar(s[k]) }
  predicate AllDomain(s: string) { forall k :: 0 <= k < |s| ==> IsDomainChar(s[k]) }
  predicate AllLetters(s: string) { forall k :: 0 <= k < |s| ==> IsAsciiLetter(s[k]) }

  // ---------------------------------------------------------------- email

  /** `^[a-zA-Z0-9._%+-]+@[a-zA-Z0-9.-]+\.[a-zA-Z]{2,}$` matched with the `@`
      at `at` and the `\.` at `dot`. */
  predicate EmailSplit(s: string, at: int, dot: int) {
    && 0 < at && at + 1 < dot && dot + 3 <= |s|
    && s[at] == '@' && s[dot] == '.'
    && AllLocal(s[..at]) && AllDomain(s[at + 1..dot]) && AllLetters(s[dot + 1..])
  }

  /** The regular expression as it reads: some placement of the `@` and the
      final `.` fits. */
  ghost predicate EmailPattern(s: string) {
    exists at, dot :: EmailSplit(s, at, dot)
  }

  /** The direct check: the `@` can only be the first one (the local part
      cannot hold one) and the `.` only the last one (the letters after it
      cannot hold one). */
  predicate IsEmail(s: string) {
    EmailSplit(s, IndexOf(s, '@'), LastIndexOf(s, '.'))
  }

  lemma EmailPatternIffIsEmail(s: string)
    ensures EmailPattern(s) <==> IsEmail(s)
  {
    if EmailPattern(s) {
      var at, dot :| EmailSplit(s, at, dot);
      var first := IndexOf(s, '@');
      assert first == at by {
      }
      var last := LastIndexOf(s, '.');
      assert last == dot by {
        assert !IsAsciiLetter('.');
      }
    }
  }

  /** Wherever the pattern places its `@` and its dot, the address holds
      no other `@`, and it ends in the dot and at least two letters. */
  lemma EmailSplitShape(s: string, at: int, dot: int)
    requires EmailSplit(s, at, dot)
    ensures forall k :: 0 <= k < |s| && s[k] == '@' ==> k == at
    ensures dot <= |s| - 3
    ensures forall k :: dot < k < |s| ==> IsAsciiLetter(s[k])
  {
    forall k | dot < k < |s| ensures IsAsciiLetter(s[k]) {
      assert s[k] == s[dot + 1..][k - dot - 1];
    }
  }

  /** An address the pattern matches starts with a local-part character and
      ends with a letter, so it has no surrounding white space. */
  lemma EmailPatternIsTrimmed(s: string)
    requires EmailPattern(s)
    ensures IsTrimmed(s) && s != ""
  {
    var at, dot :| EmailSplit(s, at, dot);
    EmailSplitShape(s, at, dot);
    assert s[0] == s[..at][0];
  }

  // --------------------------------------------------------------- mobile

  /** `^\d{10}$` */
  predicate IsTenDigits(s: string) {
    |s| == 10 && forall k :: 0 <= k < |s| ==> IsDigit(s[k])
  }

  // ------------------------------------------------------------- password

  datatype CharClass = LowerLetter | UpperLetter | SpecialChar

  predicate InClass(c: char, k: CharClass) {
    match k
    case LowerLetter => IsAsciiLower(c)
    case UpperLetter => IsAsciiUpper(c)
    case SpecialChar => IsSpecial(c)
  }

  /** `(?=.*[k])` at position `p`: a character of class `k` at some `q >= p`
      with no line terminator between. */
  predicate AheadAt(s: string, p: nat, q: nat, k: CharClass) {
    p <= q < |s| && InClass(s[q], k) && forall m :: p <= m < q ==> !IsLineTerminator(s[m])
  }

  predicate LookaheadHolds(s: string, p: nat, k: CharClass) {
    exists q: nat :: q < |s| && AheadAt(s, p, q, k)
  }

  /** `/(?=.*[a-z])(?=.*[A-Z])(?=.*[!@#$%^&*])/.test(s)`: unanchored, so the
      three lookaheads succeed together at some position. */
  predicate PasswordPattern(s: string) {
    exists p: nat :: p <= |s| && LookaheadHolds(s, p, LowerLetter) && LookaheadHolds(s, p, UpperLetter)
      && LookaheadHolds(s, p, SpecialChar)
  }

  predicate HasClass(s: string, k: CharClass) {
    exists q :: 0 <= q < |s| && InClass(s[q], k)
  }

  predicate SingleLine(s: string) {
    forall m :: 0 <= m < |s| ==> !IsLineTerminator(s[m])
  }

  /** The direct check used below: a lowercase letter, an uppercase letter
      and a special character somewhere. */
  predicate HasRequiredClasses(s: string) {
    HasClass(s, LowerLetter) && HasClass(s, UpperLetter) && HasClass(s, SpecialChar)
  }

  /** On a password without line breaks (what an input field yields) the
      lookaheads hold exactly when all three classes occur; with line breaks,
      the three must occur after one common start within one line. */
  lemma PasswordPatternIffClasses(s: string)
    ensures PasswordPattern(s) ==> HasRequiredClasses(s)
    ensures SingleLine(s) && HasRequiredClasses(s) ==> PasswordPattern(s)
  {
    if SingleLine(s) && HasRequiredClasses(s) {
      forall k: CharClass ensures LookaheadHolds(s, 0, k) {
        var q :| 0 <= q < |s| && InClass(s[q], k);
        assert AheadAt(s, 0, q, k);
      }
      assert LookaheadHolds(s, 0, LowerLetter) && LookaheadHolds(s, 0, UpperLetter) && LookaheadHolds(s, 0, SpecialChar);
    }
    if PasswordPattern(s) {
      var p: nat :| p <= |s| && LookaheadHolds(s, p, LowerLetter) && LookaheadHolds(s, p, UpperLetter)
        && LookaheadHolds(s, p, SpecialChar);
      forall k: CharClass ensures HasClass(s, k) {
        assert LookaheadHolds(s, p, k) by {
          assert k == LowerLetter || k == UpperLetter || k == SpecialChar;
        }
        var q: nat :| AheadAt(s, p, q, k);
      }
    }
  }

  /** A line break between the letters defeats the pattern although all
      three classes occur. */
  lemma PasswordPatternNeedsOneLine()
    ensures HasRequiredClasses("a\nA!") && !PasswordPattern("a\nA!")
  {
    var s := "a\nA!";
    assert s[0] == 'a' && s[1] == '\n' && s[2] == 'A' && s[3] == '!';
    assert InClass(s[0], LowerLetter) && InClass(s[2], UpperLetter) && InClass(s[3], SpecialChar);
  }

  const MIN_LENGTH: nat := 6

  /** The password test of both the registration form and the schema:
      at least 6 characters and the three classes. */
  predicate PasswordAcceptable(s: string) {
    JsLength(s) >= MIN_LENGTH && PasswordPattern(s)
  }

  // ------------------------------------------------------------- strength

  datatype Strength = Weak | Medium | Strong

  function Rank(t: Strength): nat {
    match t
    case Weak => 0
    case Medium => 1
    case Strong => 2
  }

  /** `handlePasswordChange`: under 6 weak, under 10 medium, else strong. */
  function PasswordStrength(s: string): (t: Strength)
    ensures t == Weak <==> JsLength(s) < 6
    ensures t == Strong <==> JsLength(s) >= 10
  {
    var n := JsLength(s);
    if n < 6 then Weak else if n < 10 then Medium else Strong
  }

  /** Lengthening a password never lowers its tier. */
  lemma StrengthMonotone(a: string, b: string)
    requires JsLength(a) <= JsLength(b)
    ensures Rank(PasswordStrength(a)) <= Rank(PasswordStrength(b))
  {
  }

  /** A password the form accepts is at least medium. */
  lemma AcceptedIsNotWeak(s: string)
    requires PasswordAcceptable(s)
    ensures PasswordStrength(s) != Weak
  {
  }

  // ------------------------------------------------------------- schema

  /** backend/models/User.js: all four fields required (non-empty), the
      username and password at least 6 long, the email and mobile matching
      their patterns, the password holding the three classes. */
  ghost predicate UserSchemaValid(username: string, email: string, mobile: string, password: string) {
    && username != "" && email != "" && mobile != "" && password != ""
    && JsLength(username) >= MIN_LENGTH
    && EmailPattern(email)
    && IsTenDigits(mobile)
    && PasswordAcceptable(password)
  }
}

/**
 * The user schema: which fields a registration must carry and the format
 * each one must have. Each pattern is written the way its regular expression
 * reads (a concatenation of classes and quantifiers), and each is proved
 * equal to a plain statement of the rule it enforces.
 */
module UserSchema {
  import opened Wrappers
  import opened JsRegex

  /** The optional nested address; no sub-field is required or checked. */
  datatype Address = Address(street: Option<string>, city: Option<string>, state: Option<string>, country: Option<string>)

  /** A submitted user document; a field the submission leaves out is None. */
  datatype UserFields = UserFields(
    firstName: Option<string>,
    lastName: Option<string>,
    mobileNo: Option<string>,
    emailId: Option<string>,
    address: Address,
    loginId: Option<string>,
    password: Option<string>)

  /** The schema paths that carry a validator. */
  datatype Path = FirstName | LastName | MobileNo | EmailId | LoginId | Password

  /** `/^\d{10}$/` */
  predicate MobileNoMatches(s: string) {
    Repeat(Digit, 10, s)
  }

  /** `/^[^\s@]+@[^\s@]+\.[^\s@]+$/`: some '@' at i and '.' at j split s into three runs of [^\s@]. */
  predicate EmailIdMatches(s: string) {
    exists i, j | 0 <= i < j < |s| ::
      && s[i] == '@' && s[j] == '.'
      && Plus(NotSpaceOrAt, s[..i]) && Plus(NotSpaceOrAt, s[i + 1..j]) && Plus(NotSpaceOrAt, s[j + 1..])
  }

  /** `/^[a-zA-Z0-9]{8}$/` */
  predicate LoginIdMatches(s: string) {
    Repeat(Alnum, 8, s)
  }

  /** `/^(?=.*[a-z])(?=.*[A-Z])(?=.*\W).{6,}$/` */
  predicate PasswordMatches(s: string) {
    DotsThen(Lower, s) && DotsThen(Upper, s) && DotsThen(NonWord, s) && DotsAtLeast(6, s)
  }

  /** A required path is satisfied by any supplied value. */
  predicate Present(v: Option<string>) {
    v.Some?
  }

  /** The validators of one path: `required`, then the path's pattern if it has one. */
  predicate PathValid(f: UserFields, p: Path) {
    match p
    case FirstName => Present(f.firstName)
    case LastName => Present(f.lastName)
    case MobileNo => Present(f.mobileNo) && MobileNoMatches(f.mobileNo.value)
    case EmailId => Present(f.emailId) && EmailIdMatches(f.emailId.value)
    case LoginId => Present(f.loginId) && LoginIdMatches(f.loginId.value)
    case Password => Present(f.password) && PasswordMatches(f.password.value)
  }

  /** The document passes the validators of every path; the address has none. */
  predicate IsValidUser(f: UserFields) {
    && PathValid(f, FirstName) && PathValid(f, LastName) && PathValid(f, MobileNo)
    && PathValid(f, EmailId) && PathValid(f, LoginId) && PathValid(f, Password)
  }

  const AllPaths: set<Path> := {FirstName, LastName, MobileNo, EmailId, LoginId, Password}

  /** The paths whose validators fail; validation collects all of them rather than stopping at the first. */
  function InvalidPaths(f: UserFields): (bad: set<Path>)
    ensures bad == {} <==> IsValidUser(f)
  {
    var bad := set p | p in AllPaths && !PathValid(f, p);
    assert forall p :: p in AllPaths ==> (p in bad <==> !PathValid(f, p));
    bad
  }

  // ---------------------------------------------------------------------------
  // The rules in plain terms

  predicate AllIn(cls: Class, s: string) {
    forall k :: 0 <= k < |s| ==> In(cls, s[k])
  }

  predicate Contains(cls: Class, s: string) {
    exists k :: 0 <= k < |s| && In(cls, s[k])
  }

  /** Exactly ten characters, each an ASCII digit. */
  predicate MobileNoRule(s: string) {
    |s| == 10 && forall k :: 0 <= k < |s| ==> IsDigit(s[k])
  }

  /** Exactly eight characters, each an ASCII letter or digit. */
  predicate LoginIdRule(s: string) {
    |s| == 8 && forall k :: 0 <= k < |s| ==> IsLower(s[k]) || IsUpper(s[k]) || IsDigit(s[k])
  }

  predicate NoSpace(s: string) {
    forall k :: 0 <= k < |s| ==> !IsSpace(s[k])
  }

  /** s[i] is an '@' and s has no other. */
  predicate SoleAtSign(s: string, i: int) {
    0 <= i < |s| && s[i] == '@' && forall k :: 0 <= k < |s| && s[k] == '@' ==> k == i
  }

  /** d has a '.' that is neither its first nor its last character. */
  predicate HasInnerDot(d: string) {
    exists k :: 0 < k < |d| - 1 && d[k] == '.'
  }

  /** No whitespace; exactly one '@'; a non-empty local part; an inner '.' in the domain part. */
  predicate EmailIdRule(s: string) {
    NoSpace(s) && exists i :: 0 < i < |s| && SoleAtSign(s, i) && HasInnerDot(s[i + 1..])
  }

  predicate NoLineTerminator(s: string) {
    forall k :: 0 <= k < |s| ==> !IsLineTerminator(s[k])
  }

  /**
   * At least six UTF-16 code units, no line terminator, a lower-case and an
   * upper-case ASCII letter, and a character outside [A-Za-z0-9_].
   */
  predicate PasswordRule(s: string) {
    && Utf16Length(s) >= 6
    && NoLineTerminator(s)
    && Contains(Lower, s)
    && Contains(Upper, s)
    && Contains(NonWord, s)
  }

  // ---------------------------------------------------------------------------
  // Each pattern enforces exactly its rule

  lemma MobileNoMatchesIff(s: string)
    ensures MobileNoMatches(s) <==> MobileNoRule(s)
  {
    RepeatIff(Digit, 10, s);
  }

  lemma LoginIdMatchesIff(s: string)
    ensures LoginIdMatches(s) <==> LoginIdRule(s)
  {
    RepeatIff(Alnum, 8, s);
  }

  lemma PasswordMatchesIff(s: string)
    ensures PasswordMatches(s) <==> PasswordRule(s)
  {
    DotsAtLeastIff(6, s);
    DotsThenIff(Lower, s);
    DotsThenIff(Upper, s);
    DotsThenIff(NonWord, s);
  }

  lemma EmailIdMatchesIff(s: string)
    ensures EmailIdMatches(s) <==> EmailIdRule(s)
  {
    if EmailIdMatches(s) {
      EmailPatternGivesRule(s);
    }
    if EmailIdRule(s) {
      EmailRuleGivesPattern(s);
    }
  }

  lemma EmailPatternGivesRule(s: string)
    requires EmailIdMatches(s)
    ensures EmailIdRule(s)
  {
    var i, j :| 0 <= i < j < |s| && s[i] == '@' && s[j] == '.'
      && Plus(NotSpaceOrAt, s[..i]) && Plus(NotSpaceOrAt, s[i + 1..j]) && Plus(NotSpaceOrAt, s[j + 1..]);
    PlusIff(NotSpaceOrAt, s[..i]);
    PlusIff(NotSpaceOrAt, s[i + 1..j]);
    PlusIff(NotSpaceOrAt, s[j + 1..]);
    forall k | 0 <= k < |s| && k != i && k != j
      ensures In(NotSpaceOrAt, s[k])
    {
      if k < i {
        assert s[k] == s[..i][k];
      } else if k < j {
        assert s[k] == s[i + 1..j][k - i - 1];
      } else {
        assert s[k] == s[j + 1..][k - j - 1];
      }
    }
    assert SoleAtSign(s, i);
    assert s[i + 1..][j - i - 1] == '.';
    assert HasInnerDot(s[i + 1..]);
  }

  lemma EmailRuleGivesPattern(s: string)
    requires EmailIdRule(s)
    ensures EmailIdMatches(s)
  {
    var i :| 0 < i < |s| && SoleAtSign(s, i) && HasInnerDot(s[i + 1..]);
    var d := s[i + 1..];
    var k :| 0 < k < |d| - 1 && d[k] == '.';
    var j := i + 1 + k;
    assert s[j] == '.';
    assert forall m :: 0 <= m < |s| && m != i ==> In(NotSpaceOrAt, s[m]);
    assert AllIn(NotSpaceOrAt, s[..i]) by {
      forall m | 0 <= m < i ensures In(NotSpaceOrAt, s[..i][m]) { assert s[..i][m] == s[m]; }
    }
    var domainName, tld := s[i + 1..j], s[j + 1..];
    assert AllIn(NotSpaceOrAt, domainName) by {
      forall m | 0 <= m < |domainName| ensures In(NotSpaceOrAt, domainName[m]) { assert domainName[m] == s[i + 1 + m]; }
    }
    assert AllIn(NotSpaceOrAt, tld) by {
      forall m | 0 <= m < |tld| ensures In(NotSpaceOrAt, tld[m]) { assert tld[m] == s[j + 1 + m]; }
    }
    PlusIff(NotSpaceOrAt, s[..i]);
    PlusIff(NotSpaceOrAt, s[i + 1..j]);
    PlusIff(NotSpaceOrAt, s[j + 1..]);
  }

  /**
   * A document is accepted iff every per-field rule holds: the names need only
   * be present, and the address plays no part.
   */
  lemma IsValidUserIff(f: UserFields)
    ensures IsValidUser(f) <==>
      && Present(f.firstName) && Present(f.lastName)
      && Present(f.mobileNo) && MobileNoRule(f.mobileNo.value)
      && Present(f.emailId) && EmailIdRule(f.emailId.value)
      && Present(f.loginId) && LoginIdRule(f.loginId.value)
      && Present(f.password) && PasswordRule(f.password.value)
    ensures forall a: Address :: IsValidUser(f.(address := a)) == IsValidUser(f)
  {
    if f.mobileNo.Some? { MobileNoMatchesIff(f.mobileNo.value); }
    if f.emailId.Some? { EmailIdMatchesIff(f.emailId.value); }
    if f.loginId.Some? { LoginIdMatchesIff(f.loginId.value); }
    if f.password.Some? { PasswordMatchesIff(f.password.value); }
  }

  /** The plain rule a path's validators enforce; the names need only be present. */
  predicate PathRule(f: UserFields, p: Path) {
    match p
    case FirstName => Present(f.firstName)
    case LastName => Present(f.lastName)
    case MobileNo => Present(f.mobileNo) && MobileNoRule(f.mobileNo.value)
    case EmailId => Present(f.emailId) && EmailIdRule(f.emailId.value)
    case LoginId => Present(f.loginId) && LoginIdRule(f.loginId.value)
    case Password => Present(f.password) && PasswordRule(f.password.value)
  }

  /** A path is reported exactly when its field is missing or breaks its rule. */
  lemma InvalidPathsRules(f: UserFields, p: Path)
    ensures p in InvalidPaths(f) <==> !PathRule(f, p)
  {
    match p
    case FirstName =>
    case LastName =>
    case MobileNo => if f.mobileNo.Some? { MobileNoMatchesIff(f.mobileNo.value); }
    case EmailId => if f.emailId.Some? { EmailIdMatchesIff(f.emailId.value); }
    case LoginId => if f.loginId.Some? { LoginIdMatchesIff(f.loginId.value); }
    case Password => if f.password.Some? { PasswordMatchesIff(f.password.value); }
  }

  // ---------------------------------------------------------------------------
  // Examples

  lemma PasswordTooWeakRejected()
    ensures !PasswordMatches("abc")
  {
    PasswordMatchesIff("abc");
    assert !Contains(Upper, "abc");
  }

  lemma PasswordStrongAccepted()
    ensures PasswordMatches("Abcdef!")
  {
    var s := "Abcdef!";
    PasswordMatchesIff(s);
    Utf16LengthOfBmp(s);
    assert In(Lower, s[1]) && In(Upper, s[0]) && In(NonWord, s[6]);
  }

  /** The underscore is a word character, so it does not count as the symbol. */
  lemma PasswordUnderscoreIsNoSymbol()
    ensures !PasswordMatches("Abcdef_")
  {
    PasswordMatchesIff("Abcdef_");
    assert !Contains(NonWord, "Abcdef_");
  }

  lemma MobileNoAccepted()
    ensures MobileNoMatches("9876543210")
  {
    MobileNoMatchesIff("9876543210");
  }

  lemma MobileNoWrongLengthRejected()
    ensures !MobileNoMatches("987654321")
    ensures !MobileNoMatches("98765432100")
  {
    MobileNoMatchesIff("987654321");
    MobileNoMatchesIff("98765432100");
  }

  lemma MobileNoNonDigitRejected()
    ensures !MobileNoMatches("98765-4321")
  {
    MobileNoMatchesIff("98765-4321");
    assert !IsDigit("98765-4321"[5]);
  }

  lemma LoginIdAccepted()
    ensures LoginIdMatches("user1234")
  {
    LoginIdMatchesIff("user1234");
  }

  lemma LoginIdRejected()
    ensures !LoginIdMatches("user_123")
    ensures !LoginIdMatches("user123")
  {
    LoginIdMatchesIff("user_123");
    LoginIdMatchesIff("user123");
    assert "user_123"[4] == '_';
  }

  lemma EmailIdAccepted()
    ensures EmailIdMatches("a@x.com")
  {
    var s := "a@x.com";
    EmailIdMatchesIff(s);
    assert SoleAtSign(s, 1) && s[2..][1] == '.';
  }

  lemma EmailIdWithoutInnerDotRejected()
    ensures !EmailIdMatches("a@xcom")
    ensures !EmailIdMatches("a@x.")
  {
    EmailIdMatchesIff("a@xcom");
    EmailIdMatchesIff("a@x.");
  }

  lemma EmailIdWithEmptyLocalPartRejected()
    ensures !EmailIdMatches("@x.com")
  {
    EmailIdMatchesIff("@x.com");
  }

  lemma EmailIdWithTwoAtSignsRejected()
    ensures !EmailIdMatches("a@b@x.com")
  {
    var s := "a@b@x.com";
    EmailIdMatchesIff(s);
    assert forall i :: 0 <= i < |s| ==> !SoleAtSign(s, i) by {
      forall i | 0 <= i < |s| ensures !SoleAtSign(s, i) {
        assert s[1] == '@' && s[3] == '@';
      }
    }
  }

  lemma EmailIdWithSpaceRejected()
    ensures !EmailIdMatches("a b@x.com")
  {
    EmailIdMatchesIff("a b@x.com");
    assert IsSpace("a b@x.com"[1]);
  }
}

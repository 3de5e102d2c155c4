/**
 * One validation pass of `createUserSchema`: either the normalised record or the
 * error map the resolver hands to the form, and the properties the schema promises
 * about both.
 */
module Validator {
  import opened Wrappers
  import opened Text
  import opened NameTransform
  import opened Schema
  import opened Issues

  /** `a` and `b` differ at most in the case of ASCII letters. */
  predicate SameIgnoringCase(a: string, b: string) {
    |a| == |b| && forall i :: 0 <= i < |a| ==> LowerChar(a[i]) == LowerChar(b[i])
  }

  /**
   * Validates raw form values; `isEmail` stands for the email syntax check.
   * Success carries the normalised record; failure the first message per path.
   */
  function Validate(x: FormValues, isEmail: string -> bool): (r: Result<CreateUserData, map<Path, string>>)
    ensures r.Success? <==> AllRulesPass(x, isEmail)
    ensures r.Failure? ==> |r.error| > 0
    ensures r.Failure? ==> forall p :: Lookup(r.error, p) == ExpectedError(x, isEmail, p)
    ensures r.Success? ==> |x.avatar| > 0 && r.value.avatar == x.avatar[0]
                           && r.value.avatar.size < AvatarSizeLimit
    ensures r.Success? ==> r.value.name == CapitalizeInitials(Trim(x.name))
    ensures r.Success? ==> IsLowerCase(r.value.email) && EndsWith(r.value.email, RequiredEmailSuffix)
                           && SameIgnoringCase(r.value.email, x.email)
    ensures r.Success? ==> r.value.password == x.password && r.value.confirmPassword == x.confirmPassword
                           && r.value.password == r.value.confirmPassword
                           && MinLength(r.value.password, MinPasswordLength)
    ensures r.Success? ==> r.value.skills == x.skills && |r.value.skills| >= MinSkills
                           && forall i :: 0 <= i < |x.skills| ==> SkillValid(x.skills[i])
  {
    var issues := SchemaIssues(x, isEmail);
    ErrorMapMatchesRules(x, isEmail);
    NoIssuesIffNoMessages(issues);
    AllRulesPassIffNoError(x, isEmail);
    if issues == [] then
      assert ExpectedError(x, isEmail, AvatarField) == None;
      Success(CreateUserData(x.avatar[0], NormalizeName(x.name), ToLower(x.email),
                             x.password, x.confirmPassword, x.skills))
    else
      var m := ErrorMap(issues);
      assert Lookup(m, issues[0].path).Some?;
      Failure(m)
  }

  /** The error map's entry at `p`, or nothing when validation succeeded. */
  function ErrorAt(r: Result<CreateUserData, map<Path, string>>, p: Path): Option<string> {
    if r.Success? then None else Lookup(r.error, p)
  }

  /** Every path's entry is the expected first failing rule, whichever way validation went. */
  lemma ErrorAtMatchesRules(x: FormValues, isEmail: string -> bool, p: Path)
    ensures ErrorAt(Validate(x, isEmail), p) == ExpectedError(x, isEmail, p)
  {
    if Validate(x, isEmail).Success? {
      AllRulesPassIffNoError(x, isEmail);
    }
  }

  /** The avatar is the list's first file; an empty list or a file of 5 MiB or more is refused. */
  lemma AvatarRule(x: FormValues, isEmail: string -> bool)
    ensures ErrorAt(Validate(x, isEmail), AvatarField) ==
            (if |x.avatar| > 0 && x.avatar[0].size < 5 * 1024 * 1024 then None
             else Some("File size must be less than 5MB"))
  {
    ErrorAtMatchesRules(x, isEmail, AvatarField);
  }

  /** An empty name is refused with "Name is required", and nothing else is. */
  lemma NameRule(x: FormValues, isEmail: string -> bool)
    ensures ErrorAt(Validate(x, isEmail), NameField) ==
            (if x.name == "" then Some("Name is required") else None)
  {
    ErrorAtMatchesRules(x, isEmail, NameField);
  }

  /**
   * The non-empty rule looks at the raw name, so a name made only of whitespace
   * passes it and is normalised to the empty string.
   */
  lemma BlankNameAccepted(x: FormValues, isEmail: string -> bool)
    requires x.name != "" && forall i :: 0 <= i < |x.name| ==> IsWhite(x.name[i])
    ensures ErrorAt(Validate(x, isEmail), NameField) == None
    ensures Validate(x, isEmail).Success? ==> Validate(x, isEmail).value.name == ""
  {
    NameRule(x, isEmail);
    TrimAllWhite(x.name);
  }

  /**
   * The email rules in order: non-empty, well-formed, then, on the lower-cased value,
   * ending in "@gov.pt".
   */
  lemma EmailRule(x: FormValues, isEmail: string -> bool)
    ensures ErrorAt(Validate(x, isEmail), EmailField) ==
            (if x.email == "" then Some("Email is required")
             else if !isEmail(x.email) then Some("Email must be a valid email address")
             else if !EndsWith(ToLower(x.email), "@gov.pt") then Some("Email must be a .gov.pt email address")
             else None)
  {
    ErrorAtMatchesRules(x, isEmail, EmailField);
  }

  /** A password or confirmation under 6 UTF-16 units is refused with its own message. */
  lemma PasswordLengthRules(x: FormValues, isEmail: string -> bool)
    ensures ErrorAt(Validate(x, isEmail), PasswordField) ==
            (if Utf16Length(x.password) < 6 then Some("Password must be at least 6 characters") else None)
    ensures Utf16Length(x.confirmPassword) < 6 ==>
            ErrorAt(Validate(x, isEmail), ConfirmPasswordField) == Some("Confirm Password must be at least 6 characters")
  {
    ErrorAtMatchesRules(x, isEmail, PasswordField);
    ErrorAtMatchesRules(x, isEmail, ConfirmPasswordField);
  }

  /**
   * The cross-field rule: differing passwords put "The passwords did not match" on
   * `confirmPassword` unless its own length rule already failed; equal ones add nothing.
   */
  lemma PasswordMatchRule(x: FormValues, isEmail: string -> bool)
    requires MinLength(x.confirmPassword, 6)
    ensures ErrorAt(Validate(x, isEmail), ConfirmPasswordField) ==
            (if x.password != x.confirmPassword then Some("The passwords did not match") else None)
    ensures ErrorAt(Validate(x, isEmail), PasswordField) ==
            (if Utf16Length(x.password) < 6 then Some("Password must be at least 6 characters") else None)
  {
    ErrorAtMatchesRules(x, isEmail, ConfirmPasswordField);
    ErrorAtMatchesRules(x, isEmail, PasswordField);
  }

  /**
   * When every other rule holds, a mismatch is the one and only error: the map holds
   * exactly the entry `confirmPassword` -> "The passwords did not match".
   */
  lemma MismatchIsSoleError(x: FormValues, isEmail: string -> bool)
    requires AllRulesPass(x.(confirmPassword := x.password), isEmail)
    requires MinLength(x.confirmPassword, MinPasswordLength)
    requires x.password != x.confirmPassword
    ensures Validate(x, isEmail) == Failure(map[ConfirmPasswordField := "The passwords did not match"])
  {
    var r := Validate(x, isEmail);
    assert r.Failure?;
    var y := x.(confirmPassword := x.password);
    AllRulesPassIffNoError(y, isEmail);
    forall p
      ensures ExpectedError(x, isEmail, p) == (if p == ConfirmPasswordField then Some(PasswordsDiffer) else None)
    {
      assert ExpectedError(y, isEmail, p) == None;
    }
    var want := map[ConfirmPasswordField := PasswordsDiffer];
    assert r.error.Keys == want.Keys by {
      forall p
        ensures p in r.error <==> p in want
      {
        assert Lookup(r.error, p) == ExpectedError(x, isEmail, p);
      }
    }
    assert Lookup(r.error, ConfirmPasswordField) == Some(PasswordsDiffer);
    assert r.error == want;
  }

  /** Fewer than two rows are refused with "You must have at least 2 skills". */
  lemma SkillCountRule(x: FormValues, isEmail: string -> bool)
    ensures ErrorAt(Validate(x, isEmail), SkillsField) ==
            (if |x.skills| < 2 then Some("You must have at least 2 skills") else None)
  {
    ErrorAtMatchesRules(x, isEmail, SkillsField);
  }

  /**
   * Each row is judged on its own: an empty name is reported at its name, a level
   * below 1 or above 5 at its level, and a valid row reports nothing, whatever the
   * other rows hold. Paths past the end of the list carry nothing.
   */
  lemma SkillRowRules(x: FormValues, isEmail: string -> bool, i: nat)
    ensures i < |x.skills| ==>
              ErrorAt(Validate(x, isEmail), SkillName(i)) ==
              (if x.skills[i].name == "" then Some("Skill name is required") else None)
    ensures i < |x.skills| ==>
              ErrorAt(Validate(x, isEmail), SkillLevel(i)) ==
              (if x.skills[i].level < 1 then Some("Skill level must be at least 1")
               else if x.skills[i].level > 5 then Some("Skill level must be at most 5")
               else None)
    ensures i >= |x.skills| ==>
              && ErrorAt(Validate(x, isEmail), SkillName(i)) == None
              && ErrorAt(Validate(x, isEmail), SkillLevel(i)) == None
  {
    RowNameEntry(x, isEmail, i);
    RowLevelEntry(x, isEmail, i);
  }

  /** The entry at row `i`'s name is that row's name rule, and nothing past the end. */
  lemma RowNameEntry(x: FormValues, isEmail: string -> bool, i: nat)
    ensures ErrorAt(Validate(x, isEmail), SkillName(i)) ==
            (if i < |x.skills| then SkillNameRule(x.skills[i]) else None)
  {
    ErrorAtMatchesRules(x, isEmail, SkillName(i));
  }

  /** The entry at row `i`'s level is that row's level rule, and nothing past the end. */
  lemma RowLevelEntry(x: FormValues, isEmail: string -> bool, i: nat)
    ensures ErrorAt(Validate(x, isEmail), SkillLevel(i)) ==
            (if i < |x.skills| then SkillLevelRule(x.skills[i]) else None)
  {
    ErrorAtMatchesRules(x, isEmail, SkillLevel(i));
  }

  /** The raw values a normalised record would submit again: its file as a one-file list. */
  function Resubmission(d: CreateUserData): (x: FormValues)
    ensures FirstFile(x.avatar) == Some(d.avatar)
  {
    FormValues([d.avatar], d.name, d.email, d.password, d.confirmPassword, d.skills)
  }

  /**
   * Validating a normalised record again returns the same record exactly when its
   * name is not empty (a blank name normalises to "" and is then refused) and its
   * lower-cased email still passes the syntax check.
   */
  lemma RevalidationIsIdentity(x: FormValues, isEmail: string -> bool)
    requires AllRulesPass(x, isEmail)
    ensures var d := Validate(x, isEmail).value;
            Validate(Resubmission(d), isEmail) == Success(d) <==> d.name != "" && isEmail(d.email)
  {
    var d := Validate(x, isEmail).value;
    var y := Resubmission(d);
    if d.name != "" && isEmail(d.email) {
      ToLowerFixpoint(d.email);
      assert AllRulesPass(y, isEmail);
      NormalizeNameIdempotent(x.name);
      assert NormalizeName(d.name) == d.name;
    }
  }
}

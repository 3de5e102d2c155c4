/**
 * The registration form's data model and the rules `createUserSchema` declares,
 * stated field by field as "the message of the first rule that fails".
 */
module Schema {
  import opened Wrappers
  import opened Text

  /** A selected file: its name and its size in bytes. */
  datatype File = File(name: string, size: nat)

  /** One row of the skills list. */
  datatype Skill = Skill(name: string, level: int)

  /** The raw form values handed to the schema; `avatar` is the file input's `FileList`. */
  datatype FormValues = FormValues(
    avatar: seq<File>,
    name: string,
    email: string,
    password: string,
    confirmPassword: string,
    skills: seq<Skill>)

  /** The normalised record a successful validation produces. */
  datatype CreateUserData = CreateUserData(
    avatar: File,
    name: string,
    email: string,
    password: string,
    confirmPassword: string,
    skills: seq<Skill>)

  /** Where an error is reported: a top-level field, or a sub-field of one skills row. */
  datatype Path =
    | AvatarField
    | NameField
    | EmailField
    | PasswordField
    | ConfirmPasswordField
    | SkillsField
    | SkillName(index: nat)
    | SkillLevel(index: nat)

  const AvatarSizeLimit: nat := 5 * 1024 * 1024
  const MinPasswordLength: nat := 6
  const MinSkills: nat := 2
  const MinSkillLevel: int := 1
  const MaxSkillLevel: int := 5
  const RequiredEmailSuffix: string := "@gov.pt"

  const AvatarTooLarge: string := "File size must be less than 5MB"
  const NameRequired: string := "Name is required"
  const EmailRequired: string := "Email is required"
  const EmailInvalid: string := "Email must be a valid email address"
  const EmailNotGov: string := "Email must be a .gov.pt email address"
  const PasswordTooShort: string := "Password must be at least 6 characters"
  const ConfirmPasswordTooShort: string := "Confirm Password must be at least 6 characters"
  const SkillNameRequired: string := "Skill name is required"
  const SkillLevelTooLow: string := "Skill level must be at least 1"
  const SkillLevelTooHigh: string := "Skill level must be at most 5"
  const TooFewSkills: string := "You must have at least 2 skills"
  const PasswordsDiffer: string := "The passwords did not match"

  /** `list.item(0)`: the first file, or nothing for an empty list. */
  function FirstFile(files: seq<File>): (f: Option<File>)
    ensures f.Some? <==> |files| > 0
    ensures f.Some? ==> f.value == files[0]
  {
    if |files| == 0 then None else Some(files[0])
  }

  /** `file?.size < limit`: a missing file compares as `undefined < limit`, which is false. */
  predicate AvatarAccepted(file: Option<File>) {
    file.Some? && file.value.size < AvatarSizeLimit
  }

  /** The avatar is accepted exactly when the list has a first file smaller than 5 MiB. */
  lemma AvatarAcceptedIff(files: seq<File>)
    ensures AvatarAccepted(FirstFile(files)) <==> |files| > 0 && files[0].size < 5 * 1024 * 1024
  {
  }

  /** The rules of one skills row, first failing message of its name. */
  function SkillNameRule(s: Skill): Option<string> {
    if s.name == "" then Some(SkillNameRequired) else None
  }

  /** The rules of one skills row, first failing message of its level. */
  function SkillLevelRule(s: Skill): Option<string> {
    if s.level < MinSkillLevel then Some(SkillLevelTooLow)
    else if s.level > MaxSkillLevel then Some(SkillLevelTooHigh)
    else None
  }

  /** A skills row every rule accepts. */
  predicate SkillValid(s: Skill) {
    s.name != "" && MinSkillLevel <= s.level <= MaxSkillLevel
  }

  /** The messages the schema can report at path `p`: those of the rules declared for that field. */
  function MessagesAt(p: Path): set<string> {
    match p
    case AvatarField => {AvatarTooLarge}
    case NameField => {NameRequired}
    case EmailField => {EmailRequired, EmailInvalid, EmailNotGov}
    case PasswordField => {PasswordTooShort}
    case ConfirmPasswordField => {ConfirmPasswordTooShort, PasswordsDiffer}
    case SkillsField => {TooFewSkills}
    case SkillName(_) => {SkillNameRequired}
    case SkillLevel(_) => {SkillLevelTooLow, SkillLevelTooHigh}
  }

  /**
   * The message each path should carry: the first failing rule of that field, in the
   * order the schema declares them, and for `confirmPassword` the cross-field
   * mismatch when its own length rule passed.
   */
  function ExpectedError(x: FormValues, isEmail: string -> bool, p: Path): (r: Option<string>)
    ensures r.Some? ==> r.value in MessagesAt(p)
    ensures (p.SkillName? || p.SkillLevel?) && p.index >= |x.skills| ==> r.None?
  {
    match p
    case AvatarField =>
      if AvatarAccepted(FirstFile(x.avatar)) then None else Some(AvatarTooLarge)
    case NameField =>
      if x.name == "" then Some(NameRequired) else None
    case EmailField =>
      if x.email == "" then Some(EmailRequired)
      else if !isEmail(x.email) then Some(EmailInvalid)
      else if !EndsWith(ToLower(x.email), RequiredEmailSuffix) then Some(EmailNotGov)
      else None
    case PasswordField =>
      if Utf16Length(x.password) < MinPasswordLength then Some(PasswordTooShort) else None
    case ConfirmPasswordField =>
      if Utf16Length(x.confirmPassword) < MinPasswordLength then Some(ConfirmPasswordTooShort)
      else if x.password != x.confirmPassword then Some(PasswordsDiffer)
      else None
    case SkillsField =>
      if |x.skills| < MinSkills then Some(TooFewSkills) else None
    case SkillName(i) =>
      if i < |x.skills| then SkillNameRule(x.skills[i]) else None
    case SkillLevel(i) =>
      if i < |x.skills| then SkillLevelRule(x.skills[i]) else None
  }

  /** Every field rule and the password-match rule hold. */
  predicate AllRulesPass(x: FormValues, isEmail: string -> bool) {
    && AvatarAccepted(FirstFile(x.avatar))
    && x.name != ""
    && x.email != "" && isEmail(x.email) && EndsWith(ToLower(x.email), RequiredEmailSuffix)
    && MinLength(x.password, MinPasswordLength)
    && MinLength(x.confirmPassword, MinPasswordLength)
    && x.password == x.confirmPassword
    && |x.skills| >= MinSkills
    && forall i :: 0 <= i < |x.skills| ==> SkillValid(x.skills[i])
  }

  /** All rules pass exactly when no path expects an error. */
  lemma AllRulesPassIffNoError(x: FormValues, isEmail: string -> bool)
    ensures AllRulesPass(x, isEmail) <==> forall p :: ExpectedError(x, isEmail, p) == None
  {
    if forall p :: ExpectedError(x, isEmail, p) == None {
      assert ExpectedError(x, isEmail, AvatarField) == None;
      assert ExpectedError(x, isEmail, NameField) == None;
      assert ExpectedError(x, isEmail, EmailField) == None;
      assert ExpectedError(x, isEmail, PasswordField) == None;
      assert ExpectedError(x, isEmail, ConfirmPasswordField) == None;
      assert ExpectedError(x, isEmail, SkillsField) == None;
      forall i | 0 <= i < |x.skills|
        ensures SkillValid(x.skills[i])
      {
        assert ExpectedError(x, isEmail, SkillName(i)) == None;
        assert ExpectedError(x, isEmail, SkillLevel(i)) == None;
      }
    }
  }
}

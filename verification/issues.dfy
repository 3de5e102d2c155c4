/**
 * How the schema reports problems: every failing check of a field emits an issue
 * (string and number checks do not stop at the first failure, and a refinement runs
 * on a value that already failed a check), the password-match refinement emits its
 * issue after all field issues, and the resolver keeps, for each path, the message of
 * the first issue reported there.
 */
module Issues {
  import opened Wrappers
  import opened Text
  import opened Schema

  /** One reported problem: where, and what to show. */
  datatype Issue = Issue(path: Path, message: string)

  /** A check that emits `message` at `path` when it fails. */
  function Check(ok: bool, path: Path, message: string): (r: seq<Issue>)
    ensures |r| <= 1
    ensures r == [] <==> ok
    ensures forall k :: 0 <= k < |r| ==> r[k] == Issue(path, message)
  {
    if ok then [] else [Issue(path, message)]
  }

  /** `z.instanceof(FileList).transform(list => list.item(0)!).refine(size < 5MB)`. */
  function AvatarIssues(files: seq<File>): (r: seq<Issue>)
    ensures |r| <= 1
    ensures r == [] <==> |files| > 0 && files[0].size < AvatarSizeLimit
    ensures forall k :: 0 <= k < |r| ==> r[k] == Issue(AvatarField, AvatarTooLarge)
  {
    AvatarAcceptedIff(files);
    Check(AvatarAccepted(FirstFile(files)), AvatarField, AvatarTooLarge)
  }

  /** `z.string().nonempty(...)`; the transform runs only on an accepted name. */
  function NameIssues(name: string): (r: seq<Issue>)
    ensures |r| <= 1
    ensures r == [] <==> name != ""
    ensures forall k :: 0 <= k < |r| ==> r[k] == Issue(NameField, NameRequired)
  {
    NonemptyIffNotEmpty(name);
    Check(MinLength(name, 1), NameField, NameRequired)
  }

  /**
   * `nonempty`, `email` and `toLowerCase` are checks of one string schema and all run;
   * the `.gov.pt` refinement then runs on the lower-cased value.
   */
  function EmailIssues(email: string, isEmail: string -> bool): (r: seq<Issue>)
    ensures |r| <= 3
    ensures r == [] <==> email != "" && isEmail(email) && EndsWith(ToLower(email), RequiredEmailSuffix)
    ensures forall k :: 0 <= k < |r| ==> r[k].path == EmailField
  {
    NonemptyIffNotEmpty(email);
    Check(MinLength(email, 1), EmailField, EmailRequired)
    + Check(isEmail(email), EmailField, EmailInvalid)
    + Check(EndsWith(ToLower(email), RequiredEmailSuffix), EmailField, EmailNotGov)
  }

  function PasswordIssues(password: string): (r: seq<Issue>)
    ensures |r| <= 1
    ensures r == [] <==> Utf16Length(password) >= MinPasswordLength
    ensures forall k :: 0 <= k < |r| ==> r[k] == Issue(PasswordField, PasswordTooShort)
  {
    Check(MinLength(password, MinPasswordLength), PasswordField, PasswordTooShort)
  }

  function ConfirmPasswordIssues(confirmPassword: string): (r: seq<Issue>)
    ensures |r| <= 1
    ensures r == [] <==> Utf16Length(confirmPassword) >= MinPasswordLength
    ensures forall k :: 0 <= k < |r| ==> r[k] == Issue(ConfirmPasswordField, ConfirmPasswordTooShort)
  {
    Check(MinLength(confirmPassword, MinPasswordLength), ConfirmPasswordField, ConfirmPasswordTooShort)
  }

  /** The checks of row `i`: its name, then both bounds of its level. */
  function SkillRowIssues(s: Skill, i: nat): (r: seq<Issue>)
    ensures |r| <= 2
    ensures r == [] <==> SkillValid(s)
    ensures forall k :: 0 <= k < |r| ==> r[k].path == SkillName(i) || r[k].path == SkillLevel(i)
  {
    NonemptyIffNotEmpty(s.name);
    Check(MinLength(s.name, 1), SkillName(i), SkillNameRequired)
    + Check(s.level >= MinSkillLevel, SkillLevel(i), SkillLevelTooLow)
    + Check(s.level <= MaxSkillLevel, SkillLevel(i), SkillLevelTooHigh)
  }

  /** The checks of every row, numbering rows from `start`. */
  function SkillRowsIssues(skills: seq<Skill>, start: nat): (r: seq<Issue>)
    ensures r == [] <==> forall j :: 0 <= j < |skills| ==> SkillValid(skills[j])
    ensures forall k :: 0 <= k < |r| ==> RowPath(r[k].path, start, |skills|)
    decreases |skills|
  {
    if |skills| == 0 then []
    else
      var head := SkillRowIssues(skills[0], start);
      var tail := SkillRowsIssues(skills[1..], start + 1);
      var r := head + tail;
      assert r == [] <==> forall j :: 0 <= j < |skills| ==> SkillValid(skills[j]) by {
        assert forall j :: 1 <= j < |skills| ==> skills[j] == skills[1..][j - 1];
      }
      assert forall k :: 0 <= k < |r| ==> RowPath(r[k].path, start, |skills|) by {
        forall k | 0 <= k < |r|
          ensures RowPath(r[k].path, start, |skills|)
        {
          if k >= |head| {
            assert r[k] == tail[k - |head|];
          }
        }
      }
      r
  }

  /** `p` is the name or level path of one of the `count` rows numbered from `start`. */
  predicate RowPath(p: Path, start: nat, count: nat) {
    (p.SkillName? || p.SkillLevel?) && start <= p.index < start + count
  }

  /** The array's own `min(2)` runs first, then every row is checked regardless. */
  function SkillsIssues(skills: seq<Skill>): (r: seq<Issue>)
    ensures r == [] <==> |skills| >= MinSkills && forall j :: 0 <= j < |skills| ==> SkillValid(skills[j])
    ensures forall k :: 0 <= k < |r| ==> r[k].path == SkillsField || RowPath(r[k].path, 0, |skills|)
  {
    Check(|skills| >= MinSkills, SkillsField, TooFewSkills) + SkillRowsIssues(skills, 0)
  }

  /** The `superRefine`: one issue at `confirmPassword` when the passwords differ, none otherwise. */
  function PasswordMatchIssues(password: string, confirmPassword: string): (r: seq<Issue>)
    ensures |r| == (if password == confirmPassword then 0 else 1)
    ensures forall k :: 0 <= k < |r| ==> r[k] == Issue(ConfirmPasswordField, PasswordsDiffer)
  {
    if password != confirmPassword then [Issue(ConfirmPasswordField, PasswordsDiffer)] else []
  }

  /**
   * Every issue of one validation pass, in schema order: field by field, then the
   * password-match refinement. Only the order of the issues at one path matters to
   * the error map, and that order is the order of the field's checks.
   */
  function SchemaIssues(x: FormValues, isEmail: string -> bool): (r: seq<Issue>)
    ensures r == [] <==> AllRulesPass(x, isEmail)
  {
    AvatarIssues(x.avatar)
    + NameIssues(x.name)
    + EmailIssues(x.email, isEmail)
    + PasswordIssues(x.password)
    + ConfirmPasswordIssues(x.confirmPassword)
    + SkillsIssues(x.skills)
    + PasswordMatchIssues(x.password, x.confirmPassword)
  }

  /** The message of the first issue reported at `p`, if any. */
  function FirstMessage(issues: seq<Issue>, p: Path): (r: Option<string>)
    ensures r.None? <==> forall k :: 0 <= k < |issues| ==> issues[k].path != p
    ensures r.Some? ==> exists k :: 0 <= k < |issues| && issues[k] == Issue(p, r.value)
                            && forall j :: 0 <= j < k ==> issues[j].path != p
  {
    if |issues| == 0 then None
    else if issues[0].path == p then Some(issues[0].message)
    else
      var r := FirstMessage(issues[1..], p);
      assert forall k :: 1 <= k < |issues| ==> issues[k] == issues[1..][k - 1];
      r
  }

  /** `a` if it holds a value, `b` otherwise. */
  function OrElse<T>(a: Option<T>, b: Option<T>): Option<T> {
    if a.Some? then a else b
  }

  /** The first issue at `p` in `a + b` is the first in `a`, or failing that the first in `b`. */
  lemma {:induction false} FirstMessageAppend(a: seq<Issue>, b: seq<Issue>, p: Path)
    ensures FirstMessage(a + b, p) == OrElse(FirstMessage(a, p), FirstMessage(b, p))
    decreases |a|
  {
    if |a| > 0 {
      assert (a + b)[1..] == a[1..] + b;
      FirstMessageAppend(a[1..], b, p);
    } else {
      assert a + b == b;
    }
  }

  /**
   * The error map: one entry per path that has an issue, holding the first message
   * reported there; later issues at the same path never replace it.
   */
  function ErrorMap(issues: seq<Issue>): (m: map<Path, string>)
    ensures forall p :: Lookup(m, p) == FirstMessage(issues, p)
  {
    if |issues| == 0 then map[]
    else
      var m := ErrorMap(issues[1..]);
      m[issues[0].path := issues[0].message]
  }

  /** No issue at all exactly when no path has a first message. */
  lemma NoIssuesIffNoMessages(issues: seq<Issue>)
    ensures issues == [] <==> forall p :: FirstMessage(issues, p) == None
  {
    if issues != [] {
      assert FirstMessage(issues, issues[0].path).Some?;
    }
  }

  /** A single check reports its message at its own path when it fails, and nothing else. */
  lemma CheckMessage(ok: bool, path: Path, message: string, p: Path)
    ensures FirstMessage(Check(ok, path, message), p) ==
            (if !ok && p == path then Some(message) else None)
  {
  }

  /** What row `i`'s checks should report at `p`. */
  function RowRule(s: Skill, i: nat, p: Path): Option<string> {
    if p == SkillName(i) then SkillNameRule(s)
    else if p == SkillLevel(i) then SkillLevelRule(s)
    else None
  }

  /** Reading the message at `p` off one row's checks. */
  lemma SkillRowMessage(s: Skill, i: nat, p: Path)
    ensures FirstMessage(SkillRowIssues(s, i), p) == RowRule(s, i, p)
  {
    var a := Check(MinLength(s.name, 1), SkillName(i), SkillNameRequired);
    var b := Check(s.level >= MinSkillLevel, SkillLevel(i), SkillLevelTooLow);
    var c := Check(s.level <= MaxSkillLevel, SkillLevel(i), SkillLevelTooHigh);
    FirstMessageAppend(a + b, c, p);
    FirstMessageAppend(a, b, p);
    CheckMessage(MinLength(s.name, 1), SkillName(i), SkillNameRequired, p);
    CheckMessage(s.level >= MinSkillLevel, SkillLevel(i), SkillLevelTooLow, p);
    CheckMessage(s.level <= MaxSkillLevel, SkillLevel(i), SkillLevelTooHigh, p);
    NonemptyIffNotEmpty(s.name);
  }

  /** What the rows' checks should report at `p`, rows numbered from `start`. */
  function RowsRule(skills: seq<Skill>, start: nat, p: Path): Option<string> {
    match p
    case SkillName(i) =>
      if start <= i < start + |skills| then SkillNameRule(skills[i - start]) else None
    case SkillLevel(i) =>
      if start <= i < start + |skills| then SkillLevelRule(skills[i - start]) else None
    case _ => None
  }

  /** The rows' expectation splits into the first row's and the remaining rows'. */
  lemma RowsRuleStep(skills: seq<Skill>, start: nat, p: Path)
    requires |skills| > 0
    ensures RowsRule(skills, start, p) ==
            OrElse(RowRule(skills[0], start, p), RowsRule(skills[1..], start + 1, p))
  {
    match p
    case SkillName(i) =>
      if start + 1 <= i < start + |skills| {
        assert skills[1..][i - (start + 1)] == skills[i - start];
      }
    case SkillLevel(i) =>
      if start + 1 <= i < start + |skills| {
        assert skills[1..][i - (start + 1)] == skills[i - start];
      }
    case _ =>
  }

  /** The rows' checks report, at each row's paths, exactly that row's first failing rule. */
  lemma {:induction false} SkillRowsMessage(skills: seq<Skill>, start: nat, p: Path)
    ensures FirstMessage(SkillRowsIssues(skills, start), p) == RowsRule(skills, start, p)
    decreases |skills|
  {
    if |skills| > 0 {
      FirstMessageAppend(SkillRowIssues(skills[0], start), SkillRowsIssues(skills[1..], start + 1), p);
      SkillRowMessage(skills[0], start, p);
      SkillRowsMessage(skills[1..], start + 1, p);
      RowsRuleStep(skills, start, p);
    }
  }

  /** The email checks report the first failing one of non-empty, well-formed, `.gov.pt`. */
  lemma EmailMessage(x: FormValues, isEmail: string -> bool, p: Path)
    ensures FirstMessage(EmailIssues(x.email, isEmail), p) ==
            (if p == EmailField then ExpectedError(x, isEmail, EmailField) else None)
  {
    var a := Check(MinLength(x.email, 1), EmailField, EmailRequired);
    var b := Check(isEmail(x.email), EmailField, EmailInvalid);
    var c := Check(EndsWith(ToLower(x.email), RequiredEmailSuffix), EmailField, EmailNotGov);
    FirstMessageAppend(a + b, c, p);
    FirstMessageAppend(a, b, p);
  }

  /**
   * What the checks of the five plain fields report at `p`: each field's first failing
   * rule, where the confirmation's own rule is only its length.
   */
  function FieldsRule(x: FormValues, isEmail: string -> bool, p: Path): Option<string> {
    match p
    case ConfirmPasswordField =>
      if Utf16Length(x.confirmPassword) < MinPasswordLength then Some(ConfirmPasswordTooShort) else None
    case SkillsField => None
    case SkillName(_) => None
    case SkillLevel(_) => None
    case _ => ExpectedError(x, isEmail, p)
  }

  /** The avatar, name and email checks report their own field's first failing rule. */
  lemma FrontMessage(x: FormValues, isEmail: string -> bool, p: Path)
    ensures FirstMessage(AvatarIssues(x.avatar) + NameIssues(x.name) + EmailIssues(x.email, isEmail), p) ==
            (if p == AvatarField || p == NameField || p == EmailField then ExpectedError(x, isEmail, p) else None)
  {
    var a := AvatarIssues(x.avatar);
    var n := NameIssues(x.name);
    FirstMessageAppend(a + n, EmailIssues(x.email, isEmail), p);
    FirstMessageAppend(a, n, p);
    EmailMessage(x, isEmail, p);
    NonemptyIffNotEmpty(x.name);
  }

  /** The checks of the five plain fields, in order, report `FieldsRule`. */
  lemma FieldsMessage(x: FormValues, isEmail: string -> bool, p: Path)
    ensures FirstMessage(AvatarIssues(x.avatar) + NameIssues(x.name) + EmailIssues(x.email, isEmail)
                         + PasswordIssues(x.password) + ConfirmPasswordIssues(x.confirmPassword), p) ==
            FieldsRule(x, isEmail, p)
  {
    var f := AvatarIssues(x.avatar) + NameIssues(x.name) + EmailIssues(x.email, isEmail);
    var pw := PasswordIssues(x.password);
    FirstMessageAppend(f + pw, ConfirmPasswordIssues(x.confirmPassword), p);
    FirstMessageAppend(f, pw, p);
    FrontMessage(x, isEmail, p);
  }

  /** The skills checks report the count rule at the array and each row's rule at its paths. */
  lemma SkillsMessage(skills: seq<Skill>, p: Path)
    ensures FirstMessage(SkillsIssues(skills), p) == SkillsRule(skills, p)
  {
    var sizeCheck := Check(|skills| >= MinSkills, SkillsField, TooFewSkills);
    FirstMessageAppend(sizeCheck, SkillRowsIssues(skills, 0), p);
    SkillRowsMessage(skills, 0, p);
  }

  /** What the skills checks report at `p`: the count rule at the array, each row's rules at its paths. */
  function SkillsRule(skills: seq<Skill>, p: Path): Option<string> {
    if p == SkillsField then (if |skills| < MinSkills then Some(TooFewSkills) else None)
    else RowsRule(skills, 0, p)
  }

  /** What the password-match refinement reports at `p`. */
  function MatchRule(x: FormValues, p: Path): Option<string> {
    if p == ConfirmPasswordField && x.password != x.confirmPassword then Some(PasswordsDiffer) else None
  }

  /** The refinement reports the mismatch at the confirmation and nothing elsewhere. */
  lemma MatchMessage(x: FormValues, p: Path)
    ensures FirstMessage(PasswordMatchIssues(x.password, x.confirmPassword), p) == MatchRule(x, p)
  {
  }

  /**
   * The field rules, then the skills rules, then the match rule, taking the first
   * message at each path, give the field's first failing rule.
   */
  lemma CombinedRules(x: FormValues, isEmail: string -> bool, p: Path)
    ensures OrElse(OrElse(FieldsRule(x, isEmail, p), SkillsRule(x.skills, p)), MatchRule(x, p)) ==
            ExpectedError(x, isEmail, p)
  {
  }

  /**
   * The first message of every path, read off the whole issue list, is the first
   * failing rule of that field: per-field order is kept and fields never interfere,
   * except that a too-short confirmation hides the mismatch reported after it.
   */
  lemma SchemaMessage(x: FormValues, isEmail: string -> bool, p: Path)
    ensures FirstMessage(SchemaIssues(x, isEmail), p) == ExpectedError(x, isEmail, p)
  {
    var f := AvatarIssues(x.avatar) + NameIssues(x.name) + EmailIssues(x.email, isEmail)
             + PasswordIssues(x.password) + ConfirmPasswordIssues(x.confirmPassword);
    var s := SkillsIssues(x.skills);
    var m := PasswordMatchIssues(x.password, x.confirmPassword);
    assert SchemaIssues(x, isEmail) == f + s + m;
    FirstMessageAppend(f + s, m, p);
    FirstMessageAppend(f, s, p);
    FieldsMessage(x, isEmail, p);
    SkillsMessage(x.skills, p);
    MatchMessage(x, p);
    CombinedRules(x, isEmail, p);
  }

  /** Lifts `SchemaMessage` to every path of the error map. */
  lemma ErrorMapMatchesRules(x: FormValues, isEmail: string -> bool)
    ensures forall p :: Lookup(ErrorMap(SchemaIssues(x, isEmail)), p) == ExpectedError(x, isEmail, p)
  {
    forall p {
      SchemaMessage(x, isEmail, p);
    }
  }
}

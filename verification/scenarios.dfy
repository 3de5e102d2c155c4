/** Concrete inputs and what one validation pass makes of them. */
module Scenarios {
  import opened Wrappers
  import opened Text
  import opened NameTransform
  import opened Schema
  import opened Validator

  /** A trimmed name is only capitalised. */
  lemma NormalizeTrimmed(t: string)
    requires IsTrimmed(t)
    ensures NormalizeName(t) == CapitalizeInitials(t)
  {
    TrimFixpoint(t);
  }

  /** A name of two space-separated words has both words capitalised. */
  lemma TwoWords(a: string, b: string)
    requires ' ' !in a && ' ' !in b
    requires |a| > 0 && |b| > 0 && !IsWhite(a[0]) && !IsWhite(b[|b| - 1])
    ensures NormalizeName(a + " " + b) == CapitalizeWord(a) + " " + CapitalizeWord(b)
  {
    var t := a + " " + b;
    assert t[0] == a[0] && t[|t| - 1] == b[|b| - 1];
    NormalizeTrimmed(t);
    InitialsAtFirstSpace(a, b);
    InitialsOfOneWord(b);
  }

  /** A name of one word, with no space and no surrounding whitespace, has its first character capitalised. */
  lemma OneWord(w: string)
    requires ' ' !in w
    requires |w| > 0 && !IsWhite(w[0]) && !IsWhite(w[|w| - 1])
    ensures NormalizeName(w) == CapitalizeWord(w)
  {
    NormalizeTrimmed(w);
    InitialsOfOneWord(w);
  }

  // The lemmas named `...Words`, `...Word` and `...Pieces` below state one literal
  // equality each. They keep a literal string apart from `NormalizeName` and
  // `ToLower`, so the verifier does not unfold those functions on it.

  /** Capitalising "john" and "smith" separately, then joining them. */
  lemma JohnSmithWords()
    ensures CapitalizeWord("john") + " " + CapitalizeWord("smith") == "John Smith"
  {
  }

  /** "john smith" becomes "John Smith". */
  lemma JohnSmith()
    ensures NormalizeName("john smith") == "John Smith"
  {
    assert "john smith" == "john" + " " + "smith";
    TwoWords("john", "smith");
    JohnSmithWords();
  }

  /** Capitalising "maria" and "silva" separately, then joining them. */
  lemma MariaSilvaWords()
    ensures CapitalizeWord("maria") + " " + CapitalizeWord("silva") == "Maria Silva"
  {
  }

  /** "maria silva" becomes "Maria Silva". */
  lemma MariaSilva()
    ensures NormalizeName("maria silva") == "Maria Silva"
  {
    assert "maria silva" == "maria" + " " + "silva";
    TwoWords("maria", "silva");
    MariaSilvaWords();
  }

  /** Capitalising the single word "joHN". */
  lemma MixedCaseWord()
    ensures CapitalizeWord("joHN") == "JoHN"
  {
  }

  /** Only the first character is forced upper-case: "joHN" becomes "JoHN". */
  lemma MixedCaseKept()
    ensures NormalizeName("joHN") == "JoHN"
  {
    OneWord("joHN");
    MixedCaseWord();
  }

  /** A leading space is kept and the word after it is capitalised. */
  lemma InitialsAfterSpace(b: string)
    ensures CapitalizeInitials([' '] + b) == [' '] + CapitalizeInitials(b)
  {
    var e: string := [];
    assert [' '] + b == e + [' '] + b;
    InitialsAtFirstSpace(e, b);
  }

  /** Capitalising the initials of two words separated by two spaces. */
  lemma InitialsDoubleSpace(a: string, b: string)
    requires ' ' !in a && ' ' !in b
    ensures CapitalizeInitials(a + "  " + b) == CapitalizeWord(a) + "  " + CapitalizeWord(b)
  {
    var r := [' '] + b;
    assert a + "  " + b == a + [' '] + r;
    InitialsAtFirstSpace(a, r);
    InitialsAfterSpace(b);
    InitialsOfOneWord(b);
  }

  /** Two words separated by two spaces keep both spaces and have both words capitalised. */
  lemma TwoWordsDoubleSpace(a: string, b: string)
    requires ' ' !in a && ' ' !in b
    requires |a| > 0 && |b| > 0 && !IsWhite(a[0]) && !IsWhite(b[|b| - 1])
    ensures NormalizeName(a + "  " + b) == CapitalizeWord(a) + "  " + CapitalizeWord(b)
  {
    var t := a + "  " + b;
    assert t[0] == a[0] && t[|t| - 1] == b[|b| - 1];
    NormalizeTrimmed(t);
    InitialsDoubleSpace(a, b);
  }

  /** Capitalising "ana" and "lee" separately, then joining them with two spaces. */
  lemma AnaLeeWords()
    ensures CapitalizeWord("ana") + "  " + CapitalizeWord("lee") == "Ana  Lee"
  {
  }

  /** The split is on single spaces, so a run of spaces inside a name survives. */
  lemma InnerSpacesKept()
    ensures NormalizeName("ana  lee") == "Ana  Lee"
  {
    assert "ana  lee" == "ana" + "  " + "lee";
    TwoWordsDoubleSpace("ana", "lee");
    AnaLeeWords();
  }

  /** Lower-casing a literal, checked character by character. */
  lemma LowerByChars(s: string, t: string)
    requires |s| == |t| && forall i :: 0 <= i < |s| ==> LowerChar(s[i]) == t[i]
    ensures ToLower(s) == t
  {
  }

  lemma LowerGovDomain()
    ensures ToLower("@GOV.PT") == "@gov.pt"
  {
    LowerByChars("@GOV.PT", "@gov.pt");
  }

  /** Lower-casing happens before the suffix check, so "USER@GOV.PT" has the required domain. */
  lemma UpperCaseDomainAccepted()
    ensures EndsWith(ToLower("USER@GOV.PT"), "@gov.pt")
  {
    LowerEndsWith("USER@GOV.PT", "@gov.pt");
    assert "USER@GOV.PT"[4..] == "@GOV.PT";
    LowerGovDomain();
  }

  /** "user@other.pt" does not end in "@gov.pt", in any case. */
  lemma OtherDomainRefused()
    ensures !EndsWith(ToLower("user@other.pt"), "@gov.pt")
  {
    LowerEndsWith("user@other.pt", "@gov.pt");
    var tail := "user@other.pt"[6..];
    assert tail[0] == 't';
    assert ToLower(tail)[0] == 't';
  }

  /** Two valid skills rows. */
  const SampleSkills: seq<Skill> := [Skill("go", 3), Skill("sql", 4)]

  /** A complete submission whose every rule passes when the confirmation is "secret1". */
  function SampleForm(confirmPassword: string): FormValues {
    FormValues([File("pic.png", 2048)], "maria silva", "Maria@GOV.PT", "secret1", confirmPassword, SampleSkills)
  }

  lemma SecretLength(s: string)
    requires s == "secret1" || s == "secret2"
    ensures Utf16Length(s) == 7
  {
    assert forall i :: 0 <= i < |s| ==> s[i] <= '\U{FFFF}';
  }

  /** Lower-casing the sample email's name part. */
  lemma MariaLower()
    ensures ToLower("Maria") == "maria"
  {
    LowerByChars("Maria", "maria");
  }

  /** Lower-casing a concatenation from the lower-cased pieces. */
  lemma LowerConcat(a: string, b: string, la: string, lb: string)
    requires ToLower(a) == la && ToLower(b) == lb
    ensures ToLower(a + b) == la + lb
  {
    ToLowerAppend(a, b);
  }

  /** The sample email and its lower-cased form, each split into name and domain. */
  lemma SampleEmailPieces()
    ensures "Maria" + "@GOV.PT" == "Maria@GOV.PT"
    ensures "maria" + "@gov.pt" == "maria@gov.pt"
  {
  }

  lemma SampleEmailLower()
    ensures ToLower("Maria@GOV.PT") == "maria@gov.pt"
  {
    MariaLower();
    LowerGovDomain();
    LowerConcat("Maria", "@GOV.PT", "maria", "@gov.pt");
    SampleEmailPieces();
  }

  lemma SampleEmailSuffix()
    ensures EndsWith("maria@gov.pt", RequiredEmailSuffix)
  {
    assert "maria@gov.pt"[5..] == "@gov.pt";
  }

  /** The sample email lower-cases to "maria@gov.pt", which has the required domain. */
  lemma SampleEmail()
    ensures ToLower("Maria@GOV.PT") == "maria@gov.pt"
    ensures EndsWith(ToLower("Maria@GOV.PT"), RequiredEmailSuffix)
  {
    SampleEmailLower();
    SampleEmailSuffix();
  }

  lemma SampleSkillsValid()
    ensures forall i :: 0 <= i < |SampleSkills| ==> SkillValid(SampleSkills[i])
  {
    assert SkillValid(SampleSkills[0]) && SkillValid(SampleSkills[1]);
  }

  /** Every rule but the password match holds of the sample form. */
  lemma SampleFieldsPass(isEmail: string -> bool, confirmPassword: string)
    requires isEmail("Maria@GOV.PT")
    requires confirmPassword == "secret1" || confirmPassword == "secret2"
    ensures AllRulesPass(SampleForm(confirmPassword).(confirmPassword := "secret1"), isEmail)
    ensures MinLength(confirmPassword, MinPasswordLength)
  {
    SecretLength("secret1");
    SecretLength(confirmPassword);
    SampleEmail();
    SampleSkillsValid();
  }

  /** The happy path: the name is capitalised, the email lower-cased, the rest kept. */
  lemma AcceptedSubmission(isEmail: string -> bool)
    requires isEmail("Maria@GOV.PT")
    ensures Validate(SampleForm("secret1"), isEmail) ==
            Success(CreateUserData(File("pic.png", 2048), "Maria Silva", "maria@gov.pt",
                                   "secret1", "secret1", SampleSkills))
  {
    SampleFieldsPass(isEmail, "secret1");
    assert SampleForm("secret1").(confirmPassword := "secret1") == SampleForm("secret1");
    MariaSilva();
    SampleEmail();
  }

  /** Differing passwords: exactly one error, on the confirmation, and no record. */
  lemma RejectedMismatch(isEmail: string -> bool)
    requires isEmail("Maria@GOV.PT")
    ensures Validate(SampleForm("secret2"), isEmail) == Failure(map[ConfirmPasswordField := "The passwords did not match"])
  {
    var x := SampleForm("secret2");
    SampleFieldsPass(isEmail, "secret2");
    assert x.(confirmPassword := x.password) == SampleForm("secret2").(confirmPassword := "secret1");
    MismatchIsSoleError(x, isEmail);
  }
}

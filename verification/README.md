# Registration form validation, modelled in Dafny

The application is a registration form: avatar, name, email, password, its
confirmation, and a list of skills. Its only logic is the zod schema
`createUserSchema`, which the form runs on submit through `zodResolver`, and the
"Add" button's `addNewSkill`. This project models one validation pass as a pure
function.

`Validator.Validate` takes the raw form values. It returns either the normalised
record or the map from field path to error message that the resolver hands to the
form. It is modelled in three layers:

- **Field rules** (`Schema`): the size limit, lengths and level bounds, plus the
  messages written in the schema.
  - `ExpectedError` states, for each path, the message of the first rule that fails there.
- **Issue reporting** (`Issues`): the issues zod emits, in schema order
  (`SchemaIssues`). Only the order of the issues at one path matters to the map,
  and that order is the order of the field's checks.
  - Every string and number check runs, and a refinement also runs on a value
    that already failed a check.
  - The array's `min(2)` runs before its rows are checked.
  - The `superRefine` password check comes last.
  - The resolver keeps the first message reported at each path (`ErrorMap`).
  - `SchemaMessage` proves that this issue list yields exactly `ExpectedError` at every path.
- **String primitives** (`Text`, `NameTransform`): `trim`, `split(' ')`,
  `join(' ')`, `toLowerCase`, `toLocaleUpperCase` of one character, `endsWith`,
  and JavaScript's UTF-16 `length`.
  - Every name transformation is proved equal to `CapitalizeInitials`, a
    position-by-position reference definition: a character is upper-cased when it
    starts the trimmed name or follows a space.

`SkillRows.AddNewSkill` models the "Add" button. `Scenarios` works through
concrete submissions.

zod's email regular expression is library code, so every member that needs it
takes it as a parameter `isEmail: string -> bool`.

Two points about how the schema runs:

- zod ignores the value a `superRefine` callback returns, so the `return false` at
  src/App.tsx:47 reports nothing. An issue is added exactly when the passwords
  differ (src/App.tsx:38-47).
- zod runs every check of a field, and the resolver keeps the first message per
  path. So each path shows its field's first failing rule (`Issues.SchemaMessage`).

## Model

| member | source | states |
|---|---|---|
| Validator.Validate | src/App.tsx:11-48 | Succeeds exactly when every field rule and the password match hold. On failure the map is non-empty and holds at every path the first failing rule's message. On success the record holds: the first file, under 5 MiB; the name with initials capitalised after trimming; an all-lowercase email ending in "@gov.pt" that equals the input up to ASCII case; both passwords unchanged, equal and at least 6 long; the skills unchanged, at least 2, every row valid. |
| Validator.ErrorAtMatchesRules | src/App.tsx:11-48 | Whether validation succeeded or failed, the message shown at any path is the first failing rule of that field. |
| Validator.AvatarRule | src/App.tsx:12-14 | The avatar field has no error exactly when the list has a first file whose size is strictly below 5*1024*1024. Otherwise, including an empty list, the error is "File size must be less than 5MB". |
| Schema.AvatarAcceptedIff | src/App.tsx:13-14 | `file?.size < limit` on `item(0)` holds exactly when the list is non-empty and its first file is smaller than 5 MiB. |
| Schema.AvatarAccepted | src/App.tsx:14 | The size refinement: a present file strictly smaller than 5*1024*1024 bytes. A missing file fails, as `undefined < limit` is false. |
| Issues.AvatarIssues | src/App.tsx:12-14 | No issue exactly when the list's first file exists and is under the limit; otherwise one issue, at the avatar, with "File size must be less than 5MB". |
| Schema.FirstFile | src/App.tsx:13 | `item(0)` yields a file exactly when the list is non-empty, and then it is the first one. |
| Validator.NameRule | src/App.tsx:15-16 | The name field reports "Name is required" exactly when the raw name is empty, and nothing otherwise. |
| Issues.NameIssues | src/App.tsx:15-16 | No issue exactly when the raw name is non-empty; otherwise one issue, at the name, with "Name is required". |
| Validator.BlankNameAccepted | src/App.tsx:16-20 | A non-empty name made only of whitespace passes the non-empty rule; if the submission is accepted, its normalised name is "". |
| NameTransform.NormalizeName | src/App.tsx:17-20 | Trim, split on single spaces, capitalise each piece and join equals the reference: the trimmed name with each character upper-cased at its start or after a space. The length equals the trimmed input's length. |
| NameTransform.CapitalizeWord | src/App.tsx:19 | `word.charAt(0).toLocaleUpperCase().concat(word.slice(1))`: same length, the first character upper-cased, every other character kept. |
| NameTransform.CapitalizeWords | src/App.tsx:18-20 | The `map` over the pieces: one output per piece, and each is that piece capitalised. |
| NameTransform.CapitalizeInitials | src/App.tsx:17-20 | The reference definition of the name transform on a trimmed string. It keeps the length; a character is upper-cased exactly when it is first or follows a space. |
| NameTransform.CapitalizeMatchesInitials | src/App.tsx:18-20 | For any string, split on ' ', capitalise the first character of each piece, and join with ' ' equals the position-by-position reference definition. |
| NameTransform.InitialsAtFirstSpace | src/App.tsx:18-20 | Splitting at the first space: the reference transform of `w + " " + rest` is the capitalised `w`, the space, and the transform of `rest`. |
| NameTransform.InitialsOfOneWord | src/App.tsx:19 | Without a space, only the first character is upper-cased. |
| NameTransform.NormalizeNameIdempotent | src/App.tsx:17-20 | Normalising an already normalised name returns it unchanged. |
| NameTransform.InitialsIdempotent | src/App.tsx:17-20 | Capitalising initials a second time changes nothing. |
| NameTransform.InitialsKeepTrimmed | src/App.tsx:18-19 | Capitalising the initials of a trimmed string leaves no leading or trailing whitespace. |
| NameTransform.InitialsKeepSpaces | src/App.tsx:18-20 | The transform neither adds nor removes spaces: position i is a space in the output exactly when it is one in the input. |
| NameTransform.InitialsStartUpper | src/App.tsx:19 | In the output, no piece's first character is a small ASCII letter. |
| NameTransform.NormalizeNameShape | src/App.tsx:17-20 | The normalised name is as long as the trimmed input and is itself trimmed. Spaces stay in place, each character is the input's or its upper-case form, and no piece starts with a small letter. |
| Text.IsWhite | src/App.tsx:18 | The characters `trim` removes: JavaScript's WhiteSpace and LineTerminator code points, U+2000 to U+200A included. |
| Text.Trim | src/App.tsx:18 | `trim` returns a string with no whitespace at either end, never longer than the input. |
| Text.TrimIsSlice | src/App.tsx:18 | `trim` returns a contiguous slice of its input; everything cut before and after it is whitespace. |
| Text.TrimFixpoint | src/App.tsx:18 | `trim` changes a string exactly when the string starts or ends with whitespace. |
| Text.TrimAllWhite | src/App.tsx:16-18 | Trimming a string made only of whitespace yields the empty string. |
| Text.Split | src/App.tsx:18 | `split(' ')` returns at least one piece, no piece contains a space, and joining the pieces with ' ' gives back the input. |
| Text.Join | src/App.tsx:20 | `join(' ')`: the pieces in order, with one separator between neighbours and none at either end. |
| Text.SplitJoin | src/App.tsx:18-20 | For pieces without spaces, splitting their join on ' ' returns exactly those pieces. |
| Text.IndexOf | src/App.tsx:18 | The index returned holds the separator, and no earlier position does. |
| Validator.EmailRule | src/App.tsx:22-28 | The email field reports, in order: "Email is required" for an empty email, "Email must be a valid email address" when the syntax check fails, and "Email must be a .gov.pt email address" when the lower-cased email does not end in "@gov.pt"; otherwise nothing. |
| Issues.EmailIssues | src/App.tsx:22-28 | The three email checks all run and report only at the email path, at most three issues. There is no issue exactly when the email is non-empty, passes the syntax check, and ends in "@gov.pt" once lower-cased. |
| Issues.EmailMessage | src/App.tsx:22-28 | The three email checks, all run, report at the email path the first that fails, and nothing at any other path. |
| Text.UpperChar | src/App.tsx:19 | ASCII `toLocaleUpperCase` of one character: a small letter becomes its capital, 32 code points lower; anything else is kept; the result is never a small letter. |
| Text.LowerChar | src/App.tsx:25 | ASCII `toLowerCase` of one character: a capital becomes its small letter, 32 code points higher; anything else is kept; the result is never a capital. |
| Text.EndsWith | src/App.tsx:27 | `endsWith`: the suffix is no longer than the string and equals its last characters. |
| Text.ToLower | src/App.tsx:25 | `toLowerCase` keeps the length, leaves no ASCII capital, and maps each character independently. |
| Text.ToLowerAppend | src/App.tsx:25 | Lower-casing distributes over concatenation. |
| Text.ToLowerFixpoint | src/App.tsx:25 | Lower-casing changes a string exactly when it contains an ASCII capital. |
| Text.ToLowerIdempotent | src/App.tsx:25 | Lower-casing twice is lower-casing once. |
| Text.LowerEndsWith | src/App.tsx:25-27 | Whether the lower-cased email ends with the suffix depends only on its last characters, lower-cased. |
| Scenarios.UpperCaseDomainAccepted | src/App.tsx:25-27 | "USER@GOV.PT" ends in "@gov.pt" once lower-cased. |
| Scenarios.OtherDomainRefused | src/App.tsx:25-27 | "user@other.pt" does not end in "@gov.pt" once lower-cased. |
| Text.Utf16Length | src/App.tsx:29-32 | JavaScript's `length` lies between the number of code points and twice that number. It equals the number of code points exactly when no character lies outside the Basic Multilingual Plane. |
| Text.MinLength | src/App.tsx:29-32 | zod's `min(n)` on a string (and `nonempty`, its `min(1)`): at least `n` UTF-16 code units. |
| Text.NonemptyIffNotEmpty | src/App.tsx:16 | `nonempty` (a minimum length of one UTF-16 unit) holds exactly when the string is not empty. |
| Issues.PasswordIssues | src/App.tsx:29-30 | No issue exactly when the password has at least 6 UTF-16 units; otherwise one issue, at the password, with "Password must be at least 6 characters". |
| Issues.ConfirmPasswordIssues | src/App.tsx:31-32 | No issue exactly when the confirmation has at least 6 UTF-16 units; otherwise one issue, at the confirmation, with "Confirm Password must be at least 6 characters". |
| Validator.PasswordLengthRules | src/App.tsx:29-32 | A password under 6 UTF-16 units gets "Password must be at least 6 characters", and nothing otherwise. A confirmation under 6 units gets "Confirm Password must be at least 6 characters". |
| Validator.PasswordMatchRule | src/App.tsx:38-47 | With a confirmation of the required length, "The passwords did not match" appears at confirmPassword exactly when the passwords differ. The password field's own message is unaffected. |
| Issues.PasswordMatchIssues | src/App.tsx:38-47 | The refinement adds one issue, at confirmPassword with "The passwords did not match", when the passwords differ, and none when they are equal. |
| Issues.MatchMessage | src/App.tsx:38-47 | The refinement's first message is the mismatch at confirmPassword when the passwords differ, and nothing at any other path. |
| Validator.MismatchIsSoleError | src/App.tsx:38-47 | When every other rule holds and the passwords differ, the error map is exactly { confirmPassword: "The passwords did not match" }. |
| Scenarios.RejectedMismatch | src/App.tsx:38-47 | A complete valid submission with confirmation "secret2" is refused with only the mismatch message. |
| Validator.SkillCountRule | src/App.tsx:36 | Fewer than two rows gives "You must have at least 2 skills" at the skills path, and nothing otherwise. |
| Validator.SkillRowRules | src/App.tsx:33-36 | Each row is judged on its own. An empty name gives "Skill name is required" at its name. A level below 1 or above 5 gives the min or max message at its level. Paths past the end carry nothing. |
| Validator.RowNameEntry | src/App.tsx:34 | The entry at row i's name is that row's name rule, and nothing for a row past the end. |
| Validator.RowLevelEntry | src/App.tsx:35 | The entry at row i's level is that row's level rule, and nothing for a row past the end. |
| Issues.SkillRowIssues | src/App.tsx:34-35 | One row's checks report only at that row's name and level, at most two issues (a level cannot be both below 1 and above 5). There is no issue exactly when the row is valid. |
| Issues.SkillRowsIssues | src/App.tsx:33-35 | Every row is checked. The issues fall only on the rows' own paths, and there are none exactly when every row is valid. |
| Issues.SkillsIssues | src/App.tsx:33-36 | The count check and every row's checks. The issues fall only at the skills path or the rows' paths, and there are none exactly when there are at least two rows and all are valid. |
| Issues.SkillRowsMessage | src/App.tsx:33-35 | The checks of all rows report, at each row's paths, that row's first failing rule, and nothing at any other path. |
| Issues.SkillRowMessage | src/App.tsx:34-35 | One row's three checks report its name rule at its name and its level bounds, in order, at its level. |
| Issues.SkillsMessage | src/App.tsx:33-36 | The array's length check reports at the skills path only; the rows report at their own paths. |
| Issues.FrontMessage | src/App.tsx:12-28 | The avatar, name and email checks report each field's own first failing rule and never at another path. |
| Issues.FieldsMessage | src/App.tsx:12-32 | The five plain fields' checks report each field's first failing rule. For the confirmation that is its length rule only. |
| Issues.SchemaIssues | src/App.tsx:11-48 | The issues of one pass in schema order: the fields, then the password-match refinement. There are none exactly when every rule holds. |
| Issues.CombinedRules | src/App.tsx:11-48 | Taking the first message of the plain fields' rules, then the skills rules, then the match rule, at each path, gives that path's expected error. |
| Issues.SchemaMessage | src/App.tsx:11-48 | Read off the whole issue list, the first message at each path is that field's first failing rule. A too-short confirmation hides a mismatch reported after it. |
| Issues.FirstMessageAppend | src/App.tsx:11-48 | In an issue list made of two parts, the first message at a path comes from the first part if it has one there, otherwise from the second. |
| Issues.FirstMessage | src/App.tsx:11-48 | There is no message at a path exactly when no issue is reported there. Otherwise the message is that of the earliest issue at the path. |
| Issues.ErrorMap | src/App.tsx:56 | The resolver's error map holds, at each path, exactly the first message reported there. |
| Issues.NoIssuesIffNoMessages | src/App.tsx:56 | The map is empty exactly when no issue was reported. |
| Issues.ErrorMapMatchesRules | src/App.tsx:11-56 | The error map built from the schema's issues gives every path its field's first failing rule. |
| Schema.ExpectedError | src/App.tsx:11-48 | The first failing rule per path, field by field in the schema's order; the confirmation's length rule comes before the mismatch. Each path carries only one of its own field's messages, and a row past the end carries nothing. |
| Schema.AllRulesPass | src/App.tsx:11-48 | Every field rule and the password match hold: an acceptable first file, non-empty name, a well-formed "@gov.pt" email, passwords of at least 6 units that are equal, and at least two valid rows. |
| Schema.AllRulesPassIffNoError | src/App.tsx:11-48 | Every rule holds exactly when no path expects an error. |
| Validator.RevalidationIsIdentity | src/App.tsx:11-48 | Submitting an accepted record again returns the same record exactly when its normalised name is non-empty and its lower-cased email still passes the syntax check. |
| SkillRows.AddNewSkill | src/App.tsx:73-78 | The list grows by one, the existing rows are kept in order, and the new last row has an empty name and level 1. |
| SkillRows.NewRowNeedsName | src/App.tsx:73-78 | After "Add", submission fails. The new row reports "Skill name is required" at its name and nothing at its level, and every earlier row reports what it reported before. |
| SkillRows.AddingRowsReachesCount | src/App.tsx:36 | A one-row list is refused for its count; after one "Add" the count rule no longer fires. |
| Scenarios.TwoWords | src/App.tsx:17-20 | A two-word name separated by one space has both words capitalised. |
| Scenarios.OneWord | src/App.tsx:17-20 | A one-word name has only its first character capitalised. |
| Scenarios.TwoWordsDoubleSpace | src/App.tsx:17-20 | Two spaces between two words are both kept, because the split is on single spaces. |
| Scenarios.JohnSmith | src/App.tsx:17-20 | "john smith" becomes "John Smith". |
| Scenarios.MariaSilva | src/App.tsx:17-20 | "maria silva" becomes "Maria Silva". |
| Scenarios.MixedCaseKept | src/App.tsx:19 | "joHN" becomes "JoHN": only the first character is touched. |
| Scenarios.InnerSpacesKept | src/App.tsx:18-20 | "ana  lee" becomes "Ana  Lee". |
| Scenarios.AcceptedSubmission | src/App.tsx:11-48 | A complete valid submission yields the record with "Maria Silva" and "maria@gov.pt", with the file, passwords and skills as given. |

## Left out

- The Supabase upload and client in `createUser` (src/App.tsx:80-83, src/lib/supabase.ts): network I/O and environment variables.
- The `JSON.stringify` display of the record (src/App.tsx:82): output formatting.
- The JSX, the `Input`, `Label` and `ErrorMessage` components, and react-hook-form registration. The model stops at the path-to-message map that the resolver hands to the form.
- Displaying the row messages: the map holds a message for `skills.${index}.name` and `skills.${index}.level` (src/App.tsx:160, 168). The resolver nests its errors by path, but `ErrorMessage` looks them up with the flat key `errors?.[field]` (src/components/Form/ErrorMessage.tsx:9). So these messages are computed but not shown, and the model does not cover the display.
- `remove(index)` of `useFieldArray` (src/App.tsx:173): library bookkeeping. Only the append of `addNewSkill` is modelled.
- `z.instanceof(FileList)` (src/App.tsx:12): the avatar is typed as a list of files, so the type-mismatch failure cannot arise.
- `z.coerce.number()` (src/App.tsx:35): a level is an integer, so text that coerces to a fraction or to NaN is not modelled.
- Email syntax: zod's email regular expression is library code, so it is the parameter `isEmail`.
- Case mapping: `toLocaleUpperCase` and `toLowerCase` are ASCII-only; locale and non-ASCII letters are not modelled.
- Validator.RevalidationIsIdentity: validation is not idempotent for every accepted record. A whitespace-only name normalises to "" and is then refused, and the syntax check may judge the lower-cased email differently. The lemma states exactly when it is idempotent.
- Validator.PasswordLengthRules: for a confirmation of 6 or more units, the confirmPassword entry is stated by Validator.PasswordMatchRule instead, because that entry also depends on the mismatch.

/**
 * The instructor record edited by the Instructor Management screen, the per-field
 * edits the form applies to its draft, and the client-side validation rules.
 */
module InstructorModel {
  import opened Wrappers
  import opened Text

  /** One row of the `instructors` table; `id` is absent until the row is persisted. */
  datatype Instructor = Instructor(
    id: Option<string>,
    name: string,
    bio: string,
    email: string,
    phone: string,
    specialties: seq<string>,
    experienceYears: int,
    certification: string,
    avatarUrl: string,
    isActive: bool)

  /** The empty draft the form starts from and is reset to. */
  const BlankDraft := Instructor(None, "", "", "", "", [], 0, "", "", true)

  // ---------------------------------------------------------------------------
  // Field access by name, as the form addresses the draft (`formData[field]`)

  /** The value held under one property of the record. */
  datatype FieldValue =
    | IdValue(id: Option<string>)
    | TextValue(text: string)
    | TagsValue(tags: seq<string>)
    | NumberValue(number: int)
    | FlagValue(flag: bool)

  /** The property names of the record, as the source spells them. */
  const FieldKeys: set<string> := {"id", "name", "bio", "email", "phone", "specialties",
                                   "experience_years", "certification", "avatar_url", "is_active"}

  /** `d[key]`: the record's property named `key`, absent for a name it does not have. */
  function Get(d: Instructor, key: string): (v: Option<FieldValue>)
    ensures v.Some? <==> key in FieldKeys
  {
    if key == "id" then Some(IdValue(d.id))
    else if key == "name" then Some(TextValue(d.name))
    else if key == "bio" then Some(TextValue(d.bio))
    else if key == "email" then Some(TextValue(d.email))
    else if key == "phone" then Some(TextValue(d.phone))
    else if key == "specialties" then Some(TagsValue(d.specialties))
    else if key == "experience_years" then Some(NumberValue(d.experienceYears))
    else if key == "certification" then Some(TextValue(d.certification))
    else if key == "avatar_url" then Some(TextValue(d.avatarUrl))
    else if key == "is_active" then Some(FlagValue(d.isActive))
    else None
  }

  /** Two records that agree on every property are the same record. */
  lemma GetDeterminesRecord(a: Instructor, b: Instructor)
    requires forall k :: k in FieldKeys ==> Get(a, k) == Get(b, k)
    ensures a == b
  {
    assert Get(a, "id") == Get(b, "id");
    assert Get(a, "name") == Get(b, "name");
    assert Get(a, "bio") == Get(b, "bio");
    assert Get(a, "email") == Get(b, "email");
    assert Get(a, "phone") == Get(b, "phone");
    assert Get(a, "specialties") == Get(b, "specialties");
    assert Get(a, "experience_years") == Get(b, "experience_years");
    assert Get(a, "certification") == Get(b, "certification");
    assert Get(a, "avatar_url") == Get(b, "avatar_url");
    assert Get(a, "is_active") == Get(b, "is_active");
  }

  /** The edits the form's inputs make through `handleInputChange(field, value)`. */
  datatype FieldEdit =
    | SetName(text: string)
    | SetEmail(text: string)
    | SetPhone(text: string)
    | SetExperienceYears(years: int)
    | SetBio(text: string)
    | SetCertification(text: string)
    | SetAvatarUrl(text: string)
    | SetIsActive(active: bool)

  /** The property name an edit writes, which is also the key of that field's error. */
  function EditKey(e: FieldEdit): (key: string)
    ensures key in FieldKeys && key != "id" && key != "specialties"
  {
    match e
    case SetName(_) => "name"
    case SetEmail(_) => "email"
    case SetPhone(_) => "phone"
    case SetExperienceYears(_) => "experience_years"
    case SetBio(_) => "bio"
    case SetCertification(_) => "certification"
    case SetAvatarUrl(_) => "avatar_url"
    case SetIsActive(_) => "is_active"
  }

  /** The value an edit writes. */
  function EditValue(e: FieldEdit): FieldValue {
    match e
    case SetName(t) => TextValue(t)
    case SetEmail(t) => TextValue(t)
    case SetPhone(t) => TextValue(t)
    case SetExperienceYears(n) => NumberValue(n)
    case SetBio(t) => TextValue(t)
    case SetCertification(t) => TextValue(t)
    case SetAvatarUrl(t) => TextValue(t)
    case SetIsActive(b) => FlagValue(b)
  }

  /** `{ ...d, [field]: value }`: the edited property takes the new value, every other one is kept. */
  function ApplyEdit(d: Instructor, e: FieldEdit): (r: Instructor)
    ensures Get(r, EditKey(e)) == Some(EditValue(e))
    ensures forall k :: k != EditKey(e) ==> Get(r, k) == Get(d, k)
  {
    match e
    case SetName(t) => d.(name := t)
    case SetEmail(t) => d.(email := t)
    case SetPhone(t) => d.(phone := t)
    case SetExperienceYears(n) => d.(experienceYears := n)
    case SetBio(t) => d.(bio := t)
    case SetCertification(t) => d.(certification := t)
    case SetAvatarUrl(t) => d.(avatarUrl := t)
    case SetIsActive(b) => d.(isActive := b)
  }

  /**
   * The error map after an edit of the field `key`: a truthy (non-empty) message under
   * `key` is replaced by '' (the key stays); every other entry, and a missing or already
   * empty entry under `key`, is left as it was.
   */
  function ClearFieldError(errors: map<string, string>, key: string): (r: map<string, string>)
    ensures r.Keys == errors.Keys
    ensures forall k :: k in errors && k != key ==> r[k] == errors[k]
    ensures key in errors ==> r[key] == ""
  {
    if key in errors && errors[key] != "" then errors[key := ""] else errors
  }

  // ---------------------------------------------------------------------------
  // The email rule: `/\S+@\S+\.\S+/.test(email)`, an unanchored search

  /**
   * The substring `s[i..j]` has no whitespace and has the form X@Y.Z with X, Y and Z
   * non-empty (X, Y and Z may themselves hold '@' and '.', which `\S` matches).
   */
  ghost predicate DottedAddressAt(s: string, i: int, j: int) {
    && 0 <= i <= j <= |s|
    && (forall k :: i <= k < j ==> !IsSpace(s[k]))
    && exists b, c :: i < b && b + 1 < c && c + 1 < j && s[b] == '@' && s[c] == '.'
  }

  /** The regular expression finds a match somewhere in `s`. */
  ghost predicate MatchesEmailPattern(s: string) {
    exists i, j :: DottedAddressAt(s, i, j)
  }

  /**
   * The test as a computation: an '@' at `b` and a later '.' at `c`, with at least one
   * character between them, and no whitespace from the character before the '@' to the
   * character after the '.'.
   */
  predicate EmailShapeOk(s: string) {
    exists b, c :: 1 <= b && b + 2 <= c < |s| - 1 && s[b] == '@' && s[c] == '.' &&
      NoSpaceIn(s, b - 1, c + 2)
  }

  /** No character of `s[lo..hi]` is whitespace. */
  predicate NoSpaceIn(s: string, lo: int, hi: int)
    requires 0 <= lo <= hi <= |s|
  {
    forall k :: lo <= k < hi ==> !IsSpace(s[k])
  }

  /** The computed test agrees with the regular expression's meaning, both ways. */
  lemma EmailShapeOkIffPattern(s: string)
    ensures EmailShapeOk(s) <==> MatchesEmailPattern(s)
  {
    if EmailShapeOk(s) {
      ShapeGivesMatch(s);
    }
    if MatchesEmailPattern(s) {
      MatchGivesShape(s);
    }
  }

  /** The '@' and '.' the computed test finds delimit a match of the pattern. */
  lemma ShapeGivesMatch(s: string)
    requires EmailShapeOk(s)
    ensures MatchesEmailPattern(s)
  {
    var b, c :| 1 <= b && b + 2 <= c < |s| - 1 && s[b] == '@' && s[c] == '.' &&
      NoSpaceIn(s, b - 1, c + 2);
    assert DottedAddressAt(s, b - 1, c + 2);
  }

  /** A match of the pattern gives the positions the computed test looks for. */
  lemma MatchGivesShape(s: string)
    requires MatchesEmailPattern(s)
    ensures EmailShapeOk(s)
  {
    var i, j :| DottedAddressAt(s, i, j);
    var b, c :| i < b && b + 1 < c && c + 1 < j && s[b] == '@' && s[c] == '.';
    assert NoSpaceIn(s, b - 1, c + 2);
  }

  /** An address the pattern matches has a non-whitespace character. */
  lemma PatternMatchIsNotBlank(s: string)
    ensures MatchesEmailPattern(s) ==> !AllSpace(s)
  {
    if MatchesEmailPattern(s) {
      var i, j :| DottedAddressAt(s, i, j);
      var b, c :| i < b && b + 1 < c && c + 1 < j && s[b] == '@' && s[c] == '.';
      assert !IsSpace(s[b]);
    }
  }

  // ---------------------------------------------------------------------------
  // validateForm

  const NameRequired := "Name is required"
  const EmailRequired := "Email is required"
  const EmailInvalid := "Invalid email format"
  const BioRequired := "Bio is required"
  const ExperienceNegative := "Experience years cannot be negative"
  const SpecialtiesRequired := "At least one specialty is required"

  /** The only keys validation can put into the error map. */
  const ValidatedKeys: set<string> := {"name", "email", "bio", "experience_years", "specialties"}

  /** The message, if any, that the rule for the field `key` gives the draft `d`. */
  function FieldError(d: Instructor, key: string): Option<string> {
    if key == "name" then (if Trim(d.name) == "" then Some(NameRequired) else None)
    else if key == "email" then
      (if Trim(d.email) == "" then Some(EmailRequired)
       else if !EmailShapeOk(d.email) then Some(EmailInvalid)
       else None)
    else if key == "bio" then (if Trim(d.bio) == "" then Some(BioRequired) else None)
    else if key == "experience_years" then
      (if d.experienceYears < 0 then Some(ExperienceNegative) else None)
    else if key == "specialties" then
      (if |d.specialties| == 0 then Some(SpecialtiesRequired) else None)
    else None
  }

  /**
   * The error map `validateForm` builds for the draft `d`: one entry per broken rule and
   * nothing else. Email has two tiers with at most one message: 'Email is required' for an
   * all-whitespace address, otherwise 'Invalid email format' when the pattern does not match.
   */
  function FormErrors(d: Instructor): (errs: map<string, string>)
    ensures errs.Keys <= ValidatedKeys
    ensures ("name" in errs) == AllSpace(d.name)
    ensures "name" in errs ==> errs["name"] == NameRequired
    ensures ("email" in errs) == !MatchesEmailPattern(d.email)
    ensures "email" in errs ==> errs["email"] == (if AllSpace(d.email) then EmailRequired else EmailInvalid)
    ensures ("bio" in errs) == AllSpace(d.bio)
    ensures "bio" in errs ==> errs["bio"] == BioRequired
    ensures ("experience_years" in errs) == (d.experienceYears < 0)
    ensures "experience_years" in errs ==> errs["experience_years"] == ExperienceNegative
    ensures ("specialties" in errs) == (d.specialties == [])
    ensures "specialties" in errs ==> errs["specialties"] == SpecialtiesRequired
  {
    EmailShapeOkIffPattern(d.email);
    PatternMatchIsNotBlank(d.email);
    map k | k in ValidatedKeys && FieldError(d, k).Some? :: FieldError(d, k).value
  }

  /** A map that agrees with every field's rule, and holds nothing else, is `FormErrors(d)`. */
  lemma FormErrorsByField(d: Instructor, m: map<string, string>)
    requires m.Keys <= ValidatedKeys
    requires AgreesWithRule(d, m, "name") && AgreesWithRule(d, m, "email") && AgreesWithRule(d, m, "bio")
    requires AgreesWithRule(d, m, "experience_years") && AgreesWithRule(d, m, "specialties")
    ensures m == FormErrors(d)
  {
    var f := FormErrors(d);
    forall k | k in ValidatedKeys ensures AgreesWithRule(d, m, k) { }
    assert m.Keys == f.Keys;
    forall k | k in m ensures m[k] == f[k] { }
  }

  /** `m` holds the message the rule for `key` gives `d`, and only then holds `key`. */
  predicate AgreesWithRule(d: Instructor, m: map<string, string>, key: string) {
    match FieldError(d, key)
    case None => key !in m
    case Some(msg) => key in m && m[key] == msg
  }

  /** The record invariant the form enforces before a write. */
  ghost predicate ValidDraft(d: Instructor) {
    && !AllSpace(d.name)
    && MatchesEmailPattern(d.email)
    && !AllSpace(d.bio)
    && d.experienceYears >= 0
    && |d.specialties| > 0
  }

  /** `validateForm` returns true exactly when the error map it builds is empty. */
  lemma FormErrorsEmptyIffValid(d: Instructor)
    ensures FormErrors(d) == map[] <==> ValidDraft(d)
  {
    var errs := FormErrors(d);
    if ValidDraft(d) {
      assert errs.Keys == {};
    }
  }

  /** Phone, certification, avatar URL, activation flag and id never affect validation. */
  lemma ValidationIgnoresOptionalFields(d: Instructor, phone: string, certification: string,
                                        avatarUrl: string, isActive: bool, id: Option<string>)
    ensures FormErrors(d.(phone := phone, certification := certification, avatarUrl := avatarUrl,
                          isActive := isActive, id := id)) == FormErrors(d)
  {
    var d' := d.(phone := phone, certification := certification, avatarUrl := avatarUrl,
                 isActive := isActive, id := id);
    forall k ensures FieldError(d', k) == FieldError(d, k) { }
  }

  /** The worked examples of the email rule: one accepted address, three rejected ones. */
  lemma EmailExamples()
    ensures FieldError(BlankDraft.(email := "a@b.co"), "email") == None
    ensures FieldError(BlankDraft.(email := "a@b"), "email") == Some(EmailInvalid)
    ensures FieldError(BlankDraft.(email := "not-an-email"), "email") == Some(EmailInvalid)
    ensures FieldError(BlankDraft.(email := ""), "email") == Some(EmailRequired)
  {
    var ok: string := "a@b.co";
    assert ok[1] == '@' && ok[3] == '.';
    assert EmailShapeOk(ok);
    assert Trim(ok) != "" by { assert !IsSpace(ok[0]); }
    var bad: string := "not-an-email";
    assert forall b | 0 <= b < |bad| :: bad[b] != '@';
    assert Trim(bad) != "" by { assert !IsSpace(bad[0]); }
    assert Trim("a@b") != "" by { assert !IsSpace("a@b"[0]); }
  }

  /** A typical complete draft passes validation. */
  lemma CompleteDraftIsValid()
    ensures FormErrors(Instructor(None, "Jane Doe", "Experienced teacher", "jane@studio.com", "",
                                  ["Hatha Yoga"], 5, "", "", true)) == map[]
  {
    var d := Instructor(None, "Jane Doe", "Experienced teacher", "jane@studio.com", "",
                        ["Hatha Yoga"], 5, "", "", true);
    var email: string := "jane@studio.com";
    assert email[4] == '@' && email[11] == '.';
    assert NoSpaceIn(email, 3, 13);
    assert EmailShapeOk(email);
    ShapeGivesMatch(email);
    assert !IsSpace(d.name[0]) && !IsSpace(d.bio[0]);
    assert ValidDraft(d);
    FormErrorsEmptyIffValid(d);
  }

  /** The blank draft fails on every required field; a negative experience count is reported. */
  lemma BlankDraftErrors()
    ensures FormErrors(BlankDraft).Keys == {"name", "email", "bio", "specialties"}
    ensures FormErrors(BlankDraft.(experienceYears := -1))["experience_years"] == ExperienceNegative
  {
    assert FormErrors(BlankDraft).Keys == {"name", "email", "bio", "specialties"};
  }
}

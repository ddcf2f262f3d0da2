/** The account-editing form: the fields as first shown, the edits the fields accept, the
    validations, when "save" is enabled and the user record it hands back. */
module AccountScreen {
  import opened Wrappers
  import opened Text

  /** The user the screen edits, with the fields the screen reads. */
  datatype AdminUser = AdminUser(name: string, lastName: string, email: string, role: string)

  /** The form's state; `photo` is the picked image, if any. */
  datatype Form = Form(
    name: string,
    email: string,
    username: string,
    phonePrefix: string,
    phone: string,
    password: string,
    photo: Option<string>)

  /** What "save" hands on: the updated user and the fields the user record does not hold. */
  datatype SaveRequest = SaveRequest(
    user: AdminUser,
    photo: Option<string>,
    username: string,
    phonePrefix: string,
    phone: string)

  const DefaultPrefix: string := "+52"
  const MaxPrefixLength: nat := 4
  const MinPasswordLength: nat := 8

  /** The name as the form shows it: first and last name joined by a space, trimmed. */
  function FullName(user: AdminUser): string {
    Trim(user.name + " " + user.lastName)
  }

  function InitialForm(user: AdminUser): (r: Form)
    ensures r.name == FullName(user) && r.email == user.email
    ensures r.username == "" && r.phone == "" && r.password == "" && r.photo.None?
    ensures r.phonePrefix == DefaultPrefix
  {
    Form(FullName(user), user.email, "", DefaultPrefix, "", "", None)
  }

  /** The password is left unchanged (empty) or is at least eight UTF-16 units long: eight
      characters always suffice, fewer than four never do, and within the Basic Multilingual
      Plane characters and units agree. */
  function PassOk(password: string): (r: bool)
    ensures |password| == 0 || |password| >= MinPasswordLength ==> r
    ensures 0 < |password| && 2 * |password| < MinPasswordLength ==> !r
    ensures (forall i :: 0 <= i < |password| ==> password[i] as int <= 0xFFFF) ==>
      (r <==> |password| == 0 || |password| >= MinPasswordLength)
    ensures r <==> |password| == 0 || Utf16Length(password) >= MinPasswordLength
  {
    |password| == 0 || Utf16Length(password) >= MinPasswordLength
  }

  /** The phone is empty or all digits, which is to say that keeping its digits changes nothing. */
  function PhoneOk(phone: string): (r: bool)
    ensures r <==> AllDigits(phone)
    ensures r <==> KeepDigits(phone) == phone
  {
    |phone| == 0 || AllDigits(phone)
  }

  /** `matches` stands for the platform's email address pattern; a blank address never passes,
      whatever the pattern says. */
  function EmailOk(email: string, matches: string -> bool): (r: bool)
    ensures IsBlank(email) ==> !r
    ensures !IsBlank(email) ==> (r <==> matches(email))
  {
    !IsBlank(email) && matches(email)
  }

  /** The prefix field refuses an edit longer than four UTF-16 units. */
  function EditPrefix(current: string, typed: string): (r: string)
    ensures Utf16Length(typed) <= MaxPrefixLength ==> r == typed
    ensures Utf16Length(typed) > MaxPrefixLength ==> r == current
    ensures Utf16Length(current) <= MaxPrefixLength ==> Utf16Length(r) <= MaxPrefixLength
  {
    if Utf16Length(typed) <= MaxPrefixLength then typed else current
  }

  /** Four characters outside the Basic Multilingual Plane are eight UTF-16 units: they pass the
      password check, although the password has only four characters. */
  lemma AstralPasswordPasses()
    ensures var p := "\U{1F600}\U{1F600}\U{1F600}\U{1F600}";
      |p| == 4 && PassOk(p)
  {
    var p := "\U{1F600}\U{1F600}\U{1F600}\U{1F600}";
    assert p[1..][1..][1..][1..] == [];
  }

  /** The phone field keeps only the digits typed, so it always passes its own check. */
  function EditPhone(typed: string): (r: string)
    ensures PhoneOk(r)
    ensures AllDigits(typed) ==> r == typed
    ensures forall c :: c in r <==> c in typed && IsDigit(c)
  {
    KeepDigits(typed)
  }

  /** The phone field keeps the digits in the order typed, repetitions included: typing more
      text appends that text's digits, and one typed character is kept exactly when it is a
      digit. */
  lemma EditPhoneKeepsOrder(a: string, b: string, c: char)
    ensures EditPhone(a + b) == EditPhone(a) + EditPhone(b)
    ensures EditPhone([c]) == (if IsDigit(c) then [c] else [])
  {
    KeepDigitsAppend(a, b);
    KeepDigitsChar(c);
  }

  /** The form as the user would have to open it again: a blank username or phone counts as
      empty, because the screen compares them by blankness. */
  function Normalized(f: Form): Form {
    f.(username := if IsBlank(f.username) then "" else f.username,
       phone := if IsBlank(f.phone) then "" else f.phone)
  }

  /** Something differs from what the screen opened with, and the name is not blank. */
  function HasChanges(user: AdminUser, f: Form): (r: bool)
    ensures r ==> !IsBlank(f.name)
    ensures !IsBlank(f.name) && f.name != FullName(user) ==> r
    ensures !IsBlank(f.name) && f.photo.Some? ==> r
    ensures r ==> f != InitialForm(user)
    ensures !IsBlank(f.name) ==> (r <==> Normalized(f) != InitialForm(user))
  {
    && !IsBlank(f.name)
    && (|| f.name != FullName(user)
        || f.email != user.email
        || !IsBlank(f.username)
        || f.phonePrefix != DefaultPrefix
        || !IsBlank(f.phone)
        || |f.password| > 0
        || f.photo.Some?)
  }

  /** The form as opened has nothing to save. */
  lemma InitialFormUnchanged(user: AdminUser, matches: string -> bool)
    ensures !HasChanges(user, InitialForm(user))
    ensures !CanSave(user, InitialForm(user), matches)
  {
  }

  /** "Save" is enabled only for a changed form whose email, password and phone all pass. */
  function CanSave(user: AdminUser, f: Form, matches: string -> bool): (r: bool)
    ensures r ==> HasChanges(user, f)
    ensures r ==> !IsBlank(f.name) && !IsBlank(f.email) && matches(f.email)
    ensures r ==> |f.password| == 0 || Utf16Length(f.password) >= MinPasswordLength
    ensures r ==> |f.phone| == 0 || AllDigits(f.phone)
    ensures 0 < Utf16Length(f.password) < MinPasswordLength ==> !r
    ensures (&& HasChanges(user, f) && !IsBlank(f.email) && matches(f.email)
             && (|f.password| == 0 || Utf16Length(f.password) >= MinPasswordLength)
             && (|f.phone| == 0 || AllDigits(f.phone))) ==> r
  {
    HasChanges(user, f) && EmailOk(f.email, matches) && PassOk(f.password) && PhoneOk(f.phone)
  }

  /** Saving splits the trimmed name at its first space into first and last name, takes the
      email, and keeps everything else about the user. */
  function Save(user: AdminUser, f: Form): (r: SaveRequest)
    ensures r.user.email == f.email && r.user.role == user.role
    ensures ' ' !in r.user.name
    ensures ' ' in Trim(f.name) ==> Trim(f.name) == r.user.name + " " + r.user.lastName
    ensures ' ' !in Trim(f.name) ==> r.user.name == Trim(f.name) && r.user.lastName == ""
    ensures r.photo == f.photo && r.username == f.username
    ensures r.phonePrefix == f.phonePrefix && r.phone == f.phone
  {
    var parts := SplitFirst(Trim(f.name), ' ');
    SaveRequest(
      user.(name := parts.0, lastName := parts.1.GetOr(""), email := f.email),
      f.photo, f.username, f.phonePrefix, f.phone)
  }

  /** A user whose first name is one word and whose names carry no outer whitespace comes back
      unchanged when the form is saved as opened. */
  lemma SaveInitialRoundTrip(user: AdminUser)
    requires user.name != [] && ' ' !in user.name && Trim(user.name) == user.name
    requires Trim(user.lastName) == user.lastName
    ensures Save(user, InitialForm(user)).user == user
  {
    var a := user.name;
    var b := user.lastName;
    if b == [] {
      assert a + " " + b == a + " ";
      TrimTrailingSpace(a);
      assert Trim(a + " " + b) == a;
    } else {
      var s := a + " " + b;
      assert s[0] == a[0] && s[|s| - 1] == b[|b| - 1];
      TrimOfTrimmed(s);
      assert a + " " + b == a + [' '] + b;
      SplitFirstOfJoin(a, ' ', b);
    }
  }
}

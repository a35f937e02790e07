/** The password rules of the two user forms: `UsuarioForm`, which creates a
    user and requires a password, and `UsuarioUpdateForm`, which keeps the
    stored password when none is given. Passwords are the fields' cleaned
    values; the empty string is a field left blank. */
module UserForms {
  import opened Common
  import opened Text
  import opened Schema
  import opened UserModels

  /** The password errors the forms report. */
  datatype PasswordError =
    | MissingPassword       // the required password field is blank
    | MissingConfirmation   // the required confirmation field is blank
    | TooShort              // fewer than 8 characters
    | NoUpper               // no letter A-Z
    | NoDigit               // no digit
    | NoSymbol              // none of the listed symbols
    | Mismatch              // password and confirmation differ

  /** The symbols of the character class `[!@#$%^&*(),.?":{}|<>]`. */
  const Symbols: string := "!@#$%^&*(),.?\":{}|<>"

  predicate HasUpper(p: string) { exists i | 0 <= i < |p| :: IsUpper(p[i]) }
  predicate HasDigit(p: string) { exists i | 0 <= i < |p| :: IsDigit(p[i]) }
  predicate HasSymbol(p: string) { exists i | 0 <= i < |p| :: p[i] in Symbols }

  /** The four rules, in the order the forms test them. */
  const Rules: seq<PasswordError> := [TooShort, NoUpper, NoDigit, NoSymbol]

  /** Whether `p` satisfies the rule whose failure is reported as `rule`. */
  predicate Meets(p: string, rule: PasswordError) {
    match rule
    case TooShort => |p| >= 8
    case NoUpper => HasUpper(p)
    case NoDigit => HasDigit(p)
    case NoSymbol => HasSymbol(p)
    case _ => true
  }

  /** A password strong enough for both forms. */
  predicate Strong(p: string) {
    forall i | 0 <= i < |Rules| :: Meets(p, Rules[i])
  }

  /** Strength spelled out rule by rule. */
  lemma StrongMeans(p: string)
    ensures Strong(p) <==> |p| >= 8 && HasUpper(p) && HasDigit(p) && HasSymbol(p)
  {
    if |p| >= 8 && HasUpper(p) && HasDigit(p) && HasSymbol(p) {
      forall i | 0 <= i < |Rules| ensures Meets(p, Rules[i]) {
        assert Rules[i] in {TooShort, NoUpper, NoDigit, NoSymbol};
      }
    }
    if Strong(p) {
      assert Meets(p, Rules[0]) && Meets(p, Rules[1]) && Meets(p, Rules[2]) && Meets(p, Rules[3]);
    }
  }

  /** `UsuarioForm.clean_password`: the first rule that fails, if any. */
  function CleanPassword(p: string): (r: Outcome<PasswordError>)
    ensures r == Pass <==> Strong(p)
    ensures r != Pass ==> r.error in Rules
  {
    StrongMeans(p);
    if |p| < 8 then Fail(TooShort)
    else if !HasUpper(p) then Fail(NoUpper)
    else if !HasDigit(p) then Fail(NoDigit)
    else if !HasSymbol(p) then Fail(NoSymbol)
    else Pass
  }

  /** The error reported is a rule that fails, and every rule before it holds. */
  lemma CleanPasswordReportsFirstFailure(p: string)
    requires CleanPassword(p).Fail?
    ensures exists i | 0 <= i < |Rules| ::
      CleanPassword(p).error == Rules[i] && !Meets(p, Rules[i]) && forall j | 0 <= j < i :: Meets(p, Rules[j])
  {
    var i := if |p| < 8 then 0 else if !HasUpper(p) then 1 else if !HasDigit(p) then 2 else 3;
    assert CleanPassword(p).error == Rules[i] && !Meets(p, Rules[i]);
    assert forall j | 0 <= j < i :: Meets(p, Rules[j]);
  }

  /** A strong password has at least 8 characters and so is never blank. */
  lemma StrongIsNotBlank(p: string)
    requires Strong(p)
    ensures |p| >= 8 && p != []
  {
    assert Meets(p, Rules[0]);
  }

  /** A short password is reported as short whatever else it lacks, and a
      long one without an upper-case letter as lacking one, whatever else
      it lacks. */
  lemma FirstRuleWins(p: string)
    ensures |p| < 8 ==> CleanPassword(p) == Fail(TooShort)
    ensures |p| >= 8 && !HasUpper(p) ==> CleanPassword(p) == Fail(NoUpper)
  {
  }

  /** `UsuarioUpdateForm.clean_password`: a blank password passes; any other
      is checked as on creation. */
  function CleanNewPassword(p: string): (r: Outcome<PasswordError>)
    ensures p == [] ==> r == Pass
    ensures p != [] ==> r == CleanPassword(p)
  {
    if p == [] then Pass else CleanPassword(p)
  }

  /** `clean` of both forms: a mismatch only when both values are present,
      non-blank and different. A password `clean_password` rejected is not in
      `cleaned_data`, so it is `None` here. */
  predicate Mismatched(password: Option<string>, confirm: Option<string>) {
    Given(password) && Given(confirm) && password.value != confirm.value
  }

  /** The password errors of a bound `UsuarioForm`: a blank field is reported as
      missing and not cleaned further; the mismatch test only sees a password
      that passed its rules. */
  function CreatePasswordErrors(password: string, confirm: string): (errs: set<PasswordError>)
    ensures errs == {} <==> Strong(password) && password == confirm
    ensures Mismatch in errs ==> Strong(password) && confirm != [] && confirm != password
    ensures password == [] ==> errs * {TooShort, NoUpper, NoDigit, NoSymbol, Mismatch} == {}
  {
    StrongMeans(password);
    var field := if password == [] then Fail(MissingPassword) else CleanPassword(password);
    var cleaned := if field == Pass then Some(password) else None;
    var confirmed := if confirm == [] then None else Some(confirm);
    (if field.Fail? then {field.error} else {})
    + (if confirm == [] then {MissingConfirmation} else {})
    + (if Mismatched(cleaned, confirmed) then {Mismatch} else {})
  }

  /** The password errors of a bound `UsuarioUpdateForm`. */
  function UpdatePasswordErrors(password: string, confirm: string): (errs: set<PasswordError>)
    ensures errs == {} <==> password == [] || (Strong(password) && (confirm == [] || confirm == password))
    ensures password == [] ==> errs == {}
    ensures MissingPassword !in errs && MissingConfirmation !in errs
  {
    var field := CleanNewPassword(password);
    var cleaned := if field == Pass then Some(password) else None;
    (if field.Fail? then {field.error} else {})
    + (if Mismatched(cleaned, Some(confirm)) then {Mismatch} else {})
  }

  /** On the update form a blank confirmation lets any strong new password
      through, while on the create form it is an error. */
  lemma BlankConfirmationOnlyHurtsCreation(password: string)
    requires Strong(password)
    ensures UpdatePasswordErrors(password, []) == {}
    ensures CreatePasswordErrors(password, []) == {MissingConfirmation}
  {
    StrongIsNotBlank(password);
  }

  /** Whatever the update form accepts, beyond a blank password, the create form
      accepts too when the confirmation is given. */
  lemma UpdateAcceptsNoWeakerPassword(password: string)
    requires password != [] && UpdatePasswordErrors(password, password) == {}
    ensures CreatePasswordErrors(password, password) == {}
  {
  }

  /** `UsuarioForm.save`: the user built from the form gets the hash of the
      password, always. */
  function SaveCreated(u: User, password: string): (r: User)
    ensures CheckPassword(r, password)
    ensures r.(password := u.password) == u
  {
    SetPassword(u, password)
  }

  /** `UsuarioUpdateForm.save`: the stored password changes only when a new
      one is given. */
  function SaveUpdated(u: User, password: string): (r: User)
    ensures password != [] ==> CheckPassword(r, password)
    ensures password == [] ==> r == u
    ensures r.(password := u.password) == u
  {
    if password != [] then SetPassword(u, password) else u
  }

  /** After an update with a blank password the old password still checks; after
      an update with a new one, only the new one does. */
  lemma SaveUpdatedKeepsOrReplaces(u: User, password: string, attempt: string)
    ensures password == [] ==> (CheckPassword(SaveUpdated(u, password), attempt) <==> CheckPassword(u, attempt))
    ensures password != [] ==> (CheckPassword(SaveUpdated(u, password), attempt) <==> attempt == password)
  {
  }
}

/**
 * The three-step signup form (src/components/SignupWizard.tsx): the
 * password rules, the per-step validation, and the form state that
 * `updateField`, `handleNext` and `handleBack` change.
 */
module SignupWizard {
  import opened Wrappers

  // ---------------------------------------------------------------------
  // Password rules

  /** The characters of the class `[!@#$%^&*(),.?":{}|<>]`. */
  const SpecialChars: string := "!@#$%^&*(),.?\":{}|<>"

  predicate HasLower(p: string) {
    exists i :: 0 <= i < |p| && 'a' <= p[i] <= 'z'
  }

  predicate HasUpper(p: string) {
    exists i :: 0 <= i < |p| && 'A' <= p[i] <= 'Z'
  }

  predicate HasNumber(p: string) {
    exists i :: 0 <= i < |p| && '0' <= p[i] <= '9'
  }

  predicate HasSpecial(p: string) {
    exists i :: 0 <= i < |p| && p[i] in SpecialChars
  }

  /** `passwordRequirements`: the five checks shown next to the password field. */
  datatype Requirements = Requirements(minLength: bool, hasLower: bool, hasUpper: bool, hasNumber: bool, hasSpecial: bool)

  function PasswordRequirements(p: string): Requirements {
    Requirements(8 <= |p| <= 12, HasLower(p), HasUpper(p), HasNumber(p), HasSpecial(p))
  }

  /** `Object.values(passwordRequirements).every(Boolean)`. */
  function IsPasswordValid(p: string): (r: bool)
    ensures r <==> 8 <= |p| <= 12 && HasLower(p) && HasUpper(p) && HasNumber(p) && HasSpecial(p)
  {
    var q := PasswordRequirements(p);
    q.minLength && q.hasLower && q.hasUpper && q.hasNumber && q.hasSpecial
  }

  /** Eight and twelve characters are both accepted lengths; seven and thirteen are not. */
  lemma PasswordLengthBounds()
    ensures IsPasswordValid("Abcdef1!")
    ensures IsPasswordValid("Abcdefghij1!")
    ensures !IsPasswordValid("Abcde1!")
    ensures !IsPasswordValid("Abcdefghijk1!")
  {
    var p8 := "Abcdef1!";
    assert 'a' <= p8[1] <= 'z' && 'A' <= p8[0] <= 'Z' && '0' <= p8[6] <= '9' && p8[7] == SpecialChars[0];
    var p12 := "Abcdefghij1!";
    assert 'a' <= p12[1] <= 'z' && 'A' <= p12[0] <= 'Z' && '0' <= p12[10] <= '9' && p12[11] == SpecialChars[0];
  }

  /** Letters and digits are outside the special class. */
  lemma AlphanumericNotSpecial(c: char)
    requires 'a' <= c <= 'z' || 'A' <= c <= 'Z' || '0' <= c <= '9'
    ensures c !in SpecialChars
  {
    forall j | 0 <= j < |SpecialChars| ensures SpecialChars[j] != c {
    }
  }

  /** A password without a special character from the class is refused whatever else it has. */
  lemma SpecialRequired()
    ensures !IsPasswordValid("Abcdefg1")
  {
    var p := "Abcdefg1";
    forall i | 0 <= i < |p| ensures p[i] !in SpecialChars {
      AlphanumericNotSpecial(p[i]);
    }
  }

  // ---------------------------------------------------------------------
  // Form and validation

  datatype Form = Form(
    documentType: string, documentNumber: string, birthDate: string,
    termsAccepted: bool, dataUsageAccepted: bool,
    firstName: string, paternalSurname: string, maternalSurname: string,
    gender: string, country: string, address: string,
    email: string, phoneCountryCode: string, phone: string,
    password: string, passwordConfirm: string)

  /** The initial form: DNI and +51 preselected, everything else empty or unchecked. */
  const InitialForm: Form := Form("DNI", "", "", false, false, "", "", "", "", "", "", "", "+51", "", "", "")

  const FillAll: string := "Por favor completa todos los campos"
  const FillNames: string := "Por favor completa todos los campos de nombre"
  const AcceptTerms: string := "Debes aceptar los Términos y Condiciones"
  const WeakPassword: string := "La contraseña no cumple con todos los requisitos"
  const Mismatch: string := "Las contraseñas no coinciden"

  /** `validateStep`: `None` when the step passes, otherwise the message it sets. */
  function ValidateStep(form: Form, step: int): (r: Option<string>)
    ensures step == 1 ==> (r.None? <==> form.documentType != "" && form.documentNumber != "" && form.birthDate != "" && form.termsAccepted)
    ensures step == 2 ==> (r.None? <==> (form.firstName != "" && form.paternalSurname != "" && form.maternalSurname != ""
      && form.gender != "" && form.country != "" && form.address != ""))
    ensures step == 3 ==> (r.None? <==> (form.email != "" && form.phone != "" && form.password != "" && form.passwordConfirm != ""
      && IsPasswordValid(form.password) && form.password == form.passwordConfirm))
    ensures step !in {1, 2, 3} ==> r.None?
  {
    if step == 1 then
      if form.documentType == "" || form.documentNumber == "" || form.birthDate == "" then Some(FillAll)
      else if !form.termsAccepted then Some(AcceptTerms)
      else None
    else if step == 2 then
      if form.firstName == "" || form.paternalSurname == "" || form.maternalSurname == "" then Some(FillNames)
      else if form.gender == "" || form.country == "" || form.address == "" then Some(FillAll)
      else None
    else if step == 3 then
      if form.email == "" || form.phone == "" || form.password == "" || form.passwordConfirm == "" then Some(FillAll)
      else if !IsPasswordValid(form.password) then Some(WeakPassword)
      else if form.password != form.passwordConfirm then Some(Mismatch)
      else None
    else None
  }

  /** The data-usage consent never decides step 1. */
  lemma DataUsageOptional(form: Form, accepted: bool)
    ensures ValidateStep(form.(dataUsageAccepted := accepted), 1) == ValidateStep(form, 1)
  {
  }

  /**
   * Step 3 reports the first failing check in the order presence, password
   * rules, confirmation: a weak password is reported even if the
   * confirmation differs, and a mismatch only for a valid password.
   */
  lemma Step3Order(form: Form)
    requires form.email != "" && form.phone != "" && form.password != "" && form.passwordConfirm != ""
    ensures !IsPasswordValid(form.password) ==> ValidateStep(form, 3) == Some(WeakPassword)
    ensures IsPasswordValid(form.password) && form.password != form.passwordConfirm ==> ValidateStep(form, 3) == Some(Mismatch)
  {
  }

  // ---------------------------------------------------------------------
  // `updateField`

  datatype Field =
    | DocumentType | DocumentNumber | BirthDate | TermsAccepted | DataUsageAccepted
    | FirstName | PaternalSurname | MaternalSurname | Gender | Country | Address
    | Email | PhoneCountryCode | Phone | Password | PasswordConfirm

  datatype Value = Text(text: string) | Flag(flag: bool)

  /** The two consent boxes hold booleans; every other field holds text. */
  predicate IsFlagField(field: Field) {
    field == TermsAccepted || field == DataUsageAccepted
  }

  predicate Fits(field: Field, value: Value) {
    IsFlagField(field) <==> value.Flag?
  }

  /** `formData[field]`. */
  function Get(form: Form, field: Field): (v: Value)
    ensures Fits(field, v)
  {
    match field
    case DocumentType => Text(form.documentType)
    case DocumentNumber => Text(form.documentNumber)
    case BirthDate => Text(form.birthDate)
    case TermsAccepted => Flag(form.termsAccepted)
    case DataUsageAccepted => Flag(form.dataUsageAccepted)
    case FirstName => Text(form.firstName)
    case PaternalSurname => Text(form.paternalSurname)
    case MaternalSurname => Text(form.maternalSurname)
    case Gender => Text(form.gender)
    case Country => Text(form.country)
    case Address => Text(form.address)
    case Email => Text(form.email)
    case PhoneCountryCode => Text(form.phoneCountryCode)
    case Phone => Text(form.phone)
    case Password => Text(form.password)
    case PasswordConfirm => Text(form.passwordConfirm)
  }

  /** `{ ...prev, [field]: value }`. */
  function Set(form: Form, field: Field, value: Value): Form
    requires Fits(field, value)
  {
    match field
    case DocumentType => form.(documentType := value.text)
    case DocumentNumber => form.(documentNumber := value.text)
    case BirthDate => form.(birthDate := value.text)
    case TermsAccepted => form.(termsAccepted := value.flag)
    case DataUsageAccepted => form.(dataUsageAccepted := value.flag)
    case FirstName => form.(firstName := value.text)
    case PaternalSurname => form.(paternalSurname := value.text)
    case MaternalSurname => form.(maternalSurname := value.text)
    case Gender => form.(gender := value.text)
    case Country => form.(country := value.text)
    case Address => form.(address := value.text)
    case Email => form.(email := value.text)
    case PhoneCountryCode => form.(phoneCountryCode := value.text)
    case Phone => form.(phone := value.text)
    case Password => form.(password := value.text)
    case PasswordConfirm => form.(passwordConfirm := value.text)
  }

  /** Setting a field stores the value in that field and changes no other field. */
  lemma SetGet(form: Form, field: Field, value: Value, other: Field)
    requires Fits(field, value)
    ensures Get(Set(form, field, value), field) == value
    ensures other != field ==> Get(Set(form, field, value), other) == Get(form, other)
  {
    match value
    case Text(_) =>
    case Flag(_) =>
  }

  /** The wizard's state: the form, the current step (1 to 3) and the error shown. */
  class Wizard {
    var form: Form
    var currentStep: int
    var error: string

    constructor()
      ensures form == InitialForm && currentStep == 1 && error == ""
    {
      form := InitialForm;
      currentStep := 1;
      error := "";
    }

    /** `updateField`: changes the named field and clears the error. */
    method UpdateField(field: Field, value: Value)
      requires Fits(field, value)
      modifies this
      ensures form == Set(old(form), field, value)
      ensures error == "" && currentStep == old(currentStep)
    {
      form := Set(form, field, value);
      error := "";
    }

    /** `handleNext`: one step forward when the step validates; otherwise the step stays and its message is shown. */
    method HandleNext()
      modifies this
      ensures form == old(form)
      ensures ValidateStep(old(form), old(currentStep)).None? ==> currentStep == old(currentStep) + 1 && error == old(error)
      ensures ValidateStep(old(form), old(currentStep)).Some? ==>
        currentStep == old(currentStep) && error == ValidateStep(old(form), old(currentStep)).value
    {
      var result := ValidateStep(form, currentStep);
      if result.Some? {
        error := result.value;
      } else {
        currentStep := currentStep + 1;
      }
    }

    /** `handleBack`: one step back and no error. */
    method HandleBack()
      modifies this
      ensures currentStep == old(currentStep) - 1 && error == "" && form == old(form)
    {
      currentStep := currentStep - 1;
      error := "";
    }
  }
}

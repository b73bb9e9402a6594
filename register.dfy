/** The registration screen (components/RegisterScreen.tsx): the form, its
    normalisation while typing, and the order in which a submission is
    checked, sent and answered.

    The sign-up service and the profiles table are not part of this model: the
    answer of sign-up is a parameter, and the insert's own answer is ignored,
    as in the source. */
module Register {
  import opened Seqs
  import opened Text
  import opened Types

  const MinPasswordLength := 6
  const NoPlanError := "Por favor, selecione um plano para continuar."
  const ShortPasswordError := "A senha deve ter 6 dígitos."
  const DuplicateError := "Este email ou CPF já está cadastrado."
  const DefaultError := "Erro ao cadastrar. Verifique os dados."
  const SuccessAlert := "Cadastro realizado com sucesso! Instruções de pagamento serão enviadas via WhatsApp."

  datatype Field = Name | Cpf | Email | Phone | Password

  datatype RegisterForm = RegisterForm(name: string, cpf: string, email: string, phone: string, password: string)

  function FieldValue(f: RegisterForm, field: Field): string
  {
    match field
    case Name => f.name
    case Cpf => f.cpf
    case Email => f.email
    case Phone => f.phone
    case Password => f.password
  }

  /** Name and e-mail are upper-cased as they are typed; the other fields are
      kept as typed. */
  function Normalize(field: Field, value: string): (r: string)
    ensures |r| == |value|
    ensures field != Name && field != Email ==> r == value
  {
    if field == Name || field == Email then Upper(value) else value
  }

  /** Typing a normalised value again leaves it as it is. */
  lemma NormalizeIdempotent(field: Field, value: string)
    ensures Normalize(field, Normalize(field, value)) == Normalize(field, value)
  {
    UpperIdempotent(value);
  }

  /** `handleChange`: the changed field takes the normalised value and every
      other field keeps its value. */
  function ChangeField(f: RegisterForm, field: Field, value: string): (r: RegisterForm)
    ensures forall g :: FieldValue(r, g) == if g == field then Normalize(field, value) else FieldValue(f, g)
  {
    var v := Normalize(field, value);
    match field
    case Name => f.(name := v)
    case Cpf => f.(cpf := v)
    case Email => f.(email := v)
    case Phone => f.(phone := v)
    case Password => f.(password := v)
  }

  /** A form is determined by its five field values, so the change above
      describes the new form completely. */
  lemma FormByFields(f: RegisterForm, g: RegisterForm)
    requires forall field :: FieldValue(f, field) == FieldValue(g, field)
    ensures f == g
  {
    assert FieldValue(f, Name) == FieldValue(g, Name);
    assert FieldValue(f, Cpf) == FieldValue(g, Cpf);
    assert FieldValue(f, Email) == FieldValue(g, Email);
    assert FieldValue(f, Phone) == FieldValue(g, Phone);
    assert FieldValue(f, Password) == FieldValue(g, Password);
  }

  /** The error shown for a failed sign-up. */
  function RegisterErrorText(m: string): (t: string)
    ensures Contains(m, "unique constraint") ==> t == DuplicateError
    ensures !Contains(m, "unique constraint") && m != "" ==> t == m
    ensures m == "" ==> t == DefaultError
    ensures t != ""
  {
    if Contains(m, "unique constraint") then DuplicateError
    else if m == "" then DefaultError
    else m
  }

  /** The answer of sign-up: a created user, no user and no error, or an
      error message. */
  datatype SignUpReply = UserCreated(id: string) | NoUser | SignUpFailed(message: string)

  /** What sign-up is sent: e-mail, password, and name, phone and plan as
      metadata. */
  datatype SignUpRequest = SignUpRequest(email: string, password: string, fullName: string, phone: string,
                                         plan: BillingPlan)

  /** The row inserted in the profiles table. */
  datatype ProfileRow = ProfileRow(id: string, fullName: string, cpf: string, email: string, phone: string,
                                   status: AccessStatus, plan: BillingPlan)

  class RegisterScreen {
    var selectedPlan: Option<BillingPlan>
    var form: RegisterForm
    var loading: bool
    var error: string
    /** Sign-up requests sent, oldest first. */
    var signUps: seq<SignUpRequest>
    /** Profile rows inserted, oldest first. */
    var inserts: seq<ProfileRow>
    var alerts: seq<string>
    /** `onRegisterSuccess` was called. */
    var registered: bool

    constructor()
      ensures selectedPlan == None && form == RegisterForm("", "", "", "", "")
      ensures !loading && error == "" && signUps == [] && inserts == [] && alerts == [] && !registered
    {
      selectedPlan, form := None, RegisterForm("", "", "", "", "");
      loading, error := false, "";
      signUps, inserts, alerts, registered := [], [], [], false;
    }

    /** One of the two plan buttons. */
    method ChoosePlan(p: BillingPlan)
      modifies this
      ensures selectedPlan == Some(p) && form == old(form) && error == old(error) && loading == old(loading)
      ensures signUps == old(signUps) && inserts == old(inserts) && alerts == old(alerts)
      ensures registered == old(registered)
    {
      selectedPlan := Some(p);
    }

    /** `handleChange` on one input. */
    method Change(field: Field, value: string)
      modifies this
      ensures form == ChangeField(old(form), field, value)
      ensures selectedPlan == old(selectedPlan) && error == old(error) && loading == old(loading)
      ensures signUps == old(signUps) && inserts == old(inserts) && alerts == old(alerts)
      ensures registered == old(registered)
    {
      form := ChangeField(form, field, value);
    }

    /** `handleRegister`. Without a plan nothing is sent; then a password
        shorter than six is refused; otherwise sign-up is called once, and a
        created user gets a pending profile with the chosen plan whatever the
        insert answers. */
    method Submit(reply: SignUpReply)
      modifies this
      ensures form == old(form) && selectedPlan == old(selectedPlan)
      ensures loading == (selectedPlan.None? && old(loading))
      ensures selectedPlan.None? ==>
                error == NoPlanError && signUps == old(signUps) && inserts == old(inserts) &&
                alerts == old(alerts) && registered == old(registered)
      ensures selectedPlan.Some? && |form.password| < MinPasswordLength ==>
                error == ShortPasswordError && signUps == old(signUps) && inserts == old(inserts) &&
                alerts == old(alerts) && registered == old(registered)
      ensures selectedPlan.Some? && |form.password| >= MinPasswordLength ==>
                signUps == old(signUps) + [SignUpRequest(form.email, form.password, form.name, form.phone,
                                                         selectedPlan.value)] &&
                match reply
                case UserCreated(id) =>
                  inserts == old(inserts) + [ProfileRow(id, form.name, form.cpf, form.email, form.phone,
                                                        Pending, selectedPlan.value)] &&
                  alerts == old(alerts) + [SuccessAlert] && registered && error == ""
                case NoUser =>
                  inserts == old(inserts) && alerts == old(alerts) && registered == old(registered) &&
                  error == ""
                case SignUpFailed(m) =>
                  inserts == old(inserts) && alerts == old(alerts) && registered == old(registered) &&
                  error == RegisterErrorText(m)
    {
      error := "";
      if selectedPlan.None? {
        error := NoPlanError;
        return;
      }
      loading := true;
      if |form.password| < MinPasswordLength {
        error := ShortPasswordError;
        loading := false;
        return;
      }
      var plan := selectedPlan.value;
      signUps := signUps + [SignUpRequest(form.email, form.password, form.name, form.phone, plan)];
      match reply {
        case UserCreated(id) =>
          inserts := inserts + [ProfileRow(id, form.name, form.cpf, form.email, form.phone, Pending, plan)];
          alerts := alerts + [SuccessAlert];
          registered := true;
        case NoUser =>
        case SignUpFailed(m) =>
          error := RegisterErrorText(m);
      }
      loading := false;
    }
  }
}

/** The new-password screen (components/UpdatePasswordScreen.tsx): the input
    keeps at most six digits, and only a six-digit password is sent. */
module Password {
  import opened Seqs
  import opened Text

  const PinLength := 6
  const WrongLengthError := "A senha deve conter exatamente 6 números."
  const UpdatedMessage := "Senha atualizada com sucesso! Você já pode fazer o login."
  const UpdateFailedError := "Ocorreu um erro ao atualizar a senha."

  /** `value.replace(/\D/g, '').slice(0, 6)`. */
  function Sanitize(v: string): (r: string)
    ensures |r| <= PinLength
    ensures forall i :: 0 <= i < |r| ==> IsDigit(r[i])
  {
    var d := Digits(v);
    var r := if |d| <= PinLength then d else d[..PinLength];
    assert forall i :: 0 <= i < |r| ==> r[i] in d;
    r
  }

  /** The sanitised value is the first six digits of the input, in their
      original order (all of them when there are fewer). */
  lemma SanitizeIsFirstDigits(v: string)
    ensures Sanitize(v) <= Digits(v)
    ensures |Sanitize(v)| == if |Digits(v)| < PinLength then |Digits(v)| else PinLength
  {
  }

  /** The values the input can hold are exactly the strings of at most six
      digits; sanitising is therefore idempotent. */
  lemma SanitizeFixedPoints(v: string)
    ensures Sanitize(v) == v <==> |v| <= PinLength && forall i :: 0 <= i < |v| ==> IsDigit(v[i])
    ensures Sanitize(Sanitize(v)) == Sanitize(v)
  {
    if |v| <= PinLength && forall i :: 0 <= i < |v| ==> IsDigit(v[i]) {
      DigitsOfDigits(v);
    }
    var r := Sanitize(v);
    DigitsOfDigits(r);
  }

  /** A submit can go through exactly when the typed text held six digits or
      more. */
  lemma SixDigitsTyped(v: string)
    ensures |Sanitize(v)| == PinLength <==> |Digits(v)| >= PinLength
  {
  }

  /** The answer of the password update call. */
  datatype UpdateReply = Updated | UpdateFailed(message: string)

  /** `err.message || 'Ocorreu um erro ...'`: an empty message falls back to
      the default text. */
  function UpdateErrorText(m: string): (t: string)
    ensures t != ""
    ensures m != "" ==> t == m
    ensures m == "" ==> t == UpdateFailedError
  {
    if m == "" then UpdateFailedError else m
  }

  class UpdatePasswordForm {
    var password: string
    var error: string
    var message: string
    var loading: bool
    /** The passwords sent to the update call, oldest first. */
    var updates: seq<string>
    /** The two-second redirect to the login screen was scheduled. */
    var redirectScheduled: bool

    /** The field only ever holds a sanitised value. */
    predicate Valid()
      reads this
    {
      |password| <= PinLength && forall i :: 0 <= i < |password| ==> IsDigit(password[i])
    }

    constructor()
      ensures Valid()
      ensures password == "" && error == "" && message == "" && !loading
      ensures updates == [] && !redirectScheduled
    {
      password, error, message, loading := "", "", "", false;
      updates, redirectScheduled := [], false;
    }

    /** `handlePasswordChange`. */
    method Change(value: string)
      modifies this
      ensures Valid()
      ensures password == Sanitize(value)
      ensures error == old(error) && message == old(message) && loading == old(loading)
      ensures updates == old(updates) && redirectScheduled == old(redirectScheduled)
    {
      password := Sanitize(value);
    }

    /** `handleUpdatePassword`: clears both texts, refuses any length other
      than six without calling the service, and otherwise sends the password
      once and reports the reply. */
    method Submit(reply: UpdateReply)
      requires Valid()
      modifies this
      ensures Valid() && password == old(password)
      ensures |password| != PinLength ==>
                error == WrongLengthError && message == "" && loading == old(loading) &&
                updates == old(updates) && redirectScheduled == old(redirectScheduled)
      ensures |password| == PinLength ==>
                updates == old(updates) + [password] && !loading &&
                match reply
                case Updated =>
                  message == UpdatedMessage && error == "" && redirectScheduled
                case UpdateFailed(m) =>
                  error == UpdateErrorText(m) && message == "" && redirectScheduled == old(redirectScheduled)
    {
      error := "";
      message := "";
      if |password| != PinLength {
        error := WrongLengthError;
        return;
      }
      loading := true;
      updates := updates + [password];
      match reply {
        case Updated =>
          message := UpdatedMessage;
          redirectScheduled := true;
        case UpdateFailed(m) =>
          error := UpdateErrorText(m);
      }
      loading := false;
    }
  }
}

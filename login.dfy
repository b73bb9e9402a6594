/** The login screen (components/LoginScreen.tsx): the hard-coded admin code,
    login by e-mail or by CPF, and the password-reset form.

    The profile lookup and the authentication service are not part of this
    model: each call's answer is a parameter of the method that makes it. */
module Login {
  import opened Seqs
  import opened Text

  const AdminCode := "236616"
  const CpfLength := 11
  const CpfNotFound := "CPF não encontrado."
  const InvalidCredentials := "Invalid login credentials"
  const InvalidCredentialsText := "Credenciais inválidas."
  const ResetSentMessage := "Email de recuperação enviado! Verifique sua caixa de entrada."

  /** The admin shortcut: both fields are exactly the admin code. */
  predicate IsAdminShortcut(identifier: string, password: string)
  {
    identifier == AdminCode && password == AdminCode
  }

  /** `isCpf`: eleven digits once non-digits are removed, and no '@'. */
  predicate IsCpf(identifier: string): (b: bool)
    ensures b ==> |identifier| >= CpfLength
    ensures '@' in identifier ==> !b
  {
    |Digits(identifier)| == CpfLength && '@' !in identifier
  }

  /** An e-mail address is never read as a CPF, and a bare eleven-digit
      string always is. */
  lemma CpfDetection(identifier: string)
    ensures '@' in identifier ==> !IsCpf(identifier)
    ensures |identifier| == CpfLength && (forall i :: 0 <= i < |identifier| ==> IsDigit(identifier[i])) ==>
              IsCpf(identifier)
  {
    if forall i :: 0 <= i < |identifier| ==> IsDigit(identifier[i]) {
      DigitsOfDigits(identifier);
    }
  }

  /** The error shown for a failed login: the credentials message is
      translated, any other message is shown as it is. */
  function LoginErrorText(m: string): (t: string)
    ensures m == InvalidCredentials ==> t == InvalidCredentialsText
    ensures m != InvalidCredentials ==> t == m
  {
    if m == InvalidCredentials then InvalidCredentialsText else m
  }

  /** An answer of the authentication service. */
  datatype AuthReply = Accepted | Refused(message: string)

  class LoginScreen {
    var error: string
    var message: string
    var loading: bool
    var resetMode: bool
    /** The raw identifiers looked up in the profiles table, oldest first. */
    var lookups: seq<string>
    /** The (e-mail, password) pairs sent to sign-in, oldest first. */
    var signIns: seq<(string, string)>
    /** The e-mail addresses sent a recovery link, oldest first. */
    var resets: seq<string>
    /** `onLoginSuccess(true)` was called. */
    var adminEntered: bool

    constructor()
      ensures error == "" && message == "" && !loading && !resetMode
      ensures lookups == [] && signIns == [] && resets == [] && !adminEntered
    {
      error, message, loading, resetMode := "", "", false, false;
      lookups, signIns, resets, adminEntered := [], [], [], false;
    }

    /** `handleLogin`. `found` is the e-mail the CPF lookup returns, if any;
        `auth` is the answer of sign-in. The admin code enters at once, with
        no lookup or sign-in and with `loading` left on; a CPF is looked up
        as typed, and an unknown CPF stops before sign-in. */
    method SignIn(identifier: string, password: string, found: Option<string>, auth: AuthReply)
      modifies this
      ensures message == "" && resetMode == old(resetMode) && resets == old(resets)
      ensures IsAdminShortcut(identifier, password) ==>
                adminEntered && loading && error == "" &&
                lookups == old(lookups) && signIns == old(signIns)
      ensures !IsAdminShortcut(identifier, password) ==>
                !loading && adminEntered == old(adminEntered) &&
                lookups == old(lookups) + (if IsCpf(identifier) then [identifier] else [])
      ensures !IsAdminShortcut(identifier, password) && IsCpf(identifier) && found.None? ==>
                error == CpfNotFound && signIns == old(signIns)
      ensures !IsAdminShortcut(identifier, password) && !(IsCpf(identifier) && found.None?) ==>
                var email := if IsCpf(identifier) then found.value else identifier;
                signIns == old(signIns) + [(email, password)] &&
                error == (if auth.Refused? then LoginErrorText(auth.message) else "")
    {
      error := "";
      message := "";
      loading := true;
      if IsAdminShortcut(identifier, password) {
        adminEntered := true;
        return;
      }
      var email := identifier;
      if IsCpf(identifier) {
        lookups := lookups + [identifier];
        if found.None? {
          error := LoginErrorText(CpfNotFound);
          loading := false;
          return;
        }
        email := found.value;
      }
      signIns := signIns + [(email, password)];
      if auth.Refused? {
        error := LoginErrorText(auth.message);
      }
      loading := false;
    }

    /** `handleForgotPassword`: the service's error message is shown as it is. */
    method ForgotPassword(resetEmail: string, reply: AuthReply)
      modifies this
      ensures resets == old(resets) + [resetEmail] && !loading
      ensures lookups == old(lookups) && signIns == old(signIns)
      ensures adminEntered == old(adminEntered) && resetMode == old(resetMode)
      ensures reply.Accepted? ==> message == ResetSentMessage && error == ""
      ensures reply.Refused? ==> message == "" && error == reply.message
    {
      error := "";
      message := "";
      loading := true;
      resets := resets + [resetEmail];
      if reply.Accepted? {
        message := ResetSentMessage;
      } else {
        error := reply.message;
      }
      loading := false;
    }

    /** "Esqueceu a senha?". */
    method OpenReset()
      modifies this
      ensures resetMode
      ensures error == old(error) && message == old(message) && loading == old(loading)
      ensures lookups == old(lookups) && signIns == old(signIns) && resets == old(resets)
      ensures adminEntered == old(adminEntered)
    {
      resetMode := true;
    }

    /** "Voltar" in the reset form: leaves it and clears both texts. */
    method CloseReset()
      modifies this
      ensures !resetMode && error == "" && message == ""
      ensures loading == old(loading)
      ensures lookups == old(lookups) && signIns == old(signIns) && resets == old(resets)
      ensures adminEntered == old(adminEntered)
    {
      resetMode, error, message := false, "", "";
    }
  }
}

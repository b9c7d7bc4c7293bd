/**
 * The password form shown to a signed-in user: local checks of the new
 * password, then the backend update, with a fallback to a reset e-mail when
 * the backend asks for reauthentication.
 *
 * The backend is abstract: the outcome of each of its calls is a parameter,
 * and the method reports the calls it made and the state updates it issued,
 * in order.
 */
module SetPassword {
  import opened Wrappers
  import opened Text

  const MinLength := 8

  const TooShortMsg := "A senha deve ter pelo menos 8 caracteres."
  const MismatchMsg := "As senhas não conferem."
  const SavedMsg := "Senha definida com sucesso! Faça logout e entre novamente com e-mail + senha."
  const NoEmailMsg := "Precisamos reenviar um link de redefinição, mas não conseguimos ler seu e-mail. Tente sair e entrar novamente."
  const ResetFailedMsg := "Não foi possível enviar o e-mail de redefinição."
  const SaveFailedMsg := "Não foi possível definir a senha."

  const ResetSentPrefix := "Enviamos um link de redefinição para "
  const ResetSentSuffix := ". Abra o e-mail, clique no link e, quando o app abrir, volte a clicar em “Salvar senha”."

  function ResetSentMsg(email: string): string {
    ResetSentPrefix + email + ResetSentSuffix
  }

  /** The message of the reset notice names the address the link went to. */
  lemma ResetSentNamesEmail(email: string)
    ensures OccursAt(ResetSentMsg(email), email, |ResetSentPrefix|)
  {
    assert ResetSentMsg(email)[|ResetSentPrefix|..|ResetSentPrefix| + |email|] == email;
  }

  /** A thrown error; the empty message stands for a missing one too (both are falsy). */
  datatype Fault = Fault(message: string)

  /** `err?.message || fallback`. */
  function MessageOr(f: Fault, fallback: string): (r: string)
    ensures f.message != "" ==> r == f.message
    ensures f.message == "" ==> r == fallback
  {
    if f.message != "" then f.message else fallback
  }

  /**
   * The local checks, the length first: an empty password or one shorter than
   * eight UTF-16 code units is too short; a long enough one must equal the
   * confirmation.
   */
  function ValidationError(pwd: string, pwd2: string): (r: Option<string>)
    ensures r == Some(TooShortMsg) <==> Utf16Length(pwd) < MinLength
    ensures r == Some(MismatchMsg) <==> Utf16Length(pwd) >= MinLength && pwd != pwd2
    ensures r == None <==> Utf16Length(pwd) >= MinLength && pwd == pwd2
  {
    if pwd == "" || Utf16Length(pwd) < MinLength then Some(TooShortMsg)
    else if pwd != pwd2 then Some(MismatchMsg)
    else None
  }

  /** The backend's complaint asks for reauthentication: "reauth" occurs in its lowered message. */
  function NeedsReauth(message: string): (r: bool)
    ensures r <==> exists i :: OccursAt(Lower(message), "reauth", i)
  {
    IncludesIffOccurs(Lower(message), "reauth");
    Includes(Lower(message), "reauth")
  }

  /**
   * The message of the reset path, from the user lookup (`Success("")`: no
   * address known) and the reset request: a lookup or a request that throws
   * reports its failure; otherwise the notice names the address, or asks for a
   * new sign-in when there is none.
   */
  function ReauthMessage(user: Result<string, Fault>, resetError: Option<Fault>): (r: string)
    ensures user.Failure? ==> r == MessageOr(user.error, ResetFailedMsg)
    ensures user.Success? && user.value == "" ==> r == NoEmailMsg
    ensures user.Success? && user.value != "" && resetError.Some? ==> r == MessageOr(resetError.value, ResetFailedMsg)
    ensures user.Success? && user.value != "" && resetError.None? ==> r == ResetSentMsg(user.value)
  {
    match user
    case Failure(e2) => MessageOr(e2, ResetFailedMsg)
    case Success(email) =>
      if email == "" then NoEmailMsg
      else if resetError.Some? then MessageOr(resetError.value, ResetFailedMsg)
      else ResetSentMsg(email)
  }

  /** A call made to the authentication backend. */
  datatype AuthCall = UpdateUser(password: string) | GetUser | ResetPasswordForEmail(email: string)

  /** A state update issued by the handler. */
  datatype Update = SetMsg(msg: string) | SetLoading(loading: bool) | SetPwd(pwd: string) | SetPwd2(pwd2: string)

  class PasswordForm {
    var pwd: string
    var pwd2: string
    var loading: bool
    var msg: string

    constructor()
      ensures pwd == "" && pwd2 == "" && !loading && msg == ""
    {
      pwd, pwd2, loading, msg := "", "", false, "";
    }

    /**
     * `handleSave`, with the backend outcomes as parameters: `updateError` of
     * the password update (`None`: success), `user` of the user lookup and
     * `resetError` of the reset request (`Some`: it threw).
     */
    method HandleSave(updateError: Option<Fault>, user: Result<string, Fault>, resetError: Option<Fault>)
      returns (calls: seq<AuthCall>, updates: seq<Update>)
      modifies this
      ensures |updates| >= 2 && updates[0] == SetMsg("")
      ensures var v := ValidationError(old(pwd), old(pwd2));
        v.Some? ==>
          && calls == []
          && updates == [SetMsg(""), SetMsg(v.value)]
          && msg == v.value && pwd == old(pwd) && pwd2 == old(pwd2) && loading == old(loading)
      ensures ValidationError(old(pwd), old(pwd2)).None? ==>
        && |calls| >= 1 && calls[0] == UpdateUser(old(pwd))
        && updates[1] == SetLoading(true) && updates[|updates| - 1] == SetLoading(false)
        && !loading
      ensures ValidationError(old(pwd), old(pwd2)).None? && updateError.None? ==>
        && calls == [UpdateUser(old(pwd))]
        && updates == [SetMsg(""), SetLoading(true), SetMsg(SavedMsg), SetPwd(""), SetPwd2(""), SetLoading(false)]
        && msg == SavedMsg && pwd == "" && pwd2 == ""
      ensures ValidationError(old(pwd), old(pwd2)).None? && updateError.Some? && NeedsReauth(updateError.value.message) ==>
        && calls == [UpdateUser(old(pwd)), GetUser]
                    + (if user.Success? && user.value != "" then [ResetPasswordForEmail(user.value)] else [])
        && msg == ReauthMessage(user, resetError)
        && updates == [SetMsg(""), SetLoading(true), SetMsg(msg), SetLoading(false)]
        && pwd == old(pwd) && pwd2 == old(pwd2)
      ensures ValidationError(old(pwd), old(pwd2)).None? && updateError.Some? && !NeedsReauth(updateError.value.message) ==>
        && calls == [UpdateUser(old(pwd))]
        && msg == MessageOr(updateError.value, SaveFailedMsg)
        && updates == [SetMsg(""), SetLoading(true), SetMsg(msg), SetLoading(false)]
        && pwd == old(pwd) && pwd2 == old(pwd2)
    {
      msg := "";
      updates := [SetMsg("")];
      calls := [];
      var invalid := ValidationError(pwd, pwd2);
      if invalid.Some? {
        msg := invalid.value;
        updates := updates + [SetMsg(msg)];
        return;
      }
      loading := true;
      updates := updates + [SetLoading(true)];
      calls := [UpdateUser(pwd)];
      if updateError.None? {
        msg := SavedMsg;
        pwd := "";
        pwd2 := "";
        updates := updates + [SetMsg(SavedMsg), SetPwd(""), SetPwd2("")];
      } else if NeedsReauth(updateError.value.message) {
        calls := calls + [GetUser];
        match user {
          case Failure(e2) =>
            msg := MessageOr(e2, ResetFailedMsg);
          case Success(email) =>
            if email != "" {
              calls := calls + [ResetPasswordForEmail(email)];
              if resetError.Some? {
                msg := MessageOr(resetError.value, ResetFailedMsg);
              } else {
                msg := ResetSentMsg(email);
              }
            } else {
              msg := NoEmailMsg;
            }
        }
        updates := updates + [SetMsg(msg)];
      } else {
        msg := MessageOr(updateError.value, SaveFailedMsg);
        updates := updates + [SetMsg(msg)];
      }
      loading := false;
      updates := updates + [SetLoading(false)];
    }
  }

  /** An empty password is too short, whatever the confirmation. */
  lemma EmptyPasswordTooShort(pwd2: string)
    ensures ValidationError("", pwd2) == Some(TooShortMsg)
  {
  }

  /** Four characters outside the Basic Multilingual Plane take 8 UTF-16 code units, the minimum. */
  lemma AstralCharactersCountTwice()
    ensures Utf16Length("\U{1F600}\U{1F600}\U{1F600}\U{1F600}") == MinLength
    ensures ValidationError("\U{1F600}\U{1F600}\U{1F600}\U{1F600}", "\U{1F600}\U{1F600}\U{1F600}\U{1F600}").None?
  {
    var s := "\U{1F600}\U{1F600}\U{1F600}\U{1F600}";
    assert s[1..][1..][1..][1..] == [];
  }
}

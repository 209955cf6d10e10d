/** The password screen: changing one's own password (the two entries must
    agree, then be at least six characters) and, for the administrator
    only, resetting another user's password (a user must be chosen, then
    the password must be at least six characters). A request is sent only
    when its checks pass; a successful request clears its inputs. The
    server's answer is a parameter. */
module PasswordManager {
  import opened Common
  import opened Text

  const ADMIN_USERNAME: string := "Burim"
  const MIN_PASSWORD_LENGTH: nat := 6

  // The message keys; their translations are not modelled.
  const PASSWORDS_DO_NOT_MATCH: string := "passwordsDoNotMatch"
  const PASSWORD_TOO_SHORT: string := "passwordTooShort"
  const PASSWORD_CHANGED_SUCCESS: string := "passwordChangedSuccess"
  const PASSWORD_CHANGE_FAILED: string := "passwordChangeFailed"
  const SELECT_USER_TO_RESET: string := "selectUserToReset"
  const PASSWORD_RESET_SUCCESS: string := "passwordResetSuccess"
  const PASSWORD_RESET_FAILED: string := "passwordResetFailed"

  datatype Message = Success(text: string) | Failure(text: string)

  datatype User = User(username: string, fullName: string, role: string)

  /** The server's answer: an ok reply with its message ("" when it has
      none), an error reply with its error ("" when it has none), or no
      usable answer at all (the request or its body failed). */
  datatype Reply = OkReply(message: string) | ErrorReply(error: string) | NoReply

  datatype ChangeRequest = ChangeRequest(username: string, currentPassword: string, newPassword: string)

  datatype ResetRequest = ResetRequest(adminUsername: string, targetUsername: string, newPassword: string)

  /** The first rule a password change breaks: the entries differ, or the
      new password is too short. */
  function ChangeProblem(newPassword: string, confirmPassword: string): (r: Option<string>)
    ensures r == Some(PASSWORDS_DO_NOT_MATCH) <==> newPassword != confirmPassword
    ensures r == Some(PASSWORD_TOO_SHORT) <==> newPassword == confirmPassword && Utf16Length(newPassword) < MIN_PASSWORD_LENGTH
    ensures r.None? <==> newPassword == confirmPassword && Utf16Length(newPassword) >= MIN_PASSWORD_LENGTH
  {
    if newPassword != confirmPassword then Some(PASSWORDS_DO_NOT_MATCH)
    else if Utf16Length(newPassword) < MIN_PASSWORD_LENGTH then Some(PASSWORD_TOO_SHORT)
    else None
  }

  /** The first rule a reset breaks: no user chosen, or the password is too
      short. */
  function ResetProblem(selectedUser: string, resetPassword: string): (r: Option<string>)
    ensures r == Some(SELECT_USER_TO_RESET) <==> selectedUser == ""
    ensures r == Some(PASSWORD_TOO_SHORT) <==> selectedUser != "" && Utf16Length(resetPassword) < MIN_PASSWORD_LENGTH
    ensures r.None? <==> selectedUser != "" && Utf16Length(resetPassword) >= MIN_PASSWORD_LENGTH
  {
    if selectedUser == "" then Some(SELECT_USER_TO_RESET)
    else if Utf16Length(resetPassword) < MIN_PASSWORD_LENGTH then Some(PASSWORD_TOO_SHORT)
    else None
  }

  /** The length rule counts UTF-16 units: three characters from U+10000 on
      (three emoji, say) are six units, so such a password is long enough. */
  lemma WidePasswordLongEnough(p: string)
    requires |p| == 3 && forall i :: 0 <= i < |p| ==> (p[i] as int) >= SUPPLEMENTARY_START
    ensures ChangeProblem(p, p).None?
    ensures ResetProblem(ADMIN_USERNAME, p).None?
  {
    Utf16LengthBounds(p);
  }

  function OrElse(s: string, fallback: string): string
  {
    if s != "" then s else fallback
  }

  /** The message after a change request. */
  function ChangeMessage(reply: Reply): (m: Message)
    ensures m.Success? <==> reply.OkReply?
    ensures m.text != ""
  {
    match reply
    case OkReply(_) => Success(PASSWORD_CHANGED_SUCCESS)
    case ErrorReply(e) => Failure(OrElse(e, PASSWORD_CHANGE_FAILED))
    case NoReply => Failure(PASSWORD_CHANGE_FAILED)
  }

  /** The message after a reset request. */
  function ResetMessage(reply: Reply): (m: Message)
    ensures m.Success? <==> reply.OkReply?
    ensures m.text != ""
  {
    match reply
    case OkReply(msg) => Success(OrElse(msg, PASSWORD_RESET_SUCCESS))
    case ErrorReply(e) => Failure(OrElse(e, PASSWORD_RESET_FAILED))
    case NoReply => Failure(PASSWORD_RESET_FAILED)
  }

  function NotNamed(username: string): User -> bool
  {
    (u: User) => u.username != username
  }

  /** The users offered for a reset: everyone except the current user. */
  function ResetTargets(users: seq<User>, currentUsername: string): seq<User>
  {
    Filter(users, NotNamed(currentUsername))
  }

  /** The list offers exactly the other users, in the server's order. */
  lemma ResetTargetsMeaning(users: seq<User>, currentUsername: string)
    ensures forall u :: u in ResetTargets(users, currentUsername) <==> u in users && u.username != currentUsername
    ensures IsSubsequence(ResetTargets(users, currentUsername), users)
  {
    FilterMembers(users, NotNamed(currentUsername));
    FilterIsSubsequence(users, NotNamed(currentUsername));
  }

  /** Only the administrator sees the reset section. */
  predicate ShowsResetSection(currentUsername: string)
  {
    currentUsername == ADMIN_USERNAME
  }

  class Screen {
    const currentUsername: string
    var currentPassword: string
    var newPassword: string
    var confirmPassword: string
    var message: Option<Message>
    var isLoading: bool
    var users: seq<User>
    var selectedUser: string
    var resetPassword: string
    var resetMessage: Option<Message>

    constructor (username: string)
      ensures currentUsername == username
      ensures currentPassword == "" && newPassword == "" && confirmPassword == "" && message.None?
      ensures !isLoading && users == [] && selectedUser == "" && resetPassword == "" && resetMessage.None?
    {
      currentUsername := username;
      currentPassword, newPassword, confirmPassword := "", "", "";
      message := None;
      isLoading := false;
      users := [];
      selectedUser, resetPassword := "", "";
      resetMessage := None;
    }

    /** Typing into the three inputs of the change form. */
    method SetChangeInputs(current: string, next: string, confirm: string)
      modifies this
      ensures currentPassword == current && newPassword == next && confirmPassword == confirm
      ensures message == old(message) && isLoading == old(isLoading) && users == old(users)
      ensures selectedUser == old(selectedUser) && resetPassword == old(resetPassword) && resetMessage == old(resetMessage)
    {
      currentPassword, newPassword, confirmPassword := current, next, confirm;
    }

    /** Choosing the user and typing the password of the reset form. */
    method SetResetInputs(user: string, password: string)
      modifies this
      ensures selectedUser == user && resetPassword == password
      ensures currentPassword == old(currentPassword) && newPassword == old(newPassword)
      ensures confirmPassword == old(confirmPassword) && message == old(message)
      ensures isLoading == old(isLoading) && users == old(users) && resetMessage == old(resetMessage)
    {
      selectedUser, resetPassword := user, password;
    }

    /** `fetchUsers`, run for the administrator only: an ok answer
        replaces the list with the other users; anything else leaves it. */
    method FetchUsers(answer: Option<seq<User>>)
      modifies this
      ensures ShowsResetSection(currentUsername) && answer.Some? ==> users == ResetTargets(answer.value, currentUsername)
      ensures !(ShowsResetSection(currentUsername) && answer.Some?) ==> users == old(users)
      ensures currentPassword == old(currentPassword) && newPassword == old(newPassword)
      ensures confirmPassword == old(confirmPassword) && message == old(message) && isLoading == old(isLoading)
      ensures selectedUser == old(selectedUser) && resetPassword == old(resetPassword) && resetMessage == old(resetMessage)
    {
      if ShowsResetSection(currentUsername) && answer.Some? {
        users := Filter(answer.value, NotNamed(currentUsername));
      }
    }

    /** `handleChangePassword`: the checks in order, with no request when
        one fails; otherwise the request is sent and, when it succeeds,
        the three inputs are cleared. */
    method HandleChangePassword(reply: Reply) returns (sent: Option<ChangeRequest>)
      modifies this
      ensures var problem := ChangeProblem(old(newPassword), old(confirmPassword));
        problem.Some? ==>
          sent.None? && message == Some(Failure(problem.value)) && isLoading == old(isLoading)
          && currentPassword == old(currentPassword) && newPassword == old(newPassword)
          && confirmPassword == old(confirmPassword)
      ensures ChangeProblem(old(newPassword), old(confirmPassword)).None? ==>
          sent == Some(ChangeRequest(currentUsername, old(currentPassword), old(newPassword)))
          && message == Some(ChangeMessage(reply)) && !isLoading
          && (reply.OkReply? ==> currentPassword == "" && newPassword == "" && confirmPassword == "")
          && (!reply.OkReply? ==>
                currentPassword == old(currentPassword) && newPassword == old(newPassword)
                && confirmPassword == old(confirmPassword))
      ensures sent.Some? ==> Utf16Length(sent.value.newPassword) >= MIN_PASSWORD_LENGTH && sent.value.newPassword == old(confirmPassword)
      ensures users == old(users) && selectedUser == old(selectedUser)
      ensures resetPassword == old(resetPassword) && resetMessage == old(resetMessage)
    {
      message := None;
      if newPassword != confirmPassword {
        message := Some(Failure(PASSWORDS_DO_NOT_MATCH));
        return None;
      }
      if Utf16Length(newPassword) < MIN_PASSWORD_LENGTH {
        message := Some(Failure(PASSWORD_TOO_SHORT));
        return None;
      }
      isLoading := true;
      sent := Some(ChangeRequest(currentUsername, currentPassword, newPassword));
      if reply.OkReply? {
        message := Some(Success(PASSWORD_CHANGED_SUCCESS));
        currentPassword, newPassword, confirmPassword := "", "", "";
      } else if reply.ErrorReply? {
        message := Some(Failure(OrElse(reply.error, PASSWORD_CHANGE_FAILED)));
      } else {
        message := Some(Failure(PASSWORD_CHANGE_FAILED));
      }
      isLoading := false;
    }

    /** `handleResetPassword`: a user must be chosen, then the password
        must be long enough; a successful reset clears both inputs. */
    method HandleResetPassword(reply: Reply) returns (sent: Option<ResetRequest>)
      modifies this
      ensures var problem := ResetProblem(old(selectedUser), old(resetPassword));
        problem.Some? ==>
          sent.None? && resetMessage == Some(Failure(problem.value)) && isLoading == old(isLoading)
          && selectedUser == old(selectedUser) && resetPassword == old(resetPassword)
      ensures ResetProblem(old(selectedUser), old(resetPassword)).None? ==>
          sent == Some(ResetRequest(currentUsername, old(selectedUser), old(resetPassword)))
          && resetMessage == Some(ResetMessage(reply)) && !isLoading
          && (reply.OkReply? ==> selectedUser == "" && resetPassword == "")
          && (!reply.OkReply? ==> selectedUser == old(selectedUser) && resetPassword == old(resetPassword))
      ensures sent.Some? ==> sent.value.targetUsername != "" && Utf16Length(sent.value.newPassword) >= MIN_PASSWORD_LENGTH
      ensures currentPassword == old(currentPassword) && newPassword == old(newPassword)
      ensures confirmPassword == old(confirmPassword) && message == old(message) && users == old(users)
    {
      resetMessage := None;
      if selectedUser == "" {
        resetMessage := Some(Failure(SELECT_USER_TO_RESET));
        return None;
      }
      if Utf16Length(resetPassword) < MIN_PASSWORD_LENGTH {
        resetMessage := Some(Failure(PASSWORD_TOO_SHORT));
        return None;
      }
      isLoading := true;
      sent := Some(ResetRequest(currentUsername, selectedUser, resetPassword));
      if reply.OkReply? {
        resetMessage := Some(Success(OrElse(reply.message, PASSWORD_RESET_SUCCESS)));
        selectedUser, resetPassword := "", "";
      } else if reply.ErrorReply? {
        resetMessage := Some(Failure(OrElse(reply.error, PASSWORD_RESET_FAILED)));
      } else {
        resetMessage := Some(Failure(PASSWORD_RESET_FAILED));
      }
      isLoading := false;
    }
  }
}

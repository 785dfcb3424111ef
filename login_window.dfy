/** The message and state choices of the login window
    (Login/login_window.py): which screen comes next, and which complaint a
    sign-up or a new password draws first. */
module LoginWindow {
  import opened Wrappers
  import opened Text
  import opened Sorting
  import opened Users

  const StateLogin: Text := FromString("login")
  const StateSignUp: Text := FromString("sign up")
  const StateForgotPassword: Text := FromString("forgot password")
  const StateQuit: Text := FromString("quit")

  /** The four states are told apart by their first letters. */
  lemma StatesDistinct()
    ensures StateLogin != StateSignUp && StateLogin != StateForgotPassword && StateLogin != StateQuit
    ensures StateSignUp != StateForgotPassword && StateSignUp != StateQuit && StateForgotPassword != StateQuit
  {
    assert StateLogin[0] != StateSignUp[0] && StateLogin[0] != StateForgotPassword[0];
    assert StateLogin[0] != StateQuit[0] && StateSignUp[0] != StateForgotPassword[0];
    assert StateSignUp[0] != StateQuit[0] && StateForgotPassword[0] != StateQuit[0];
  }

  predicate IsWindowState(s: Text)
  {
    s == StateLogin || s == StateSignUp || s == StateForgotPassword || s == StateQuit
  }

  /** The state `set_state(state)` moves to (Login/login_window.py:55-67). */
  function StateAfter(state: Text): Text
  {
    if state == StateLogin then StateLogin
    else if state == StateSignUp then StateSignUp
    else if state == StateForgotPassword then StateForgotPassword
    else StateQuit
  }

  /** `set_state` always lands on one of the four states, and leaves a
      state where it is exactly when it is one of them. */
  lemma StateAfterIsState(state: Text)
    ensures IsWindowState(StateAfter(state))
    ensures StateAfter(state) == state <==> IsWindowState(state)
  {
    StatesDistinct();
  }

  // ---------------------------------------------------------------------
  // Sign-up (Login/login_window.py:212-253)

  const NoUsername: Text := FromString("No username given.")
  /** The sign-up screen's own spelling (Login/login_window.py:237). */
  const SignUpPasswordsDiffer: Text := FromString("Paswords do not match.")
  const AnswersDiffer: Text := FromString("Answers do not match.")
  const NoPassword: Text := FromString("No password given.")
  const NoQuestion: Text := FromString("No security question given.")
  const NoAnswer: Text := FromString("No answer given.")
  const UsernameTaken: Text := FromString("That username is taken.")

  /** The six sign-up complaints are pairwise different. */
  lemma SignUpMessagesDistinct()
    ensures NoUsername != SignUpPasswordsDiffer && NoUsername != AnswersDiffer && NoUsername != NoPassword
    ensures NoUsername != NoQuestion && NoUsername != NoAnswer
    ensures SignUpPasswordsDiffer != AnswersDiffer && SignUpPasswordsDiffer != NoPassword
    ensures SignUpPasswordsDiffer != NoQuestion && SignUpPasswordsDiffer != NoAnswer
    ensures AnswersDiffer != NoPassword && AnswersDiffer != NoQuestion && AnswersDiffer != NoAnswer
    ensures NoPassword != NoQuestion && NoPassword != NoAnswer && NoQuestion != NoAnswer
  {
    assert NoUsername[0] != SignUpPasswordsDiffer[0] && NoUsername[0] != AnswersDiffer[0];
    assert SignUpPasswordsDiffer[0] != AnswersDiffer[0];
    assert SignUpPasswordsDiffer[0] != NoPassword[0] && SignUpPasswordsDiffer[0] != NoQuestion[0];
    assert SignUpPasswordsDiffer[0] != NoAnswer[0];
    assert AnswersDiffer[0] != NoPassword[0] && AnswersDiffer[0] != NoQuestion[0] && AnswersDiffer[0] != NoAnswer[0];
    assert NoUsername[3] != NoPassword[3] && NoUsername[3] != NoQuestion[3] && NoUsername[3] != NoAnswer[3];
    assert NoPassword[3] != NoQuestion[3] && NoPassword[3] != NoAnswer[3] && NoQuestion[3] != NoAnswer[3];
  }

  /** The complaint of the checks `sign_up` makes before it tries
      `add_user`, in their order (Login/login_window.py:234-245); `None`
      when they all pass. */
  function SignUpMessage(u: Text, p1: Text, p2: Text, q: Text, a1: Text, a2: Text): Option<Text>
  {
    if |u| < 1 then Some(NoUsername)
    else if p1 != p2 then Some(SignUpPasswordsDiffer)
    else if a1 != a2 then Some(AnswersDiffer)
    else if |p1| < 1 then Some(NoPassword)
    else if |q| < 1 then Some(NoQuestion)
    else if |a1| < 1 then Some(NoAnswer)
    else None
  }

  /** The checks pass exactly when a username, a password and its repeat,
      a question, and an answer and its repeat are all given. */
  lemma SignUpChecksPass(u: Text, p1: Text, p2: Text, q: Text, a1: Text, a2: Text)
    ensures SignUpMessage(u, p1, p2, q, a1, a2).None? <==>
      u != [] && p1 == p2 && p1 != [] && q != [] && a1 == a2 && a1 != []
  {
  }

  /** What each complaint means: every check before it passed and its own
      failed.  So an empty username is reported before anything else, a
      password mismatch before an answer mismatch, and that before an
      empty password. */
  lemma SignUpMessageMeans(u: Text, p1: Text, p2: Text, q: Text, a1: Text, a2: Text)
    ensures SignUpMessage(u, p1, p2, q, a1, a2) == Some(NoUsername) <==> u == []
    ensures SignUpMessage(u, p1, p2, q, a1, a2) == Some(SignUpPasswordsDiffer) <==> u != [] && p1 != p2
    ensures SignUpMessage(u, p1, p2, q, a1, a2) == Some(AnswersDiffer) <==> u != [] && p1 == p2 && a1 != a2
    ensures SignUpMessage(u, p1, p2, q, a1, a2) == Some(NoPassword) <==> u != [] && p1 == p2 && a1 == a2 && p1 == []
    ensures SignUpMessage(u, p1, p2, q, a1, a2) == Some(NoQuestion) <==>
      u != [] && p1 == p2 && a1 == a2 && p1 != [] && q == []
    ensures SignUpMessage(u, p1, p2, q, a1, a2) == Some(NoAnswer) <==>
      u != [] && p1 == p2 && a1 == a2 && p1 != [] && q != [] && a1 == []
  {
    SignUpMessagesDistinct();
  }

  // ---------------------------------------------------------------------
  // A new password (Login/login_window.py:447-471)

  /** The forgotten-password screen's spelling. */
  const PasswordsDiffer: Text := FromString("Passwords do not match.")

  /** The complaint of `set_password`: an empty password before a
      mismatch; `None` when the password is accepted. */
  function PasswordMessage(p1: Text, p2: Text): Option<Text>
  {
    if |p1| < 1 then Some(NoPassword)
    else if p1 != p2 then Some(PasswordsDiffer)
    else None
  }

  /** A new password is accepted exactly when it is given and repeated. */
  lemma PasswordMessageMeans(p1: Text, p2: Text)
    ensures PasswordMessage(p1, p2).None? <==> p1 != [] && p1 == p2
    ensures PasswordMessage(p1, p2) == Some(NoPassword) <==> p1 == []
    ensures PasswordMessage(p1, p2) == Some(PasswordsDiffer) <==> p1 != [] && p1 != p2
  {
    assert NoPassword[0] != PasswordsDiffer[0];
  }

  /** `Window` (Login/login_window.py:10-53) without its widgets: the
      state, the message shown in red, the user list it signs users up
      to, and the user the game was loaded for, if any. */
  class Window {
    var windowState: Text
    var message: Option<Text>
    const users: UserList
    var loadedUser: Option<Text>

    constructor(users: UserList)
      ensures this.users == users
      ensures windowState == StateLogin && message == None && loadedUser == None
    {
      this.users := users;
      windowState := StateLogin;
      message := None;
      loadedUser := None;
    }

    /** `set_state(state)` (Login/login_window.py:55-67) */
    method SetState(state: Text)
      modifies this
      ensures windowState == StateAfter(state) && message == None
      ensures loadedUser == old(loadedUser)
    {
      if state == StateLogin {
        windowState := StateLogin;
      } else if state == StateSignUp {
        windowState := StateSignUp;
      } else if state == StateForgotPassword {
        windowState := StateForgotPassword;
      } else {
        windowState := StateQuit;
      }
      message := None;
    }

    /** `sign_up` (Login/login_window.py:212-253): a failed check sets its
        complaint and changes nothing else; a taken username is reported
        after `add_user` refuses it; otherwise the new user is added, the
        game is loaded for them and the window quits. */
    method SignUp(u: Text, p1: Text, p2: Text, q: Text, a1: Text, a2: Text)
      modifies this, users
      ensures SignUpMessage(u, p1, p2, q, a1, a2).Some? ==>
        && message == SignUpMessage(u, p1, p2, q, a1, a2)
        && users.list == old(users.list) && windowState == old(windowState) && loadedUser == old(loadedUser)
      ensures SignUpMessage(u, p1, p2, q, a1, a2).None? && old(users.Search(u)).Some? ==>
        && message == Some(UsernameTaken)
        && users.list == old(users.list) && windowState == old(windowState) && loadedUser == old(loadedUser)
      ensures SignUpMessage(u, p1, p2, q, a1, a2).None? && old(users.Search(u)).None? ==>
        && users.list == MergeSort(old(users.list) + [NewUser(u, p1, q, a1)], ByUsername())
        && windowState == StateQuit && loadedUser == Some(u) && message == old(message)
      ensures windowState == StateQuit ==> old(windowState) == StateQuit || loadedUser == Some(u)
    {
      var complaint := SignUpMessage(u, p1, p2, q, a1, a2);
      if complaint.Some? {
        message := complaint;
        return;
      }
      var added := users.AddUser(u, p1, q, a1);
      if !added {
        message := Some(UsernameTaken);
      } else {
        loadedUser := Some(u);
        windowState := StateQuit;
      }
    }

    /** `set_password` (Login/login_window.py:447-471): a complaint keeps
        the screen and the users as they were; an accepted password is
        stored for the user and the window goes back to the login screen. */
    method SetPassword(u: Text, p1: Text, p2: Text)
      modifies this, users
      ensures PasswordMessage(p1, p2).Some? ==>
        message == PasswordMessage(p1, p2) && users.list == old(users.list) && windowState == old(windowState)
      ensures PasswordMessage(p1, p2).None? ==>
        && message == None && windowState == StateLogin
        && (old(users.Search(u)).None? ==> users.list == old(users.list))
        && (old(users.Search(u)).Some? ==>
              var p := old(users.Search(u)).value;
              users.list == old(users.list)[p := old(users.list)[p].(password := Encrypt(p1))])
      ensures loadedUser == old(loadedUser)
    {
      var complaint := PasswordMessage(p1, p2);
      if complaint.Some? {
        message := complaint;
        return;
      }
      users.ChangePassword(u, p1);
      message := None;
      windowState := StateLogin;
    }
  }
}

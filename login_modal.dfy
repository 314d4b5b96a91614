/** The log-in dialog (app/components/LoginModal.tsx): a presence check, then a simulated login. */
module LoginForm {
  import opened Types

  const ALL_REQUIRED: string := "All fields are required."

  /** `handleLogin`'s only check: the message when it fails, or None. */
  function Validate(email: string, password: string): (r: Option<string>)
    ensures r.None? <==> email != "" && password != ""
    ensures r.Some? ==> r.value == ALL_REQUIRED
  {
    if email == "" || password == "" then Some(ALL_REQUIRED) else None
  }

  /** The callbacks the dialog invokes on its parent. */
  datatype Callback = LoginSuccess(email: string) | Close

  class LoginModal {
    var email: string
    var password: string
    var error: string

    constructor ()
      ensures email == "" && password == "" && error == ""
    {
      email, password, error := "", "", "";
    }

    /** `handleLogin`: the error is cleared; a missing field sets the message and changes nothing
        else; otherwise the parent hears of the email, the fields are cleared and the dialog
        closes. */
    method HandleLogin() returns (callbacks: seq<Callback>)
      modifies this
      ensures var v := Validate(old(email), old(password));
              && (v.Some? ==> error == v.value && callbacks == []
                              && email == old(email) && password == old(password))
              && (v.None? ==> error == "" && callbacks == [LoginSuccess(old(email)), Close]
                              && email == "" && password == "")
    {
      error := "";
      var v := Validate(email, password);
      if v.Some? {
        error := v.value;
        return [];
      }
      callbacks := [LoginSuccess(email)];
      email, password := "", "";
      callbacks := callbacks + [Close];
    }

    /** `handleClose`: the error and both fields are reset before the dialog closes. */
    method HandleClose() returns (callbacks: seq<Callback>)
      modifies this
      ensures error == "" && email == "" && password == ""
      ensures callbacks == [Close]
    {
      error, email, password := "", "", "";
      callbacks := [Close];
    }
  }
}

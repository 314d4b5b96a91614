/** The sign-up dialog (app/components/SignupModal.tsx): its ordered chain of checks, the loose
    email pattern `\S+@\S+\.\S+`, and the form state its handlers reset. */
module SignupForm {
  import opened Types
  import opened JsText

  const ALL_REQUIRED: string := "All fields are required."
  const TOO_SHORT: string := "Password must be at least 6 characters long."
  const MISMATCH: string := "Passwords do not match."
  const INVALID_EMAIL: string := "Please enter a valid email address."
  const MIN_PASSWORD_LENGTH: nat := 6

  /** `s[i..j]` reads `u@v.w` with non-empty runs `u`, `v`, `w` of non-whitespace characters; the
      runs may themselves contain `@` and `.`. */
  ghost predicate EmailMatchAt(s: string, i: nat, at: nat, dot: nat, j: nat) {
    && i < at && at + 1 < dot && dot + 1 < j <= |s|
    && s[at] == '@' && s[dot] == '.'
    && NoWhitespace(s[i..at]) && NoWhitespace(s[at + 1..dot]) && NoWhitespace(s[dot + 1..j])
  }

  /** `/\S+@\S+\.\S+/.test(s)`: the pattern is not anchored, so it matches anywhere in `s`. */
  ghost predicate LooseEmail(s: string) {
    exists i: nat, at: nat, dot: nat, j: nat :: EmailMatchAt(s, i, at, dot, j)
  }

  /** A `.` at `d` ends a run of non-whitespace that starts at `k`, and a non-whitespace follows. */
  predicate DotEndsRun(s: string, k: nat, d: nat) {
    k <= d && d + 1 < |s| && NoWhitespace(s[k..d]) && s[d] == '.' && !IsWhitespace(s[d + 1])
  }

  /** The first such `.` scanning from `k`, if the run from `k` reaches one. */
  function FindDot(s: string, k: nat): (r: Option<nat>)
    requires k <= |s|
    ensures r.Some? ==> DotEndsRun(s, k, r.value)
    ensures r.None? ==> forall d :: k <= d < |s| ==> !DotEndsRun(s, k, d)
    decreases |s| - k
  {
    if k == |s| then None
    else if s[k] == '.' && k + 1 < |s| && !IsWhitespace(s[k + 1]) then Some(k)
    else if IsWhitespace(s[k]) then
      assert forall d :: k < d < |s| ==> s[k..d][0] == s[k];
      None
    else
      var r := FindDot(s, k + 1);
      if r.Some? then
        assert s[k..r.value] == [s[k]] + s[k + 1..r.value];
        r
      else
        assert forall d :: k < d < |s| && DotEndsRun(s, k, d) ==> DotEndsRun(s, k + 1, d) by {
          forall d | k < d < |s| && DotEndsRun(s, k, d)
            ensures DotEndsRun(s, k + 1, d)
          {
            assert s[k + 1..d] == s[k..d][1..];
          }
        }
        r
  }

  /** An `@` at `at` with a non-whitespace character on either side, followed by a dotted run. */
  predicate AtStartsEmail(s: string, at: nat) {
    0 < at && at + 2 <= |s| && s[at] == '@' && !IsWhitespace(s[at - 1]) && !IsWhitespace(s[at + 1])
    && FindDot(s, at + 2).Some?
  }

  /** Whether some position from `a` on starts a match. */
  function EmailFrom(s: string, a: nat): (r: bool)
    ensures r <==> exists at :: a <= at < |s| && AtStartsEmail(s, at)
    decreases |s| - a
  {
    if a >= |s| then false else AtStartsEmail(s, a) || EmailFrom(s, a + 1)
  }

  /** The executable test of the email pattern. */
  function MatchesEmail(s: string): bool {
    EmailFrom(s, 0)
  }

  /** The scanner decides exactly the pattern: both directions. */
  lemma MatchesEmailIsLooseEmail(s: string)
    ensures MatchesEmail(s) <==> LooseEmail(s)
  {
    if MatchesEmail(s) {
      var at :| 0 <= at < |s| && AtStartsEmail(s, at);
      var dot := FindDot(s, at + 2).value;
      assert s[at + 1..dot] == [s[at + 1]] + s[at + 2..dot];
      assert s[at - 1..at] == [s[at - 1]];
      assert s[dot + 1..dot + 2] == [s[dot + 1]];
      assert EmailMatchAt(s, at - 1, at, dot, dot + 2);
    }
    if LooseEmail(s) {
      var i: nat, at: nat, dot: nat, j: nat :| EmailMatchAt(s, i, at, dot, j);
      assert s[at - 1] == s[i..at][at - 1 - i];
      assert s[at + 1] == s[at + 1..dot][0];
      assert s[dot + 1] == s[dot + 1..j][0];
      assert s[at + 2..dot] == s[at + 1..dot][1..];
      assert DotEndsRun(s, at + 2, dot);
      assert AtStartsEmail(s, at);
    }
  }

  /** The pattern is loose: the match may start after a space, and only a dotted domain is
      demanded. */
  lemma EmailExamples()
    ensures LooseEmail("see me@home.now")
    ensures !LooseEmail("ada@doodle")
  {
    var s := "see me@home.now";
    assert s[4..6] == "me" && s[7..11] == "home" && s[12..15] == "now";
    assert EmailMatchAt(s, 4, 6, 11, 15);
    var t := "ada@doodle";
    assert forall k :: 0 <= k < |t| ==> t[k] != '.';
  }

  /** `handleSignup`'s checks in their order: the message of the first that fails, or None. */
  function Validate(email: string, password: string, confirmPassword: string): (r: Option<string>)
    ensures email == "" || password == "" || confirmPassword == "" ==> r == Some(ALL_REQUIRED)
    ensures email != "" && password != "" && confirmPassword != "" && |password| < MIN_PASSWORD_LENGTH ==>
              r == Some(TOO_SHORT)
    ensures (email != "" && confirmPassword != "" && |password| >= MIN_PASSWORD_LENGTH
             && password != confirmPassword) ==> r == Some(MISMATCH)
    ensures (email != "" && |password| >= MIN_PASSWORD_LENGTH && password == confirmPassword
             && !LooseEmail(email)) ==> r == Some(INVALID_EMAIL)
    ensures r.None? <==> email != "" && |password| >= MIN_PASSWORD_LENGTH && password == confirmPassword
                         && LooseEmail(email)
  {
    MatchesEmailIsLooseEmail(email);
    if email == "" || password == "" || confirmPassword == "" then Some(ALL_REQUIRED)
    else if |password| < MIN_PASSWORD_LENGTH then Some(TOO_SHORT)
    else if password != confirmPassword then Some(MISMATCH)
    else if !MatchesEmail(email) then Some(INVALID_EMAIL)
    else None
  }

  /** The callbacks the dialog invokes on its parent. */
  datatype Callback = SignupSuccess(email: string) | Close

  class SignupModal {
    var email: string
    var password: string
    var confirmPassword: string
    var error: string

    constructor ()
      ensures email == "" && password == "" && confirmPassword == "" && error == ""
    {
      email, password, confirmPassword, error := "", "", "", "";
    }

    /** `handleSignup`: the error is cleared, then set by the first failing check, which leaves
        the fields as typed; when all pass, the parent hears of the email, the fields are cleared
        and the dialog closes. */
    method HandleSignup() returns (callbacks: seq<Callback>)
      modifies this
      ensures var v := Validate(old(email), old(password), old(confirmPassword));
              && (v.Some? ==> error == v.value && callbacks == []
                              && email == old(email) && password == old(password)
                              && confirmPassword == old(confirmPassword))
              && (v.None? ==> error == "" && callbacks == [SignupSuccess(old(email)), Close]
                              && email == "" && password == "" && confirmPassword == "")
    {
      error := "";
      var v := Validate(email, password, confirmPassword);
      if v.Some? {
        error := v.value;
        return [];
      }
      callbacks := [SignupSuccess(email)];
      email, password, confirmPassword := "", "", "";
      callbacks := callbacks + [Close];
    }

    /** `handleClose`: everything is reset before the dialog closes. */
    method HandleClose() returns (callbacks: seq<Callback>)
      modifies this
      ensures error == "" && email == "" && password == "" && confirmPassword == ""
      ensures callbacks == [Close]
    {
      error, email, password, confirmPassword := "", "", "", "";
      callbacks := [Close];
    }
  }
}

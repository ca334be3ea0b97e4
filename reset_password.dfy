/** The reset-password page (src/app/auth/reset-password/page.tsx): check the
    link's token against the stored users when the page loads, then, on
    submit, check the two passwords and redeem the token. */
module ResetPassword {
  import opened Values
  import opened ForgotPassword

  /** What the page shows after its token check. */
  datatype TokenCheck = InvalidLink | ExpiredOrInvalid | ValidToken

  const PasswordMismatch: string := "Passwords do not match"
  const PasswordTooShort: string := "Password must be at least 6 characters long"

  /** The index of the first stored user holding `token`, starting at `from`. */
  function FirstHolderFrom(users: seq<StoredUser>, token: string, from: nat): (r: Option<nat>)
    decreases |users| - from
    ensures r.Some? ==> from <= r.value < |users| && users[r.value].resetToken == Some(token)
    ensures r.Some? ==> forall j :: from <= j < r.value ==> users[j].resetToken != Some(token)
    ensures r.None? ==> forall j :: from <= j < |users| ==> users[j].resetToken != Some(token)
  {
    if from >= |users| then None
    else if users[from].resetToken == Some(token) then Some(from)
    else FirstHolderFrom(users, token, from + 1)
  }

  /** `users.find(u => u.resetToken === token)`, as an index. */
  function FirstHolder(users: seq<StoredUser>, token: string): (r: Option<nat>)
    ensures r.Some? ==> r.value < |users| && users[r.value].resetToken == Some(token)
    ensures r.Some? ==> forall j :: 0 <= j < r.value ==> users[j].resetToken != Some(token)
    ensures r.None? <==> forall j :: 0 <= j < |users| ==> users[j].resetToken != Some(token)
  {
    FirstHolderFrom(users, token, 0)
  }

  /** A reset expiry read with `!`: absent, null and 0 are falsy. */
  predicate HasExpiry(e: Option<int>)
  {
    e.Some? && e.value != 0
  }

  /** The effect hook run on load: a missing or empty token is an invalid link;
      otherwise the first user holding the token must have an expiry that `now`
      has not passed. */
  function CheckToken(users: seq<StoredUser>, token: Option<string>, now: int): (r: TokenCheck)
    ensures r == InvalidLink <==> FalsyString(token)
    ensures r == ValidToken <==>
              !FalsyString(token) && FirstHolder(users, token.value).Some?
              && var u := users[FirstHolder(users, token.value).value];
                 HasExpiry(u.resetExpiry) && now <= u.resetExpiry.value
  {
    if FalsyString(token) then InvalidLink
    else match FirstHolder(users, token.value)
      case None => ExpiredOrInvalid
      case Some(k) =>
        if !HasExpiry(users[k].resetExpiry) || now > users[k].resetExpiry.value then ExpiredOrInvalid
        else ValidToken
  }

  function Redeemed(u: StoredUser, token: string, password: string): StoredUser
  {
    if u.resetToken == Some(token) then u.(password := password, resetToken := None, resetExpiry := None) else u
  }

  /** `handleSubmit`: the passwords must match, then be at least six characters
      long; `Ok(list)` is the list written back to storage. It does not
      re-check the expiry: that was checked when the page loaded. */
  function ResetSubmit(users: seq<StoredUser>, token: string, password: string, confirm: string)
    : (r: Result<seq<StoredUser>>)
    ensures password != confirm ==> r == Err(PasswordMismatch)
    ensures password == confirm && |password| < 6 ==> r == Err(PasswordTooShort)
    ensures r.Ok? <==> password == confirm && |password| >= 6
    ensures r.Ok? ==> |r.value| == |users|
    ensures r.Ok? ==> forall i :: 0 <= i < |users| && users[i].resetToken == Some(token) ==>
                        r.value[i] == users[i].(password := password, resetToken := None, resetExpiry := None)
    ensures r.Ok? ==> forall i :: 0 <= i < |users| && users[i].resetToken != Some(token) ==>
                        r.value[i] == users[i]
  {
    if password != confirm then Err(PasswordMismatch)
    else if |password| < 6 then Err(PasswordTooShort)
    else Ok(seq(|users|, i requires 0 <= i < |users| => Redeemed(users[i], token, password)))
  }

  /** A redeemed token is gone: the same link no longer passes the check, at any time. */
  lemma {:induction false} RedeemIsSingleUse(users: seq<StoredUser>, token: string, password: string, now: int)
    requires ResetSubmit(users, token, password, password).Ok?
    ensures CheckToken(ResetSubmit(users, token, password, password).value, Some(token), now) != ValidToken
  {
    var after := ResetSubmit(users, token, password, password).value;
    forall j | 0 <= j < |after|
      ensures after[j].resetToken != Some(token)
    {
    }
    assert token != "" ==> FirstHolder(after, token).None?;
  }

  /** Issue then redeem: if nobody held the fresh token before, a link opened
      within the hour passes the check, and submitting a matching password of
      six or more characters gives every account with that email the new
      password and clears its token; everyone else is left as they were. */
  lemma {:induction false} IssueThenReset(users: seq<StoredUser>, email: string, token: string, now: int,
                                          later: int, password: string)
    requires HasAccount(users, email)
    requires token != "" && forall j :: 0 <= j < |users| ==> users[j].resetToken != Some(token)
    requires 0 <= now <= later <= now + ResetWindow
    requires |password| >= 6
    ensures IssueResetToken(users, email, token, now).Ok?
    ensures var issued := IssueResetToken(users, email, token, now).value;
            && CheckToken(issued, Some(token), later) == ValidToken
            && ResetSubmit(issued, token, password, password).Ok?
            && var reset := ResetSubmit(issued, token, password, password).value;
               && |reset| == |users|
               && (forall i :: 0 <= i < |users| && users[i].email == email ==>
                     reset[i] == users[i].(password := password, resetToken := None, resetExpiry := None))
               && (forall i :: 0 <= i < |users| && users[i].email != email ==> reset[i] == users[i])
  {
    var issued := IssueResetToken(users, email, token, now).value;
    var u :| u in users && u.email == email;
    var k :| 0 <= k < |users| && users[k] == u;
    assert issued[k].resetToken == Some(token);
    var h := FirstHolder(issued, token);
    assert h.Some?;
    assert issued[h.value].resetToken == Some(token);
    assert users[h.value].email == email;
    var reset := ResetSubmit(issued, token, password, password).value;
    forall i | 0 <= i < |users| && users[i].email != email
      ensures reset[i] == users[i]
    {
      assert issued[i] == users[i];
    }
  }
}

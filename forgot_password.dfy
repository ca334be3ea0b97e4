/** The forgot-password page (src/app/auth/forgot-password/page.tsx): issue a
    reset token, valid for one hour, to every stored user with the entered
    email. The stored user list, the clock and the random token are inputs. */
module ForgotPassword {
  import opened Values

  /** A user record as kept in the browser's `users` storage entry. A reset
      token or expiry that is absent or null is `None`. */
  datatype StoredUser = StoredUser(id: int, name: string, email: string, password: string,
                                   resetToken: Option<string>, resetExpiry: Option<int>)

  /** A reset link stays valid for one hour, in milliseconds. */
  const ResetWindow: int := 3600000

  const NoAccount: string := "No account found with this email address"

  predicate HasAccount(users: seq<StoredUser>, email: string)
  {
    exists u :: u in users && u.email == email
  }

  function Stamp(u: StoredUser, email: string, token: string, now: int): StoredUser
  {
    if u.email == email then u.(resetToken := Some(token), resetExpiry := Some(now + ResetWindow)) else u
  }

  /** `handleSubmit`: `Err` leaves storage untouched and shows the message;
      `Ok(list)` is the list written back to storage, after which success is shown. */
  function IssueResetToken(users: seq<StoredUser>, email: string, token: string, now: int)
    : (r: Result<seq<StoredUser>>)
    ensures r.Err? <==> !HasAccount(users, email)
    ensures r.Err? ==> r.error == NoAccount
    ensures r.Ok? ==> |r.value| == |users|
    ensures r.Ok? ==> forall i :: 0 <= i < |users| && users[i].email == email ==>
                        r.value[i] == users[i].(resetToken := Some(token), resetExpiry := Some(now + ResetWindow))
    ensures r.Ok? ==> forall i :: 0 <= i < |users| && users[i].email != email ==> r.value[i] == users[i]
  {
    if !HasAccount(users, email) then Err(NoAccount)
    else Ok(seq(|users|, i requires 0 <= i < |users| => Stamp(users[i], email, token, now)))
  }

  /** Asking again for the same email replaces the earlier token and expiry:
      only the last request counts. */
  lemma {:induction false} ReissueOverwrites(users: seq<StoredUser>, email: string,
                                             token1: string, now1: int, token2: string, now2: int)
    requires HasAccount(users, email)
    ensures IssueResetToken(users, email, token1, now1).Ok?
    ensures IssueResetToken(IssueResetToken(users, email, token1, now1).value, email, token2, now2)
            == IssueResetToken(users, email, token2, now2)
  {
    var first := IssueResetToken(users, email, token1, now1).value;
    var u :| u in users && u.email == email;
    var k :| 0 <= k < |users| && users[k] == u;
    assert first[k].email == email;
    assert HasAccount(first, email);
    var again := IssueResetToken(first, email, token2, now2).value;
    var direct := IssueResetToken(users, email, token2, now2).value;
    assert |again| == |direct|;
    forall i | 0 <= i < |users|
      ensures again[i] == direct[i]
    {
      assert first[i].email == users[i].email;
    }
    assert again == direct;
  }
}

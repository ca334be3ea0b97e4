/** The email-verification page (src/app/auth/verify-email/page.tsx): the code
    field keeps at most six digits, the submit button and handler insist on
    exactly six, and a page opened without a code id sends the visitor back
    to sign-up. */
module VerifyEmail {
  import opened Values
  import opened Strings
  import opened Seqs

  const CodeLength: nat := 6
  const CodeLengthError: string := "Verification code must be 6 digits"

  /** The effect hook: where the page navigates to when it loads. */
  function OnLoad(codeId: Option<string>): (r: Option<string>)
    ensures r.Some? <==> FalsyString(codeId)
    ensures r.Some? ==> r.value == "/auth/signup"
  {
    if FalsyString(codeId) then Some("/auth/signup") else None
  }

  /** `handleCodeChange`: drop every character but 0-9, then keep the first six. */
  function Sanitize(input: string): (r: string)
    ensures |r| <= CodeLength
    ensures forall k :: 0 <= k < |r| ==> IsDigit(r[k])
    ensures |r| == if |Filter(IsDigit, input)| < CodeLength then |Filter(IsDigit, input)| else CodeLength
    ensures r == Filter(IsDigit, input)[..|r|]
  {
    var digits := Filter(IsDigit, input);
    if |digits| <= CodeLength then digits else digits[..CodeLength]
  }

  /** A code of at most six digits is left as it is. */
  lemma {:induction false} ShortCodeUnchanged(code: string)
    requires |code| <= CodeLength && forall k :: 0 <= k < |code| ==> IsDigit(code[k])
    ensures Sanitize(code) == code
  {
    FilterAllPass(IsDigit, code);
  }

  /** Sanitising twice is sanitising once. */
  lemma {:induction false} SanitizeIdempotent(input: string)
    ensures Sanitize(Sanitize(input)) == Sanitize(input)
  {
    ShortCodeUnchanged(Sanitize(input));
  }

  /** Typing a character that is not a digit changes nothing. */
  lemma {:induction false} NonDigitIgnored(input: string, c: char)
    requires !IsDigit(c)
    ensures Sanitize(input + [c]) == Sanitize(input)
  {
    FilterSnoc(IsDigit, input, c);
  }

  /** Typing a digit appends it while fewer than six digits are present, and
      is ignored once six are. */
  lemma {:induction false} DigitTyped(input: string, c: char)
    requires IsDigit(c)
    ensures |Sanitize(input)| < CodeLength ==> Sanitize(input + [c]) == Sanitize(input) + [c]
    ensures |Sanitize(input)| == CodeLength ==> Sanitize(input + [c]) == Sanitize(input)
  {
    FilterSnoc(IsDigit, input, c);
    var d := Filter(IsDigit, input);
    if |d| >= CodeLength {
      assert (d + [c])[..CodeLength] == d[..CodeLength];
    }
  }

  /** The submit button's `disabled` attribute. */
  predicate ButtonDisabled(loading: bool, code: string)
  {
    loading || |code| != CodeLength
  }

  /** What `handleSubmit` does before any network traffic: refuse with the
      length message, or send the `verify` request with the trimmed code. */
  datatype Submission = Refused(error: string) | Send(action: string, codeId: Option<string>, code: string)

  function SubmitCode(code: string, codeId: Option<string>): (r: Submission)
    ensures r.Refused? <==> |Trim(code)| != CodeLength
    ensures r.Refused? ==> r.error == CodeLengthError
    ensures r.Send? ==> r == Send("verify", codeId, Trim(code)) && |r.code| == CodeLength
  {
    var clean := Trim(code);
    if |clean| != CodeLength then Refused(CodeLengthError) else Send("verify", codeId, clean)
  }

  /** Whenever the button is enabled for a code typed into the field, pressing
      it sends exactly that code. */
  lemma {:induction false} EnabledButtonSendsCode(input: string, codeId: Option<string>)
    requires !ButtonDisabled(false, Sanitize(input))
    ensures SubmitCode(Sanitize(input), codeId) == Send("verify", codeId, Sanitize(input))
  {
    var code := Sanitize(input);
    assert !IsSpace(code[0]) && !IsSpace(code[|code| - 1]) by {
      assert IsDigit(code[0]) && IsDigit(code[|code| - 1]);
    }
    TrimOfTrimmed(code);
  }
}

/** The sign-up form (src/components/auth/Registration.tsx): the password
    rule, the ordered input checks, and what each server reply leads to. */
module Registration {
  import opened Common
  import opened Types
  import opened Strings

  /** Some character of `s` lies in `lo..hi`, scanning from the left. */
  predicate HasCharIn(s: string, lo: char, hi: char)
    decreases |s|
  {
    s != [] && ((lo <= s[0] && s[0] <= hi) || HasCharIn(s[1..], lo, hi))
  }

  lemma {:induction false} HasCharInSpec(s: string, lo: char, hi: char)
    ensures HasCharIn(s, lo, hi) <==> exists i :: 0 <= i < |s| && lo <= s[i] <= hi
    decreases |s|
  {
    if s != [] {
      HasCharInSpec(s[1..], lo, hi);
      if exists i :: 0 <= i < |s| && lo <= s[i] <= hi {
        var i :| 0 <= i < |s| && lo <= s[i] <= hi;
        if i > 0 {
          assert s[1..][i - 1] == s[i];
        }
      }
    }
  }

  /** `validatePassword`: `/[a-z]/` and `/[0-9]/` both match. */
  function ValidatePassword(p: string): (ok: bool)
    ensures ok <==> (exists i :: 0 <= i < |p| && 'a' <= p[i] <= 'z') && (exists j :: 0 <= j < |p| && '0' <= p[j] <= '9')
  {
    HasCharInSpec(p, 'a', 'z');
    HasCharInSpec(p, '0', '9');
    HasCharIn(p, 'a', 'z') && HasCharIn(p, '0', '9')
  }

  /** There is no length rule and upper case does not count. */
  lemma PasswordExamples()
    ensures ValidatePassword("a1")
    ensures !ValidatePassword("A1")
    ensures !ValidatePassword("abcdefgh")
  {
    assert "a1"[0] == 'a' && "a1"[1] == '1';
    assert "abcdefgh"[..] == "abcdefgh";
  }

  /** Adding characters around a valid password keeps it valid. */
  lemma PasswordMonotone(p: string, before: string, after: string)
    requires ValidatePassword(p)
    ensures ValidatePassword(before + p + after)
  {
    var q := before + p + after;
    var i :| 0 <= i < |p| && 'a' <= p[i] <= 'z';
    var j :| 0 <= j < |p| && '0' <= p[j] <= '9';
    assert q[|before| + i] == p[i] && q[|before| + j] == p[j];
  }

  /** The three early-return checks, in order; the first failure is the only
      message. */
  function InputError(userName: string, email: string, password: string): (e: Option<string>)
    ensures IsBlank(userName) ==> e == Some("Username is required")
    ensures !IsBlank(userName) && (IsBlank(email) || '@' !in email) ==> e == Some("Please enter a valid email address")
    ensures !IsBlank(userName) && !IsBlank(email) && '@' in email && !ValidatePassword(password) ==>
      e == Some("Password must include a character and a number")
    ensures e == None <==> !IsBlank(userName) && !IsBlank(email) && '@' in email && ValidatePassword(password)
  {
    if IsBlank(userName) then Some("Username is required")
    else if IsBlank(email) || '@' !in email then Some("Please enter a valid email address")
    else if !ValidatePassword(password) then Some("Password must include a character and a number")
    else None
  }

  /** The email check asks for nothing but an '@': "@" itself passes. */
  lemma AtSignSuffices()
    ensures InputError("u", "@", "a1") == None
  {
    assert !IsBlank("u") by {
      BlankIffAllWhitespace("u");
      assert !IsJsWhitespace("u"[0]);
    }
    assert !IsBlank("@") by {
      BlankIffAllWhitespace("@");
      assert !IsJsWhitespace("@"[0]);
    }
    assert '@' in "@" by { assert "@"[0] == '@'; }
    assert ValidatePassword("a1") by { PasswordExamples(); }
  }

  /** `{ userName, email, password }`, untrimmed. */
  datatype SignUpRequest = SignUpRequest(userName: string, email: string, password: string)

  /** How the sign-up call ended: it threw, or it resolved with an envelope. */
  datatype Reply = Thrown | Resolved(response: ApiResponse<()>)

  datatype Toast = SuccessToast(text: string) | ErrorToast(text: string)

  /** `response.error?.description || "Registration failed"`. */
  function FailureMessage(r: ApiResponse<()>): (m: string)
    ensures m != ""
    ensures r.error.Some? && r.error.value.description.Some? && r.error.value.description.value != "" ==>
      m == r.error.value.description.value
  {
    if r.error.Some? && r.error.value.description.Some? && r.error.value.description.value != ""
    then r.error.value.description.value
    else "Registration failed"
  }

  /** `handleSubmit`: a failed check shows its message and sends nothing;
      otherwise the request goes out and the reply decides the toast and
      whether to go to /login. */
  method HandleSubmit(userName: string, email: string, password: string, reply: Reply)
    returns (request: Option<SignUpRequest>, toast: Toast, navigateTo: Option<string>)
    ensures var err := InputError(userName, email, password);
      if err.Some? then request == None && toast == ErrorToast(err.value) && navigateTo == None
      else
        && request == Some(SignUpRequest(userName, email, password))
        && match reply
           case Thrown => toast == ErrorToast("An unexpected error occurred") && navigateTo == None
           case Resolved(response) =>
             if response.isSuccess then toast == SuccessToast("Registration successful!") && navigateTo == Some("/login")
             else toast == ErrorToast(FailureMessage(response)) && navigateTo == None
  {
    var err := InputError(userName, email, password);
    if err.Some? {
      return None, ErrorToast(err.value), None;
    }
    request := Some(SignUpRequest(userName, email, password));
    navigateTo := None;
    match reply {
      case Thrown =>
        toast := ErrorToast("An unexpected error occurred");
      case Resolved(response) =>
        if response.isSuccess {
          toast := SuccessToast("Registration successful!");
          navigateTo := Some("/login");
        } else {
          toast := ErrorToast(FailureMessage(response));
        }
    }
  }
}

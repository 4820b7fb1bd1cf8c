/** The user account rules: the login lock-out state machine, the phone
    number pattern, the username and password bounds, and the `fullName`
    virtual. Dates are milliseconds since the epoch; `now` is the clock. */
module UserModel {
  import opened Wrappers
  import opened Text
  import opened Schema

  // ---------------------------------------------------------------------------
  // Login lock-out
  // ---------------------------------------------------------------------------

  /** The two fields the lock-out rules read and write. An unset
      `loginAttempts` reads as its default, 0. */
  datatype LoginState = LoginState(loginAttempts: int, lockUntil: Option<int>)

  const MaxLoginAttempts := 5
  const LockMillis := 2 * 60 * 60 * 1000

  /** `isLocked`: a lock is set and lies in the future. */
  predicate IsLocked(s: LoginState, now: int) {
    s.lockUntil.Some? && s.lockUntil.value > now
  }

  /** A lock is set and lies strictly in the past. A lock that ends exactly
      now is neither expired nor in force. */
  predicate LockExpired(s: LoginState, now: int) {
    s.lockUntil.Some? && s.lockUntil.value < now
  }

  /** `incLoginAttempts`, the update a failed login applies. */
  function IncLoginAttempts(s: LoginState, now: int): (r: LoginState)
    ensures LockExpired(s, now) ==> r == LoginState(1, None)
    ensures !LockExpired(s, now) ==> r.loginAttempts == s.loginAttempts + 1
    ensures (!LockExpired(s, now) && (IsLocked(s, now) || s.loginAttempts + 1 < MaxLoginAttempts))
              ==> r.lockUntil == s.lockUntil
    ensures (!LockExpired(s, now) && !IsLocked(s, now) && s.loginAttempts + 1 >= MaxLoginAttempts)
              ==> r.lockUntil == Some(now + LockMillis)
  {
    if LockExpired(s, now) then LoginState(1, None)
    else if s.loginAttempts + 1 >= MaxLoginAttempts && !IsLocked(s, now) then
      LoginState(s.loginAttempts + 1, Some(now + LockMillis))
    else LoginState(s.loginAttempts + 1, s.lockUntil)
  }

  /** `resetLoginAttempts`: both fields unset. */
  function ResetLoginAttempts(s: LoginState): (r: LoginState)
    ensures forall now :: !IsLocked(r, now)
    ensures r.loginAttempts == 0
  {
    LoginState(0, None)
  }

  /** The state after a failed login at each of the given times, in order. */
  function FailAll(s: LoginState, times: seq<int>): LoginState
    decreases |times|
  {
    if |times| == 0 then s else FailAll(IncLoginAttempts(s, times[0]), times[1..])
  }

  /** Failures while the lock is in force count but never move the lock. */
  lemma {:induction false} LockedFailuresKeepLock(s: LoginState, times: seq<int>)
    requires forall k :: 0 <= k < |times| ==> IsLocked(s, times[k])
    ensures FailAll(s, times).lockUntil == s.lockUntil
    ensures FailAll(s, times).loginAttempts == s.loginAttempts + |times|
    decreases |times|
  {
    if |times| > 0 {
      var next := IncLoginAttempts(s, times[0]);
      assert next == LoginState(s.loginAttempts + 1, s.lockUntil);
      LockedFailuresKeepLock(next, times[1..]);
    }
  }

  /** From a clean account, the first four failures only count and the fifth
      locks the account for two hours from the moment it happens. */
  lemma {:induction false} FailuresFromClean(times: seq<int>)
    requires |times| <= MaxLoginAttempts
    ensures FailAll(LoginState(0, None), times).loginAttempts == |times|
    ensures |times| < MaxLoginAttempts ==> FailAll(LoginState(0, None), times).lockUntil == None
    ensures |times| == MaxLoginAttempts ==>
      FailAll(LoginState(0, None), times).lockUntil == Some(times[4] + LockMillis)
  {
    FailuresCount(0, times);
  }

  lemma {:induction false} FailuresCount(n: nat, times: seq<int>)
    requires n + |times| <= MaxLoginAttempts
    ensures FailAll(LoginState(n, None), times).loginAttempts == n + |times|
    ensures n + |times| < MaxLoginAttempts ==> FailAll(LoginState(n, None), times).lockUntil == None
    ensures |times| > 0 && n + |times| == MaxLoginAttempts ==>
      FailAll(LoginState(n, None), times).lockUntil == Some(times[|times| - 1] + LockMillis)
    decreases |times|
  {
    if |times| > 0 {
      var next := IncLoginAttempts(LoginState(n, None), times[0]);
      if n + 1 < MaxLoginAttempts {
        assert next == LoginState(n + 1, None);
        FailuresCount(n + 1, times[1..]);
      } else {
        assert |times| == 1;
        assert next == LoginState(n + 1, Some(times[0] + LockMillis));
      }
    }
  }

  /** A lock ending exactly now neither restarts the count nor blocks a new
      lock: the failure is counted, and at the limit a fresh lock is set. */
  lemma LockEndingNow(attempts: int, now: int)
    ensures var s := LoginState(attempts, Some(now));
      && !IsLocked(s, now) && !LockExpired(s, now)
      && IncLoginAttempts(s, now).loginAttempts == attempts + 1
      && (attempts + 1 >= MaxLoginAttempts ==> IsLocked(IncLoginAttempts(s, now), now))
  {
  }

  /** After a reset the next failure starts the count again at one. */
  lemma ResetRestartsCount(s: LoginState, now: int)
    ensures IncLoginAttempts(ResetLoginAttempts(s), now) == LoginState(1, None)
  {
  }

  // ---------------------------------------------------------------------------
  // Phone numbers: /^[+]?[1-9][\d]{0,15}$/
  // ---------------------------------------------------------------------------

  /** `[1-9][\d]{0,15}`: a non-zero leading digit and at most 15 more digits. */
  predicate DigitBody(b: string) {
    && 1 <= |b| <= 16
    && '1' <= b[0] <= '9'
    && forall i :: 1 <= i < |b| ==> IsDigit(b[i])
  }

  /** The pattern read as its two alternatives: with the `+` or without it. */
  predicate PhonePattern(p: string) {
    (|p| >= 1 && p[0] == '+' && DigitBody(p[1..])) || DigitBody(p)
  }

  /** A single left-to-right scan of the phone pattern. */
  method MatchPhone(p: string) returns (ok: bool)
    ensures ok <==> PhonePattern(p)
  {
    var start := if |p| > 0 && p[0] == '+' then 1 else 0;
    if start == |p| || !('1' <= p[start] <= '9') || |p| - start > 16 {
      ok := false;
      return;
    }
    var i := start + 1;
    while i < |p|
      invariant start + 1 <= i <= |p|
      invariant forall k :: start + 1 <= k < i ==> IsDigit(p[k])
    {
      if !IsDigit(p[i]) {
        assert !DigitBody(p[start..]) by {
          assert p[start..][i - start] == p[i];
        }
        ok := false;
        return;
      }
      i := i + 1;
    }
    assert DigitBody(p[start..]) by {
      forall k | 1 <= k < |p[start..]|
        ensures IsDigit(p[start..][k])
      {
        assert p[start..][k] == p[start + k];
      }
    }
    assert start == 0 ==> p[start..] == p;
    ok := true;
  }

  /** The phone check: the pattern is tested only on a non-empty value. */
  predicate PhoneValid(phone: Option<string>) {
    phone.None? || phone.value == "" || PhonePattern(phone.value)
  }

  /** A `+` with no digits, a leading zero and a seventeenth digit all fail;
      sixteen digits after the `+` pass. */
  lemma PhoneExamples()
    ensures !PhonePattern("+")
    ensures !PhonePattern("0123")
    ensures PhonePattern("+1234567890123456")
    ensures !PhonePattern("12345678901234567")
  {
    assert "+1234567890123456"[1..] == "1234567890123456";
  }

  // ---------------------------------------------------------------------------
  // Account fields
  // ---------------------------------------------------------------------------

  datatype UserInput = UserInput(
    username: Option<string>,
    password: Option<string>,
    firstName: Option<string>,
    lastName: Option<string>,
    phone: Option<string>)

  const UsernameMin := 3
  const UsernameMax := 30
  const PasswordMin := 6
  const NameMax := 50

  function Trimmed(v: Option<string>): (r: Option<string>)
    ensures r.Some? <==> v.Some?
    ensures r.Some? ==> IsTrimmed(r.value)
  {
    match v
    case Some(s) => Some(Trim(s))
    case None => None
  }

  /** The checks of one required string with length bounds: `required`
      first, the bounds only when it passes; `max` is absent when there is
      no upper bound. */
  function BoundedRequired(path: string, v: Option<string>, min: nat, max: Option<nat>,
                           required: string, short: string, long: string): (r: seq<FieldError>)
    ensures r == [] <==> Present(v) && min <= |v.value| && (max.None? || |v.value| <= max.value)
    ensures |r| <= 1
  {
    if !Present(v) then [Required(path, required)]
    else if |v.value| < min then [TooShort(path, short)]
    else if max.Some? && |v.value| > max.value then [TooLong(path, long)]
    else []
  }

  /** The checks the account fields get, in field order. Username and names
      are trimmed before they are checked. */
  function UserErrors(u: UserInput): (r: seq<FieldError>)
  {
    BoundedRequired("username", Trimmed(u.username), UsernameMin, Some(UsernameMax), "Username is required",
      "Username must be at least 3 characters", "Username cannot exceed 30 characters")
    + BoundedRequired("password", u.password, PasswordMin, None, "Password is required",
      "Password must be at least 6 characters", "")
    + LengthError("profile.firstName", Trimmed(u.firstName), NameMax, "First name cannot exceed 50 characters")
    + LengthError("profile.lastName", Trimmed(u.lastName), NameMax, "Last name cannot exceed 50 characters")
    + (if PhoneValid(u.phone) then [] else [NoMatch("profile.phone", "Please enter a valid phone number")])
  }

  predicate UserValid(u: UserInput) {
    && u.username.Some? && UsernameMin <= |Trim(u.username.value)| <= UsernameMax
    && u.password.Some? && |u.password.value| >= PasswordMin
    && (u.firstName.Some? ==> |Trim(u.firstName.value)| <= NameMax)
    && (u.lastName.Some? ==> |Trim(u.lastName.value)| <= NameMax)
    && PhoneValid(u.phone)
  }

  /** The account checks report nothing exactly when every bound holds. */
  lemma UserErrorsIffValid(u: UserInput)
    ensures UserErrors(u) == [] <==> UserValid(u)
  {
  }

  // ---------------------------------------------------------------------------
  // fullName
  // ---------------------------------------------------------------------------

  /** `fullName`: first and last name joined by a space, a missing part read
      as empty, the whole trimmed. */
  function FullName(first: Option<string>, last: Option<string>): (r: string)
    ensures IsTrimmed(r)
    ensures |r| <= |first.GetOr("")| + 1 + |last.GetOr("")|
  {
    Trim(first.GetOr("") + " " + last.GetOr(""))
  }

  /** With both parts stored (trimmed by their setters) and non-empty, the full
      name is the two joined by one space; with one part missing or empty it
      is the other part alone. */
  lemma FullNameParts(first: string, last: string)
    requires IsTrimmed(first) && IsTrimmed(last)
    ensures |first| > 0 && |last| > 0 ==> FullName(Some(first), Some(last)) == first + " " + last
    ensures |last| > 0 ==> FullName(None, Some(last)) == last && FullName(Some(""), Some(last)) == last
    ensures |first| > 0 ==> FullName(Some(first), None) == first && FullName(Some(first), Some("")) == first
    ensures FullName(None, None) == ""
  {
    if |first| > 0 && |last| > 0 {
      var s := first + " " + last;
      assert s[0] == first[0] && s[|s| - 1] == last[|last| - 1];
      TrimOfTrimmed(s);
    }
    if |last| > 0 {
      TrimOfPadded(" ", last, "");
      assert "" + " " + last == " " + last + "";
    }
    if |first| > 0 {
      TrimOfPadded("", first, " ");
      assert first + " " + "" == "" + first + " ";
    }
    TrimOfWhitespace("" + " " + "");
  }

  /** Trimming removes exactly the whitespace padding around a trimmed core. */
  lemma TrimOfPadded(pre: string, core: string, post: string)
    requires forall i :: 0 <= i < |pre| ==> IsJsWhitespace(pre[i])
    requires forall i :: 0 <= i < |post| ==> IsJsWhitespace(post[i])
    requires IsTrimmed(core) && |core| > 0
    ensures Trim(pre + core + post) == core
  {
    var s := pre + core + post;
    LeadingSpaceOfPadded(pre, core + post);
    assert s == pre + (core + post);
    var r := Trim(s);
    var lo := |pre|;
    assert s[lo + |core| - 1] == core[|core| - 1];
    assert !IsJsWhitespace(s[lo + |core| - 1]);
    assert |r| >= |core|;
    forall i | lo + |core| <= i < |s|
      ensures IsJsWhitespace(s[i])
    {
      assert s[i] == post[i - lo - |core|];
    }
    assert r[|r| - 1] == s[lo + |r| - 1];
    assert |r| <= |core|;
    assert r == s[lo..lo + |core|];
    assert s[lo..lo + |core|] == core;
  }

  lemma {:induction false} LeadingSpaceOfPadded(pre: string, rest: string)
    requires forall i :: 0 <= i < |pre| ==> IsJsWhitespace(pre[i])
    requires |rest| > 0 && !IsJsWhitespace(rest[0])
    ensures LeadingSpace(pre + rest) == |pre|
    decreases |pre|
  {
    if |pre| > 0 {
      assert (pre + rest)[1..] == pre[1..] + rest;
      LeadingSpaceOfPadded(pre[1..], rest);
    } else {
      assert pre + rest == rest;
    }
  }
}

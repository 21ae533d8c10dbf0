/** The login page: the company-code input filter, the submit guard, the
    enabled state of the submit button, and how a login attempt ends. */
module LoginPage {
  import opened Wrappers
  import opened JsText
  import opened AuthContext

  /** The characters of `s` that are digits, in order. */
  function DigitsOnly(s: string): (r: string)
    ensures AllDigits(r) && |r| <= |s|
    ensures forall c :: c in r <==> c in s && IsDigit(c)
    ensures forall c :: multiset(r)[c] == if IsDigit(c) then multiset(s)[c] else 0
  {
    if s == [] then []
    else
      var rest := DigitsOnly(s[1..]);
      assert s == [s[0]] + s[1..];
      assert forall c :: c in s <==> c == s[0] || c in s[1..];
      assert multiset(s) == multiset{s[0]} + multiset(s[1..]);
      if IsDigit(s[0]) then [s[0]] + rest else rest
  }

  /** The filter works character by character: it keeps a digit, drops
      anything else, and the kept characters stay in the order typed. */
  lemma {:induction false} DigitsOnlyIsFilter(a: string, b: string, c: char)
    ensures DigitsOnly([c]) == if IsDigit(c) then [c] else []
    ensures DigitsOnly(a + b) == DigitsOnly(a) + DigitsOnly(b)
  {
    assert [c][1..] == [];
    if a == [] {
      assert a + b == b;
    } else {
      assert (a + b)[0] == a[0];
      assert (a + b)[1..] == a[1..] + b;
      DigitsOnlyIsFilter(a[1..], b, c);
    }
  }

  /** Digits pass through the filter untouched. */
  lemma {:induction false} DigitsOnlyOfDigits(s: string)
    requires AllDigits(s)
    ensures DigitsOnly(s) == s
  {
    if s != [] {
      assert IsDigit(s[0]);
      DigitsOnlyOfDigits(s[1..]);
    }
  }

  const CodeLength: nat := 2

  /** What the company-code input keeps of what was typed: the digits,
      truncated to two. */
  function Sanitize(s: string): (r: string)
    ensures AllDigits(r) && |r| <= CodeLength
    ensures r <= DigitsOnly(s)
    ensures |r| == if |DigitsOnly(s)| < CodeLength then |DigitsOnly(s)| else CodeLength
  {
    var digits := DigitsOnly(s);
    if |digits| <= CodeLength then digits else digits[..CodeLength]
  }

  /** Filtering an already filtered code changes nothing. */
  lemma SanitizeIdempotent(s: string)
    ensures Sanitize(Sanitize(s)) == Sanitize(s)
  {
    DigitsOnlyOfDigits(Sanitize(s));
  }

  /** A sanitised code never holds a dash, so the login address built from it
      can be split back into code and user name. */
  lemma SanitizedCodeRoundTrips(typed: string, username: string)
    ensures SplitLoginEmail(LoginEmail(Sanitize(typed), username)) == Some((Sanitize(typed), username))
  {
    var code := Sanitize(typed);
    assert !IsDigit('-');
    LoginEmailRoundTrip(code, username);
  }

  datatype PageState = PageState(
    companyCode: string, username: string, password: string,
    error: string, isLoading: bool, navigatedTo: Option<string>)

  const FieldsMissingMessage: string := "모든 필드를 입력해주세요."
  const LoginErrorMessage: string := "로그인 중 오류가 발생했습니다."
  const HomePath: string := "/"

  predicate AllFilled(p: PageState) {
    p.companyCode != [] && p.username != [] && p.password != []
  }

  /** The submit button is active only when nothing is in flight and all
      three fields hold something. */
  predicate SubmitEnabled(p: PageState) {
    !p.isLoading && AllFilled(p)
  }

  /** The page after a submit, the session store after it, and whether the
      store's login was called. */
  datatype SubmitResult = SubmitResult(page: PageState, auth: AuthState, loginCalled: bool)

  function HandleSubmit(p: PageState, auth: AuthState,
                        signIn: Credentials -> SignInOutcome, fetch: string -> FetchOutcome): (r: SubmitResult)
    ensures r.loginCalled <==> AllFilled(p)
    ensures !r.loginCalled ==> r.page == p.(error := FieldsMissingMessage) && r.auth == auth
    ensures r.loginCalled ==>
              var attempt := Login(auth, p.companyCode, p.username, p.password, signIn, fetch);
              && !r.page.isLoading
              && r.auth == attempt.state
              && (attempt.thrown.None? ==> r.page.error == [] && r.page.navigatedTo == Some(HomePath))
              && (attempt.thrown.Some? ==> r.page.error == attempt.thrown.value && r.page.navigatedTo == p.navigatedTo)
    ensures r.page.companyCode == p.companyCode && r.page.username == p.username && r.page.password == p.password
  {
    if !AllFilled(p) then
      SubmitResult(p.(error := FieldsMissingMessage), auth, false)
    else
      var attempt := Login(auth, p.companyCode, p.username, p.password, signIn, fetch);
      match attempt.thrown
      case None => SubmitResult(p.(error := "", isLoading := false, navigatedTo := Some(HomePath)), attempt.state, true)
      case Some(message) => SubmitResult(p.(error := Or(message, LoginErrorMessage), isLoading := false), attempt.state, true)
  }

  /** The browser's own checks on the form: every input is `required`, and
      the password input has `minLength={8}`. A form that fails them is not
      submitted at all. */
  const PasswordMinLength: nat := 8

  predicate BrowserAccepts(p: PageState) {
    AllFilled(p) && |p.password| >= PasswordMinLength
  }

  /** A click on the submit button: nothing happens while the button is
      disabled or while the browser rejects the form; otherwise the submit
      handler runs. */
  function Click(p: PageState, auth: AuthState,
                 signIn: Credentials -> SignInOutcome, fetch: string -> FetchOutcome): (r: SubmitResult)
    ensures !r.loginCalled ==> r.page == p && r.auth == auth
    ensures r.loginCalled ==> r == HandleSubmit(p, auth, signIn, fetch)
  {
    if SubmitEnabled(p) && BrowserAccepts(p) then HandleSubmit(p, auth, signIn, fetch)
    else SubmitResult(p, auth, false)
  }

  /** A click reaches the login exactly when the button is active and the
      password has at least eight characters. */
  lemma EnabledIffLoginCalled(p: PageState, auth: AuthState,
                              signIn: Credentials -> SignInOutcome, fetch: string -> FetchOutcome)
    ensures Click(p, auth, signIn, fetch).loginCalled <==> SubmitEnabled(p) && |p.password| >= PasswordMinLength
  {
  }
}

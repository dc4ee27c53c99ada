/**
 * The sign-in / sign-up page: the form validator, the user record a valid
 * submit logs in, and the user record a social sign-in logs in. The clock
 * value used as the new user's id is a parameter.
 */
module Auth {
  import opened Wrappers
  import opened Text
  import opened Domain
  import opened Reducer

  datatype AuthForm = AuthForm(name: string, email: string, password: string)

  /** A character of the class `[^\s@]`. */
  predicate Plain(c: char) {
    !IsSpace(c) && c != '@'
  }

  predicate AllPlain(s: string) {
    forall i :: 0 <= i < |s| ==> Plain(s[i])
  }

  /**
   * `s` splits as `s[..k] + "@" + s[k+1..m] + "." + s[m+1..]` with three
   * non-empty runs of `[^\s@]`: one way for the email pattern to match.
   */
  predicate EmailSplit(s: string, k: int, m: int) {
    && 0 < k && k + 1 < m && m + 1 < |s|
    && s[k] == '@' && s[m] == '.'
    && AllPlain(s[..k]) && AllPlain(s[k + 1..m]) && AllPlain(s[m + 1..])
  }

  /** The pattern `^[^\s@]+@[^\s@]+\.[^\s@]+$`, read as "some split matches". */
  ghost predicate MatchesEmailPattern(s: string) {
    exists k, m :: EmailSplit(s, k, m)
  }

  /** The domain has a dot that is neither its first nor its last character. */
  predicate HasInnerDot(d: string) {
    exists i | 0 < i < |d| - 1 :: d[i] == '.'
  }

  /**
   * Read with the `@` at position `k`: a non-empty local part, no white
   * space or further `@`, and an inner dot in the domain.
   */
  predicate ShapeAt(s: string, k: int) {
    && 0 < k < |s|
    && AllPlain(s[..k]) && AllPlain(s[k + 1..])
    && HasInnerDot(s[k + 1..])
  }

  /** Reading at the first `@` decides the pattern: the split cannot be anywhere else. */
  lemma EmailShapeMatchesPattern(s: string)
    ensures ShapeAt(s, |BeforeFirst(s, '@')|) <==> MatchesEmailPattern(s)
  {
    var k := |BeforeFirst(s, '@')|;
    if ShapeAt(s, k) {
      var d := s[k + 1..];
      var i :| 0 < i < |d| - 1 && d[i] == '.';
      var m := k + 1 + i;
      assert s[k + 1..m] == d[..i];
      assert s[m + 1..] == d[i + 1..];
      assert EmailSplit(s, k, m);
    }
    if MatchesEmailPattern(s) {
      var k', m :| EmailSplit(s, k', m);
      assert s[k'] == '@';
      assert k == k';
      var d := s[k + 1..];
      assert d[m - k - 1] == '.';
      forall j | 0 <= j < |d| ensures Plain(d[j]) {
        if k + 1 + j < m {
          assert d[j] == s[k + 1..m][j];
        } else if k + 1 + j > m {
          assert d[j] == s[m + 1..][k + j - m];
        }
      }
    }
  }

  /**
   * The check the page runs on the untrimmed email, stated without search:
   * it accepts exactly the strings the pattern matches.
   */
  function EmailShape(s: string): (b: bool)
    ensures b <==> MatchesEmailPattern(s)
  {
    EmailShapeMatchesPattern(s);
    ShapeAt(s, |BeforeFirst(s, '@')|)
  }

  /** What the pattern demands of an accepted email. */
  lemma AcceptedEmailShape(s: string)
    requires MatchesEmailPattern(s)
    ensures forall i :: 0 <= i < |s| ==> !IsSpace(s[i])
    ensures 0 < |BeforeFirst(s, '@')| < |s|
    ensures '@' !in s[|BeforeFirst(s, '@')| + 1..]
    ensures HasInnerDot(s[|BeforeFirst(s, '@')| + 1..])
  {
    EmailShapeMatchesPattern(s);
    var k := |BeforeFirst(s, '@')|;
    forall i | 0 <= i < |s| ensures !IsSpace(s[i]) {
      if i < k {
        assert s[i] == s[..k][i];
      } else if i > k {
        assert s[i] == s[k + 1..][i - k - 1];
      }
    }
  }

  /** An empty or all-space email cannot match the pattern, so the two email errors never overlap. */
  lemma BlankEmailFailsPattern(s: string)
    requires AllSpace(s)
    ensures !MatchesEmailPattern(s)
  {
  }

  /** The errors `validateForm` records, as a reference: no error on any key means the form is accepted. */
  predicate NameOk(isLogin: bool, form: AuthForm) {
    isLogin || Trim(form.name) != ""
  }

  ghost predicate EmailOk(form: AuthForm) {
    Trim(form.email) != "" && MatchesEmailPattern(form.email)
  }

  predicate PasswordOk(form: AuthForm) {
    |form.password| >= 6
  }

  ghost predicate Acceptable(isLogin: bool, form: AuthForm) {
    NameOk(isLogin, form) && EmailOk(form) && PasswordOk(form)
  }

  /**
   * `validateForm`: fills the error map key by key, then accepts the form
   * iff the map has no keys. The pattern is tested on the untrimmed email.
   */
  method ValidateForm(isLogin: bool, form: AuthForm) returns (errors: map<string, string>, valid: bool)
    ensures errors.Keys <= {"name", "email", "password"}
    ensures "name" in errors <==> !NameOk(isLogin, form)
    ensures "name" in errors ==> errors["name"] == "Name is required"
    ensures "email" in errors <==> !EmailOk(form)
    ensures "email" in errors && Trim(form.email) == "" ==> errors["email"] == "Email is required"
    ensures "email" in errors && Trim(form.email) != "" ==> errors["email"] == "Invalid email format"
    ensures "password" in errors <==> !PasswordOk(form)
    ensures "password" in errors && form.password == "" ==> errors["password"] == "Password is required"
    ensures "password" in errors && form.password != "" ==> errors["password"] == "Password must be at least 6 characters"
    ensures valid <==> Acceptable(isLogin, form)
    ensures valid <==> |errors| == 0
  {
    errors := map[];
    if !isLogin && Trim(form.name) == "" {
      errors := errors["name" := "Name is required"];
    }
    if Trim(form.email) == "" {
      errors := errors["email" := "Email is required"];
    } else if !EmailShape(form.email) {
      errors := errors["email" := "Invalid email format"];
    }
    if form.password == "" {
      errors := errors["password" := "Password is required"];
    } else if |form.password| < 6 {
      errors := errors["password" := "Password must be at least 6 characters"];
    }
    valid := |errors| == 0;
    if !valid {
      assert errors.Keys != {};
    }
  }

  /** The user a valid submit logs in: the entered name, or the email text before its first `@`. */
  function NewUser(form: AuthForm, clockId: int): (u: User)
    ensures u.id == clockId && u.email == form.email && u.avatar == None
    ensures form.name != "" ==> u.name == form.name
    ensures form.name == "" ==> u.name == BeforeFirst(form.email, '@')
    ensures form.name == "" ==> IsPrefix(u.name + "@", form.email) || u.name == form.email
  {
    var name := if form.name != "" then form.name else BeforeFirst(form.email, '@');
    assert form.name == "" && |name| < |form.email| ==> form.email[..|name| + 1] == name + "@";
    User(clockId, name, form.email, None)
  }

  /** An accepted form always yields a user with a non-empty name. */
  lemma AcceptedUserHasName(isLogin: bool, form: AuthForm, clockId: int)
    requires Acceptable(isLogin, form)
    ensures NewUser(form, clockId).name != ""
  {
    if form.name == "" {
      AcceptedEmailShape(form.email);
    }
  }

  /** `handleSubmit`: validates, and dispatches LOGIN with the new user only when the form is accepted. */
  method HandleSubmit(isLogin: bool, form: AuthForm, clockId: int) returns (action: Option<Action>)
    ensures action.Some? <==> Acceptable(isLogin, form)
    ensures action.Some? ==> action.value == Login(NewUser(form, clockId))
  {
    var _, valid := ValidateForm(isLogin, form);
    if !valid {
      return None;
    }
    return Some(Login(NewUser(form, clockId)));
  }

  /** The user `handleSocialAuth` logs in for a provider name. */
  function SocialUser(provider: string, clockId: int): (u: User)
    ensures u.id == clockId && u.avatar == None
    ensures u.name == provider + " User"
    ensures u.email == "user@" + Lower(provider) + ".com"
  {
    User(clockId, provider + " User", "user@" + Lower(provider) + ".com", None)
  }

  /** `handleSocialAuth`: the LOGIN action for the provider's user. */
  function SocialSignIn(provider: string, clockId: int): (a: Action)
    ensures a.Login? && a.user == SocialUser(provider, clockId)
  {
    Login(SocialUser(provider, clockId))
  }

  /** A social sign-in signs the provider's user in and changes nothing else. */
  lemma SocialSignInEffect(s: State, provider: string, clockId: int)
    ensures Reduce(s, SocialSignIn(provider, clockId)) == s.(user := Some(SocialUser(provider, clockId)))
    ensures Reduce(s, SocialSignIn(provider, clockId)).user.value.name == provider + " User"
  {
    LoginSemantics(s, SocialUser(provider, clockId));
  }

  /** For a provider name without white space or `@`, the social email passes the page's own check. */
  lemma SocialEmailIsValid(provider: string, clockId: int)
    requires provider != "" && AllPlain(provider)
    ensures MatchesEmailPattern(SocialUser(provider, clockId).email)
  {
    var low := Lower(provider);
    var s := SocialUser(provider, clockId).email;
    assert s == "user@" + low + ".com";
    var m := 5 + |low|;
    assert s[..4] == "user";
    assert s[5..m] == low;
    assert s[m + 1..] == "com";
    forall i | 0 <= i < |low| ensures Plain(low[i]) {
      assert Plain(provider[i]);
    }
    assert EmailSplit(s, 4, m);
  }
}

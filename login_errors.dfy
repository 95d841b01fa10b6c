/**
 * The sign-in handler `onSubmit` of frontend/src/pages/Login.jsx, reduced
 * to its logic: clear the error, try to sign in, and on failure turn the
 * Firebase Auth error code into a message by an ordered substring match.
 */
module LoginErrors {
  import opened JsValue
  import opened JsString

  const InvalidCredentials := "Invalid email or password."
  const NoAccount := "No account found. Please create one."
  const TooManyAttempts := "Too many attempts. Try again later."
  const GenericFailure := "Could not sign in. Please try again."

  /**
   * The message for an error `code`: the first matching test of the chain
   * wins, and a code no test matches gets the generic message.
   */
  function FriendlyMessage(code: string): (m: string)
    ensures m in {InvalidCredentials, NoAccount, TooManyAttempts, GenericFailure}
    ensures m == InvalidCredentials <==>
      Includes(code, "auth/invalid-credential") || Includes(code, "auth/wrong-password")
    ensures m == GenericFailure <==>
      !Includes(code, "auth/invalid-credential") && !Includes(code, "auth/wrong-password")
      && !Includes(code, "auth/user-not-found") && !Includes(code, "auth/too-many-requests")
  {
    if Includes(code, "auth/invalid-credential") || Includes(code, "auth/wrong-password") then
      InvalidCredentials
    else if Includes(code, "auth/user-not-found") then
      NoAccount
    else if Includes(code, "auth/too-many-requests") then
      TooManyAttempts
    else
      GenericFailure
  }

  /** A rule of the chain: the codes it looks for and the message it shows. */
  datatype Rule = Rule(patterns: seq<string>, message: string)

  /** The chain as data, in the order it is tested. */
  const Rules: seq<Rule> := [
    Rule(["auth/invalid-credential", "auth/wrong-password"], InvalidCredentials),
    Rule(["auth/user-not-found"], NoAccount),
    Rule(["auth/too-many-requests"], TooManyAttempts)
  ]

  predicate Matches(rule: Rule, code: string) {
    exists p | p in rule.patterns :: Includes(code, p)
  }

  /** A reference reading of the chain: the message of the first rule that matches, else `fallback`. */
  function FirstMatch(rules: seq<Rule>, code: string, fallback: string): (m: string)
    ensures m == fallback || exists i | 0 <= i < |rules| :: m == rules[i].message
  {
    if rules == [] then fallback
    else if Matches(rules[0], code) then rules[0].message
    else FirstMatch(rules[1..], code, fallback)
  }

  /**
   * First-match stated declaratively: when `j` is the least index of a
   * matching rule, the result is that rule's message; when no rule matches
   * (`j == |rules|`), it is `fallback`.
   */
  lemma {:induction false} FirstMatchIsLeast(rules: seq<Rule>, code: string, fallback: string, j: nat)
    requires j <= |rules|
    requires forall k | 0 <= k < j :: !Matches(rules[k], code)
    requires j < |rules| ==> Matches(rules[j], code)
    ensures FirstMatch(rules, code, fallback) == if j == |rules| then fallback else rules[j].message
    decreases j
  {
    if j > 0 {
      assert forall k | 0 <= k < j - 1 :: rules[1..][k] == rules[k + 1];
      FirstMatchIsLeast(rules[1..], code, fallback, j - 1);
    }
  }

  /** The if/else chain is exactly first-match over the rule table. */
  lemma FriendlyMessageIsFirstMatch(code: string)
    ensures FriendlyMessage(code) == FirstMatch(Rules, code, GenericFailure)
  {
    var r0, r1, r2 := Rules[0], Rules[1], Rules[2];
    assert Matches(r0, code) <==>
      Includes(code, "auth/invalid-credential") || Includes(code, "auth/wrong-password")
    by {
      assert r0.patterns == ["auth/invalid-credential", "auth/wrong-password"];
    }
    assert Matches(r1, code) <==> Includes(code, "auth/user-not-found") by {
      assert r1.patterns == ["auth/user-not-found"];
    }
    assert Matches(r2, code) <==> Includes(code, "auth/too-many-requests") by {
      assert r2.patterns == ["auth/too-many-requests"];
    }
    assert Rules[1..] == [r1, r2] && [r1, r2][1..] == [r2] && [r2][1..] == [];
    var last := FirstMatch([r2], code, GenericFailure);
    assert last == if Matches(r2, code) then TooManyAttempts else GenericFailure;
    var middle := FirstMatch([r1, r2], code, GenericFailure);
    assert middle == if Matches(r1, code) then NoAccount else last;
  }

  /** A string never includes a different string of the same length. */
  lemma NotIncludedSameLength(s: string, sub: string)
    requires |s| == |sub| && s != sub
    ensures !Includes(s, sub)
  {
    IncludesIff(s, sub);
    forall i: nat ensures !OccursAt(s, sub, i) {
      if i == 0 {
        assert s[0..|sub|] == s;
      }
    }
  }

  /** A string never includes a string holding a character it lacks. */
  lemma NotIncludedMissingChar(s: string, sub: string, c: char)
    requires c in sub && c !in s
    ensures !Includes(s, sub)
  {
    IncludesIff(s, sub);
    forall i: nat ensures !OccursAt(s, sub, i) {
      if i + |sub| <= |s| {
        var k :| 0 <= k < |sub| && sub[k] == c;
        assert s[i..i + |sub|][k] == s[i + k] != c;
      }
    }
  }

  /** With no code at all the generic message is shown. */
  lemma EmptyCodeIsGeneric()
    ensures FriendlyMessage("") == GenericFailure
  {
    IncludesSelfAndLonger("", "auth/invalid-credential");
    IncludesSelfAndLonger("", "auth/wrong-password");
    IncludesSelfAndLonger("", "auth/user-not-found");
    IncludesSelfAndLonger("", "auth/too-many-requests");
  }

  /** The exact Firebase codes each get their own message. */
  lemma KnownCodes()
    ensures FriendlyMessage("auth/invalid-credential") == InvalidCredentials
    ensures FriendlyMessage("auth/wrong-password") == InvalidCredentials
    ensures FriendlyMessage("auth/user-not-found") == NoAccount
  {
    IncludesSelfAndLonger("auth/invalid-credential", "");
    IncludesSelfAndLonger("auth/wrong-password", "");
    IncludesSelfAndLonger("auth/user-not-found", "auth/invalid-credential");
    NotIncludedSameLength("auth/user-not-found", "auth/wrong-password");
  }

  /** The rate-limit code contains none of the codes tested before it. */
  lemma TooManyRequestsMissesEarlierTests(code: string)
    requires code == "auth/too-many-requests"
    ensures !Includes(code, "auth/invalid-credential")
    ensures !Includes(code, "auth/wrong-password")
    ensures !Includes(code, "auth/user-not-found")
  {
    IncludesSelfAndLonger(code, "auth/invalid-credential");
    NotIncludedMissingChar(code, "auth/wrong-password", 'w');
    NotIncludedMissingChar(code, "auth/user-not-found", 'f');
  }

  /** The exact rate-limit code gets its own message. */
  lemma TooManyRequestsCode()
    ensures FriendlyMessage("auth/too-many-requests") == TooManyAttempts
  {
    TooManyRequestsMissesEarlierTests("auth/too-many-requests");
    IncludesSelfAndLonger("auth/too-many-requests", "");
  }

  /** What the sign-in attempt came to: success, or the thrown value `e`. */
  datatype SignIn = SignedIn | Threw(e: Value)

  /**
   * The visible result of one submission: the error message shown, where
   * the page navigated, and whether the handler itself threw.
   */
  datatype SubmitResult = SubmitResult(err: string, navigateTo: Option<string>, threw: bool)

  /** `e?.code || ""` */
  function ErrorCode(e: Value): (code: Value)
    ensures e.Obj? && Truthy(Get(e.fields, "code")) ==> code == e.fields["code"]
    ensures !(e.Obj? && Truthy(Get(e.fields, "code"))) ==> code == Str("")
  {
    Or(if e == Undefined || e == Null then Undefined else Prop(e, "code"), Str(""))
  }

  /**
   * `onSubmit`: the message is cleared first; a successful sign-in goes to
   * the dashboard, a failure shows the message for its code. A code that is
   * neither absent nor a string has no `includes`, so the handler throws
   * with the message still cleared.
   */
  function OnSubmit(attempt: SignIn): (r: SubmitResult)
    ensures attempt.SignedIn? ==> r == SubmitResult("", Some("/dashboard"), false)
    ensures attempt.Threw? && ErrorCode(attempt.e).Str? ==>
      r == SubmitResult(FriendlyMessage(ErrorCode(attempt.e).s), None, false)
    ensures attempt.Threw? && !ErrorCode(attempt.e).Str? ==> r == SubmitResult("", None, true)
  {
    var err := "";
    match attempt
    case SignedIn => SubmitResult(err, Some("/dashboard"), false)
    case Threw(e) =>
      var code := ErrorCode(e);
      if code.Str? then SubmitResult(FriendlyMessage(code.s), None, false)
      else SubmitResult(err, None, true)
  }

  /** An error without a code, or no error object at all, shows the generic message. */
  lemma MissingCodeIsGeneric(e: Value)
    requires e.Obj? ==> "code" !in e.fields
    ensures OnSubmit(Threw(e)).err == GenericFailure
  {
    EmptyCodeIsGeneric();
  }
}

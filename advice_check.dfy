/**
  The test driver's check in bank_support_for_test.py: for each test case,
  normalise the advice the agent returned, split it into words, and flag an
  error when the expected name, "$" + balance or "$" + pending balance is not
  one of the words.  The agent run itself is a parameter: `outputs[k]` is the
  validated record the agent returned for `prompts[k]`.
*/
module AdviceCheck {
  import opened TextNormalize
  import opened BankSupportForTest

  /** The word the advice must contain for the settled balance. */
  function BalanceToken(p: QueryParts): string { "$" + p.balance }

  /** The word the advice must contain for the balance with pending transactions. */
  function PendingToken(p: QueryParts): string { "$" + p.balanceWithPending }

  /** The test case passes: each expected value stands as a whole word of the normalised advice. */
  ghost predicate ExpectedTokensPresent(p: QueryParts, advice: string)
  {
    var text := Normalize(advice);
    && IsWholeWord(text, p.customerName)
    && IsWholeWord(text, BalanceToken(p))
    && IsWholeWord(text, PendingToken(p))
  }

  /** The driver's test, read on the token list: every expected value is one of the tokens. */
  predicate TokensPresent(p: QueryParts, advice: string)
  {
    var words := Tokens(advice);
    Contains(words, p.customerName) && Contains(words, BalanceToken(p)) && Contains(words, PendingToken(p))
  }

  /**
    Membership in a token list, by a scan from the front.  It states the
    same thing as `in` (ContainsIff); it is used in TokensPresent because a
    recursive scan keeps the loop proof of CheckAll cheap for the verifier,
    where the quantifier behind `in` does not.
  */
  function Contains(ws: seq<string>, w: string): bool
  {
    ws != [] && (ws[0] == w || Contains(ws[1..], w))
  }

  /** The scan finds exactly the members. */
  lemma {:induction false} ContainsIff(ws: seq<string>, w: string)
    ensures Contains(ws, w) <==> w in ws
  {
    if ws != [] {
      ContainsIff(ws[1..], w);
      assert ws == [ws[0]] + ws[1..];
    }
  }

  /** Looking the values up in the token list is looking for them as whole words of the normalised text. */
  lemma {:induction false} TokensPresentIff(p: QueryParts, advice: string)
    ensures TokensPresent(p, advice) <==> ExpectedTokensPresent(p, advice)
  {
    var text := Normalize(advice);
    ContainsIff(Tokens(advice), p.customerName);
    ContainsIff(Tokens(advice), BalanceToken(p));
    ContainsIff(Tokens(advice), PendingToken(p));
    TokenIff(text, p.customerName);
    TokenIff(text, BalanceToken(p));
    TokenIff(text, PendingToken(p));
  }

  /** The body of the driver's loop for one test case: `error` is raised exactly when a token is missing. */
  method CheckAdvice(p: QueryParts, output: SupportOutput) returns (error: bool)
    ensures error <==> !TokensPresent(p, output.supportAdvice)
  {
    var resultText := output.supportAdvice;
    resultText := ReplaceCommas(resultText);
    resultText := SubDotSpace(resultText);
    resultText := StripFinalDot(resultText);
    resultText := DeleteBangs(resultText);
    var words := Split(resultText);
    error := false;
    if p.customerName !in words {
      error := true;
    }
    if BalanceToken(p) !in words {
      error := true;
    }
    if PendingToken(p) !in words {
      error := true;
    }
    ContainsIff(words, p.customerName);
    ContainsIff(words, BalanceToken(p));
    ContainsIff(words, PendingToken(p));
  }

  /** The driver's loop over all test cases. */
  method CheckAll(prompts: seq<QueryParts>, outputs: seq<SupportOutput>) returns (errors: seq<bool>)
    requires |outputs| == |prompts|
    ensures |errors| == |prompts|
    ensures forall k :: 0 <= k < |prompts| ==> (errors[k] <==> !TokensPresent(prompts[k], outputs[k].supportAdvice))
  {
    errors := [];
    for i := 0 to |prompts|
      invariant |errors| == i
      invariant forall k :: 0 <= k < i ==> (errors[k] <==> !TokensPresent(prompts[k], outputs[k].supportAdvice))
    {
      var error := CheckAdvice(prompts[i], outputs[i]);
      errors := errors + [error];
    }
  }

  /** Read through TokensPresentIff, the flags CheckAll returns say which test cases miss an expected whole word. */
  lemma {:induction false} VerdictsMeanPresence(prompts: seq<QueryParts>, outputs: seq<SupportOutput>, errors: seq<bool>)
    requires |outputs| == |prompts| == |errors|
    requires forall k :: 0 <= k < |prompts| ==> (errors[k] <==> !TokensPresent(prompts[k], outputs[k].supportAdvice))
    ensures forall k :: 0 <= k < |prompts| ==> (errors[k] <==> !ExpectedTokensPresent(prompts[k], outputs[k].supportAdvice))
  {
    forall k | 0 <= k < |prompts|
      ensures errors[k] <==> !ExpectedTokensPresent(prompts[k], outputs[k].supportAdvice)
    {
      TokensPresentIff(prompts[k], outputs[k].supportAdvice);
    }
  }

  /** The expected values of a test case are words the normaliser leaves untouched. */
  predicate PlainExpectations(p: QueryParts)
  {
    PlainWord(p.customerName) && PlainWord(BalanceToken(p)) && PlainWord(PendingToken(p))
  }

  /** Billy's expected words are plain. */
  lemma {:induction false} PlainBilly(p: QueryParts)
    requires p.customerName == "Billy" && p.balance == "123.45" && p.balanceWithPending == "167.34"
    ensures PlainExpectations(p)
  {
    assert BalanceToken(p) == "$123.45" && PendingToken(p) == "$167.34";
  }

  /** Mac's expected words are plain. */
  lemma {:induction false} PlainMac(p: QueryParts)
    requires p.customerName == "Mac" && p.balance == "456.45" && p.balanceWithPending == "467.34"
    ensures PlainExpectations(p)
  {
    assert BalanceToken(p) == "$456.45" && PendingToken(p) == "$467.34";
  }

  /** Buddy's expected words are plain. */
  lemma {:induction false} PlainBuddy(p: QueryParts)
    requires p.customerName == "Buddy" && p.balance == "789.45" && p.balanceWithPending == "767.34"
    ensures PlainExpectations(p)
  {
    assert BalanceToken(p) == "$789.45" && PendingToken(p) == "$767.34";
  }

  /** The expected values of every test case are words the normaliser leaves untouched. */
  lemma {:induction false} FixturesArePlain(k: nat)
    requires k < |Prompts|
    ensures PlainExpectations(Prompts[k])
  {
    FixtureCustomers(k);
    var p := Prompts[k];
    if p.customerId == 123 {
      PlainBilly(p);
    } else if p.customerId == 456 {
      PlainMac(p);
    } else {
      PlainBuddy(p);
    }
  }

  /** A plain word between safe boundaries is a whole word of the normalised text. */
  lemma {:induction false} KeptWordIsWhole(pre: string, w: string, post: string)
    requires PlainWord(w) && LeftBoundary(pre) && RightBoundary(post)
    ensures IsWholeWord(Normalize(pre + w + post), w)
  {
    NormalizeKeepsWord(pre, w, post);
    TokenIff(Normalize(pre + w + post), w);
  }

  /**
    An advice text passes the check when each expected value appears in it
    between safe boundaries: after nothing, a space or a comma, and before
    nothing, a space, a comma, ". " or a final ".", with any '!' between.
  */
  lemma {:induction false} PassesWhenTokensBounded(p: QueryParts, advice: string,
                                pre1: string, post1: string,
                                pre2: string, post2: string,
                                pre3: string, post3: string)
    requires PlainExpectations(p)
    requires advice == pre1 + p.customerName + post1 && LeftBoundary(pre1) && RightBoundary(post1)
    requires advice == pre2 + BalanceToken(p) + post2 && LeftBoundary(pre2) && RightBoundary(post2)
    requires advice == pre3 + PendingToken(p) + post3 && LeftBoundary(pre3) && RightBoundary(post3)
    ensures ExpectedTokensPresent(p, advice)
  {
    KeptWordIsWhole(pre1, p.customerName, post1);
    KeptWordIsWhole(pre2, BalanceToken(p), post2);
    KeptWordIsWhole(pre3, PendingToken(p), post3);
  }
}

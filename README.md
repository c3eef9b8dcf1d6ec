# Bank support agent: a Dafny model of its deterministic core

The repository is a bank customer-support agent built on an LLM agent
library. The agent gets a customer id as its dependencies. A system-prompt
function names the customer, a `customer_balance` tool reports the
customer's balance, and the agent's answer must validate as a
`SupportOutput` record. There are two variants of the program.

- `bank_support.py` has a fake database written as if/elif chains and a
  five-field output record.
- `bank_support_for_test.py` has a fake database backed by a three-row
  table, a seven-field output record and a test driver. For eleven fixed
  test cases the driver normalises the advice text the agent returned,
  splits it into words, and flags an error when the customer's name,
  `"$" + balance` or `"$" + pending balance` is not one of the words.

The model covers what the repository itself decides:

- the fake accessors, with their different behaviour for unknown ids:
  `None`, `ValueError('Customer not found')` or `KeyError`;
- the tool and the name fragment, as functions of the run context;
- output validation, as a function from a payload with optional fields to
  either a record or the list of field errors;
- the normaliser and the word check, proved against reference definitions.

In the test variant the name accessor raises `KeyError` for an unknown id;
it does not return a "not found" value as the five-field variant does. The
model follows the code.

Money is in integer cents. The fixtures keep each expected amount as the
literal text the driver prints (`"456.45"`), and `CentsText` ties that text
to the cents the table holds. The tool's run context carries the prompt, so
the model can state that no prompt text changes what the tool or the name
fragment returns.

Modules:

- `Wrappers`: `Option`, `Result` and the Python exceptions raised.
- `AgentContext`: dependencies, run context, the name fragment and its parser.
- `OutputContract`: the field-error vocabulary of the output records.
- `BankSupport`: the `bank_support.py` variant.
- `BankSupportForTest`: the table, accessors, tool, record and fixtures of
  the test variant.
- `TextNormalize`: the four substitutions and the single-space split.
- `AdviceCheck`: the driver's loop body (`CheckAdvice`) and the loop
  (`CheckAll`), as methods.

## Model

| member | source | states |
|---|---|---|
| `BankSupport.DbCustomerName` | bank_support.py:15-19 | 123 gives Some("John") and 456 gives Some("Billy"); the result is Some exactly for the known ids and None for every other id, which never raises |
| `BankSupport.DbCustomerBalance` | bank_support.py:22-34 | 123 gives 12345 cents with pending and 10000 without; 456 gives 43967 and 19223; every other id gives ValueError("Customer not found") and no amount |
| `BankSupport.AccessorsAgree` | bank_support.py:15-34 | the name accessor finds a name exactly for the ids the balance accessor accepts, with either flag |
| `BankSupport.CustomerBalance` | bank_support.py:78-86 | the tool succeeds exactly for a known id of the context's dependencies, fails with "Customer not found" otherwise, and on success that customer has a name |
| `BankSupport.CustomerBalanceIgnoresPrompt` | bank_support.py:78-86 | two contexts with the same dependencies get the same tool result, whatever their prompts; that result is the accessor's for the dependencies' id and the given flag |
| `BankSupport.AddCustomerName` | bank_support.py:72-75 | the fragment never fails, and parsing it back gives exactly the accessor's answer for the context's customer, None included |
| `BankSupport.CustomerNameJohn` | bank_support.py:72-75 | customer 123 gets the fragment "The customer's name is 'John'" |
| `BankSupport.CustomerNameBilly` | bank_support.py:72-75 | customer 456 gets the fragment "The customer's name is 'Billy'" |
| `BankSupport.CustomerNameNone` | bank_support.py:72-75 | an unknown customer gets "The customer's name is None" rather than an error |
| `BankSupport.Validate` | bank_support.py:42-47 | a payload validates exactly when all five fields are present and 0 <= risk <= 10; the record then is valid and carries the payload's values; otherwise each absent field is reported as missing, and a risk out of range is reported against the bound it breaks |
| `BankSupport.ValidateAcceptsValid` | bank_support.py:42-47 | every valid five-field record passes validation unchanged |
| `AgentContext.NameFragment` | bank_support.py:75 | the fragment starts with the fixed prefix "The customer's name is " and has more after it |
| `AgentContext.NameFragmentRoundTrip` | bank_support.py:75 | the name (or None) can be read back from the fragment it produced |
| `AgentContext.NameFragmentInjective` | bank_support.py:75 | two different names, or a name and None, never give the same fragment |
| `OutputContract.Required` | bank_support.py:43-47 | a required field reports no error when present and exactly one Missing error for that field when absent |
| `OutputContract.RiskErrors` | bank_support.py:47 | the risk reports no error exactly when present and in [0, 10]; it is Missing when absent, a greater-than-equal error below 0 and a less-than-equal error above 10 |
| `BankSupportForTest.DataKeyedById` | bank_support_for_test.py:10-14 | every row of the table is filed under its own id |
| `BankSupportForTest.DbCustomerName` | bank_support_for_test.py:23-26 | the name from the table for an id in it; a KeyError for that id otherwise, never a made-up name |
| `BankSupportForTest.DbCustomerBalance` | bank_support_for_test.py:27-34 | the row's pending balance with the flag set and its settled balance without; a KeyError for an id not in the table, never a made-up amount |
| `BankSupportForTest.CustomerBalance` | bank_support_for_test.py:79-87 | the tool returns the pending or settled balance of the dependencies' customer, or the KeyError for an id absent from the table |
| `BankSupportForTest.AddCustomerName` | bank_support_for_test.py:73-76 | for an id in the table, the fragment parses back to that row's name; for any other id the lookup's KeyError is raised |
| `BankSupportForTest.ContextIgnoresPrompt` | bank_support_for_test.py:73-87 | contexts with the same dependencies get the same tool result and the same name fragment, whatever their prompts claim |
| `BankSupportForTest.DescriptionErrors` | bank_support_for_test.py:50-53 | advice, name, id and card flag: no error exactly when all four are present, one Missing error for each absent one, and no error about another field |
| `BankSupportForTest.AmountErrors` | bank_support_for_test.py:54-56 | risk, balance and pending balance: no error exactly when all are present and the risk is in range; Missing for each absent one, the bound error for an out-of-range risk, and no error about another field |
| `BankSupportForTest.Validate` | bank_support_for_test.py:49-56 | a payload validates exactly when all seven fields are present and 0 <= risk <= 10; the record then is valid and carries the payload's values; otherwise each absent field is reported as missing, and a risk out of range is reported against the bound it breaks |
| `BankSupportForTest.ValidateAcceptsValid` | bank_support_for_test.py:49-56 | every valid seven-field record passes validation unchanged |
| `BankSupportForTest.FixtureCustomers` | bank_support_for_test.py:94-113 | every test case runs under customer 123, 456 or 789, with that customer's name and amounts |
| `BankSupportForTest.FixturesMatchTable` | bank_support_for_test.py:94-113 | each test case's id is in the table, and its expected name and amount texts are that row's name and cents written with two decimals |
| `BankSupportForTest.FixturesExpectStoredValues` | bank_support_for_test.py:108-112 | for every test case and any prompt text, the name fragment and the tool's two balances are the ones the test case expects, so prompts claiming another name, id or balance change nothing |
| `TextNormalize.ReplaceCommas` | bank_support_for_test.py:127 | comma replacement keeps the length and leaves no comma |
| `TextNormalize.ReplaceCommasPointwise` | bank_support_for_test.py:127 | each character is kept in place, except that a comma becomes a space |
| `TextNormalize.SubDotSpace` | bank_support_for_test.py:128 | the ". " substitution never lengthens the text |
| `TextNormalize.SubDotSpaceDropsDots` | bank_support_for_test.py:128 | the left-to-right ". " substitution equals deleting exactly the dots that stand just before a space |
| `TextNormalize.SubDotSpaceKeeps` | bank_support_for_test.py:128 | the ". " substitution introduces no character other than a space |
| `TextNormalize.DropDotsNoSpace` | bank_support_for_test.py:128 | text without a space is left unchanged by the dot deletion |
| `TextNormalize.DropDotsConcat` | bank_support_for_test.py:128 | the dot deletion works separately on two parts that do not form a ". " across their join |
| `TextNormalize.StripFinalDot` | bank_support_for_test.py:129 | the text is unchanged or loses exactly one final '.'; unchanged exactly when it does not end in '.' |
| `TextNormalize.StripFinalDotConcat` | bank_support_for_test.py:129 | stripping a final dot only touches the last part of a text |
| `TextNormalize.DeleteBangs` | bank_support_for_test.py:130 | no '!' is left |
| `TextNormalize.DeleteBangsMultiset` | bank_support_for_test.py:130 | the result has exactly the characters of the input with every '!' removed |
| `TextNormalize.DeleteBangsKeeps` | bank_support_for_test.py:130 | deleting '!' introduces no character |
| `TextNormalize.DeleteBangsConcat` | bank_support_for_test.py:130 | deleting '!' works part by part on a concatenation |
| `TextNormalize.Normalize` | bank_support_for_test.py:127-130 | after the four substitutions the text contains no ',' and no '!' |
| `TextNormalize.Split` | bank_support_for_test.py:131 | the split always yields at least one token |
| `TextNormalize.SplitTokensHaveNoSpace` | bank_support_for_test.py:131 | no token contains a space |
| `TextNormalize.JoinSplit` | bank_support_for_test.py:131 | joining the tokens with single spaces gives back the normalised text |
| `TextNormalize.SplitJoin` | bank_support_for_test.py:131 | splitting a single-space join of space-free tokens gives back those tokens, empty ones included |
| `TextNormalize.SplitCount` | bank_support_for_test.py:131 | the number of tokens is the number of spaces plus one, so adjacent spaces give empty tokens |
| `TextNormalize.SplitConcat` | bank_support_for_test.py:131 | splitting a + " " + b gives the tokens of a followed by those of b |
| `TextNormalize.TokenAt` | bank_support_for_test.py:131 | every token occurs in the text at a position bounded by a space or an end on each side |
| `TextNormalize.TokenIff` | bank_support_for_test.py:131 | a word is one of the tokens exactly when it contains no space and occurs in the text bounded by a space or an end on each side |
| `TextNormalize.WholeWordIsToken` | bank_support_for_test.py:131 | a space-free word between a space-or-start and a space-or-end is one of the tokens |
| `TextNormalize.LeftBoundaryNormalized` | bank_support_for_test.py:127-130 | text that ends in a space or a comma, possibly followed by '!'s, normalises to text ending in a space, or to nothing |
| `TextNormalize.RightBoundaryNormalized` | bank_support_for_test.py:127-130 | text that starts with a space, a comma or ". ", or is a single final '.', possibly after '!'s, normalises to text starting with a space, or to nothing |
| `TextNormalize.NormalizeAround` | bank_support_for_test.py:127-130 | a plain word between such boundaries survives normalisation intact, with a space-or-end on each side |
| `TextNormalize.NormalizeKeepsWord` | bank_support_for_test.py:127-131 | so the word is one of the tokens: "$456.45" followed by ". ", ",", "!" or a final "." becomes the token "$456.45", while the dot inside it is kept |
| `TextNormalize.BangAfterFinalDotKeepsDot` | bank_support_for_test.py:129-130 | the final-dot strip runs before the '!' deletion, so a word followed by ".!" keeps its dot and is not found as a token |
| `AdviceCheck.TokensPresentIff` | bank_support_for_test.py:138-150 | the three expected values are among the tokens exactly when each is a whole word of the normalised advice |
| `AdviceCheck.ContainsIff` | bank_support_for_test.py:139-148 | the token-list scan finds exactly the members of the list |
| `AdviceCheck.CheckAdvice` | bank_support_for_test.py:125-150 | running the substitutions, the split and the three membership tests raises `error` exactly when the name, "$" + balance or "$" + pending balance is missing from the tokens |
| `AdviceCheck.CheckAll` | bank_support_for_test.py:115-153 | the loop gives one flag per test case, and flag k is raised exactly when test case k's advice lacks one of its expected tokens |
| `AdviceCheck.VerdictsMeanPresence` | bank_support_for_test.py:115-153 | read through TokensPresentIff, flag k is raised exactly when some expected value of test case k is not a whole word of its normalised advice |
| `AdviceCheck.FixturesArePlain` | bank_support_for_test.py:94-113 | every expected value in the fixtures is a plain word that the normaliser leaves untouched |
| `AdviceCheck.KeptWordIsWhole` | bank_support_for_test.py:127-150 | a plain word between safe boundaries is a whole word of the normalised advice |
| `AdviceCheck.PassesWhenTokensBounded` | bank_support_for_test.py:125-152 | advice passes the check whenever name, balance and pending each sit after nothing, a space or a comma and before nothing, a space, a comma, ". " or a final ".", with any '!' between |

## Left out

- The agent library (`Agent(...)`, `support_agent.run`, its tool dispatch and its retry loop) and `support_agent_2`. They are foreign library code and an LLM call. The agent's answers are a parameter of `AdviceCheck.CheckAll`, one record per test case.
- `async`/`await`, `asyncio.run` and every `print`, including the printing of each test case and of its table row or "bogus id" line (bank_support_for_test.py:116-120, 123, 126, 132-137, 140-153). They are I/O with no effect on the result. In the test variant's accessors the lookup inside the message raises the same `KeyError` that the lookup in the return would, one line earlier, so dropping the prints changes no outcome.
- Floating point. Money is integer cents. Expected tokens are literal strings of the fixtures. `CentsText` always writes two decimals, so it matches Python's float rendering only when the last cent digit is not zero, which holds for every amount in the table (`100.00` would print as `100.0`).
- The prompt the driver composes (bank_support_for_test.py:122). It embeds the dataclass repr of a test case with floats; the model passes prompts as opaque text.
- The `main` function of bank_support.py and its `__main__` guard (lines 91-142): eight agent runs for customers 123 and 456, five with `support_agent` and three with `support_agent_2`, each followed by a print. Its later prompts state the customer's own name and id, and the last one claims a false balance ("thirty five dollars"); `BankSupport.CustomerBalanceIgnoresPrompt` states that such text cannot change the tool's answer.
- The regular-expression detail that `$` also matches before a final newline. `TextNormalize.StripFinalDot` drops a '.' only at the very end of the text.
- Python's repr escaping of quotes and backslashes. `AgentContext.ReprName` wraps a name in single quotes, which is what repr does for plain names.
- The static system-prompt strings and the field descriptions: constant text with no behaviour.
- Pydantic's type coercion (for example a numeric string accepted as an int) and its exact error messages. A payload field is either present with the right type or absent.
- The `db` field of the dependencies. It is a handle on a class whose methods are all class methods with no instance state, so the model's `SupportDependencies` holds only the customer id.
- The commented-out check of the customer id and the commented-out test case with id 915 (bank_support_for_test.py:105, 142-144): they are not part of the program.

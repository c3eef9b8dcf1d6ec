/**
  What a tool or a system-prompt function of the support agent receives, and
  the system-prompt fragment that names the customer.
*/
module AgentContext {
  import opened Wrappers

  /**
    The per-conversation dependencies: the customer id.  The `db` field of
    the Python dataclass `SupportDependencies` is a handle on a class whose
    methods are all class methods with no instance state, so it carries no
    state of its own.
  */
  datatype SupportDependencies = SupportDependencies(customerId: int)

  /** The agent library's run context: the dependencies and the user's prompt. */
  datatype RunContext = RunContext(deps: SupportDependencies, prompt: string)

  const NamePrefix := "The customer's name is "

  /** Python's repr of a `str or None` value holding a plain name. */
  function ReprName(name: Option<string>): string
  {
    match name
    case None => "None"
    case Some(n) => "'" + n + "'"
  }

  /** The name fragment: the fixed prefix followed by the Python repr of the looked-up name. */
  function NameFragment(name: Option<string>): (f: string)
    ensures |f| > |NamePrefix| && f[..|NamePrefix|] == NamePrefix
  {
    NamePrefix + ReprName(name)
  }

  /** Reads the name back out of a fragment; `None` when the text is not a fragment. */
  function ParseNameFragment(f: string): Option<Option<string>>
  {
    if |f| < |NamePrefix| || f[..|NamePrefix|] != NamePrefix then None
    else
      var rest := f[|NamePrefix|..];
      if rest == "None" then Some(None)
      else if |rest| >= 2 && rest[0] == '\'' && rest[|rest| - 1] == '\'' then Some(Some(rest[1..|rest| - 1]))
      else None
  }

  /** The fragment determines the name it was built from, including the "None" of a missing name. */
  lemma {:induction false} NameFragmentRoundTrip(name: Option<string>)
    ensures ParseNameFragment(NameFragment(name)) == Some(name)
  {
    var f := NameFragment(name);
    assert f[|NamePrefix|..] == ReprName(name);
    match name
    case None =>
    case Some(n) =>
      var rest := ReprName(name);
      assert rest[1..|rest| - 1] == n;
  }

  /** Two names give the same fragment only if they are the same name. */
  lemma {:induction false} NameFragmentInjective(x: Option<string>, y: Option<string>)
    requires NameFragment(x) == NameFragment(y)
    ensures x == y
  {
    NameFragmentRoundTrip(x);
    NameFragmentRoundTrip(y);
  }
}

/**
  bank_support.py: a fake customer database written as if/elif chains, the
  `customer_balance` tool, the `add_customer_name` system-prompt function and
  the five-field `SupportOutput` model.  Money is in integer cents.
*/
module BankSupport {
  import opened Wrappers
  import opened AgentContext
  import opened OutputContract

  /** The ids the fake database knows. */
  const KnownIds: set<int> := {123, 456}

  /** DatabaseConn.customer_name: a name for a known id, `None` (never an exception) otherwise. */
  function DbCustomerName(id: int): (r: Option<string>)
    ensures r.Some? <==> id in KnownIds
    ensures id == 123 ==> r == Some("John")
    ensures id == 456 ==> r == Some("Billy")
  {
    if id == 123 then Some("John")
    else if id == 456 then Some("Billy")
    else None
  }

  /**
    DatabaseConn.customer_balance: the pending or the settled balance of a
    known id; every other id raises ValueError('Customer not found').
  */
  function DbCustomerBalance(id: int, includePending: bool): (r: Result<int, PyError>)
    ensures r.Ok? <==> id in KnownIds
    ensures r.Err? ==> r.error == ValueError("Customer not found")
    ensures id == 123 ==> r == Ok(if includePending then 12345 else 10000)
    ensures id == 456 ==> r == Ok(if includePending then 43967 else 19223)
  {
    if id == 123 then
      if includePending then Ok(12345) else Ok(10000)
    else if id == 456 then
      if includePending then Ok(43967) else Ok(19223)
    else
      Err(ValueError("Customer not found"))
  }

  /** The two accessors know the same customers. */
  lemma {:induction false} AccessorsAgree(id: int, includePending: bool)
    ensures DbCustomerName(id).Some? <==> DbCustomerBalance(id, includePending).Ok?
  {
  }

  /** The `customer_balance` tool: the balance of the conversation's own customer. */
  function CustomerBalance(ctx: RunContext, includePending: bool): (r: Result<int, PyError>)
    ensures r.Ok? <==> ctx.deps.customerId in KnownIds
    ensures r.Err? ==> r.error == ValueError("Customer not found")
    ensures r.Ok? ==> DbCustomerName(ctx.deps.customerId).Some?
  {
    DbCustomerBalance(ctx.deps.customerId, includePending)
  }

  /**
    Whatever the prompt says (another id, another balance), the tool answers
    from the dependencies alone.
  */
  lemma {:induction false} CustomerBalanceIgnoresPrompt(c1: RunContext, c2: RunContext, includePending: bool)
    requires c1.deps == c2.deps
    ensures CustomerBalance(c1, includePending) == CustomerBalance(c2, includePending)
    ensures CustomerBalance(c1, includePending) == DbCustomerBalance(c1.deps.customerId, includePending)
  {
  }

  /**
    The `add_customer_name` system prompt: never fails; it names the database's
    name for the customer, or says None for an unknown id.
  */
  function AddCustomerName(ctx: RunContext): (f: string)
    ensures ParseNameFragment(f) == Some(DbCustomerName(ctx.deps.customerId))
  {
    NameFragmentRoundTrip(DbCustomerName(ctx.deps.customerId));
    NameFragment(DbCustomerName(ctx.deps.customerId))
  }

  /** Customer 123 is introduced with the quoted name 'John'. */
  lemma {:induction false} CustomerNameJohn(ctx: RunContext)
    requires ctx.deps.customerId == 123
    ensures AddCustomerName(ctx) == "The customer's name is 'John'"
  {
    assert AddCustomerName(ctx) == NamePrefix + "'John'";
  }

  /** Customer 456 is introduced with the quoted name 'Billy'. */
  lemma {:induction false} CustomerNameBilly(ctx: RunContext)
    requires ctx.deps.customerId == 456
    ensures AddCustomerName(ctx) == "The customer's name is 'Billy'"
  {
    assert AddCustomerName(ctx) == NamePrefix + "'Billy'";
  }

  /** An unknown customer is introduced as None rather than raising. */
  lemma {:induction false} CustomerNameNone(ctx: RunContext)
    requires ctx.deps.customerId !in KnownIds
    ensures AddCustomerName(ctx) == "The customer's name is None"
  {
    assert AddCustomerName(ctx) == NamePrefix + "None";
  }

  /** A validated `SupportOutput`. */
  datatype SupportOutput = SupportOutput(
    supportAdvice: string,
    customerName: string,
    customerId: int,
    blockCard: bool,
    risk: int)
  {
    predicate Valid()
    {
      RiskMin <= risk <= RiskMax
    }
  }

  /** The payload the language model proposes, before validation: any field may be absent. */
  datatype SupportPayload = SupportPayload(
    supportAdvice: Option<string>,
    customerName: Option<string>,
    customerId: Option<int>,
    blockCard: Option<bool>,
    risk: Option<int>)
  {
    predicate Complete()
    {
      supportAdvice.Some? && customerName.Some? && customerId.Some? && blockCard.Some? && risk.Some?
    }
  }

  /** A complete output as the payload it would be parsed from. */
  function ToPayload(o: SupportOutput): SupportPayload
  {
    SupportPayload(Some(o.supportAdvice), Some(o.customerName), Some(o.customerId), Some(o.blockCard), Some(o.risk))
  }

  /**
    Pydantic validation of a payload: a record exactly when every field is
    present and the risk is in range, otherwise every error found.
  */
  function Validate(p: SupportPayload): (r: Result<SupportOutput, seq<FieldError>>)
    ensures r.Ok? <==> p.Complete() && RiskMin <= p.risk.value <= RiskMax
    ensures r.Ok? ==> r.value.Valid() && ToPayload(r.value) == p
    ensures r.Err? ==> r.error != []
    ensures r.Err? ==> (Missing(SupportAdvice) in r.error <==> p.supportAdvice.None?)
    ensures r.Err? ==> (Missing(CustomerName) in r.error <==> p.customerName.None?)
    ensures r.Err? ==> (Missing(CustomerId) in r.error <==> p.customerId.None?)
    ensures r.Err? ==> (Missing(BlockCard) in r.error <==> p.blockCard.None?)
    ensures r.Err? ==> (Missing(Risk) in r.error <==> p.risk.None?)
    ensures p.risk.Some? && p.risk.value < RiskMin ==> r.Err? && GreaterThanEqual(Risk, RiskMin, p.risk.value) in r.error
    ensures p.risk.Some? && p.risk.value > RiskMax ==> r.Err? && LessThanEqual(Risk, RiskMax, p.risk.value) in r.error
  {
    var errors :=
      Required(SupportAdvice, p.supportAdvice)
      + Required(CustomerName, p.customerName)
      + Required(CustomerId, p.customerId)
      + Required(BlockCard, p.blockCard)
      + RiskErrors(p.risk);
    if errors == [] then
      Ok(SupportOutput(p.supportAdvice.value, p.customerName.value, p.customerId.value, p.blockCard.value, p.risk.value))
    else
      Err(errors)
  }

  /** Every valid record passes validation unchanged. */
  lemma {:induction false} ValidateAcceptsValid(o: SupportOutput)
    requires o.Valid()
    ensures Validate(ToPayload(o)) == Ok(o)
  {
  }
}

/** The outcome of one send: the `Error` enum, the `read_status` classifier
    inside `send_email`, and the dispatch on what the transport returned. */
module SendStatus {
  import opened Wrappers
  import opened Text

  newtype u16 = x: int | 0 <= x < 0x1_0000

  /** Stand-in for the HTTP client's own error value, which the model does
      not look into. */
  datatype TransportError = TransportError(message: string)

  datatype Error =
    | InvalidApiToken
    | FromAddrNotParseable
    | NoToField
    | ToAddrNotParseable
    | ToAddrBlocked
    | TooManyToAddrs
    | ExtensionTypeBlocked
    | MissingApiToken
    | DomainDkimVerificationNotCompleted
    | InactivePlanForDomain
    | OrganizationDisabled
    | FromAddrNotEqualToRegisteredDomain
    | InvalidRequestFormat
    | RateLimit
    | NoContent
    | NetworkError(cause: TransportError)
    | Other(detail: string)

  /** `Result<(), Error>`. */
  datatype Outcome = Ok | Err(error: Error)

  /** The status codes whose outcome does not depend on the body. */
  predicate IsFixedCode(status: u16)
  {
    status == 200 || status == 401 || status == 406 || status == 429 || status == 500
  }

  /** The error for a readable body of a 400 response: the first trigger
      phrase found decides, and a body with none is passed on as it is. */
  function BadRequestError(body: string): Error
  {
    if Contains(body, "Invalid API") then InvalidApiToken
    else if Contains(body, "not parseable") then FromAddrNotParseable
    else if Contains(body, "undefined field") then NoToField
    else if Contains(body, "is invalid") then ToAddrNotParseable
    else if Contains(body, "blocked address") then ToAddrBlocked
    else if Contains(body, "maximum volume") then RateLimit
    else if Contains(body, "Extension file type blocked") then ExtensionTypeBlocked
    else Other(body)
  }

  /** The error for a readable body of a 403 response, in the same style. */
  function ForbiddenError(body: string): Error
  {
    if Contains(body, "Domain DKIM") then DomainDkimVerificationNotCompleted
    else if Contains(body, "not have an active plan") then InactivePlanForDomain
    else if Contains(body, "unable to send email") then OrganizationDisabled
    else if Contains(body, "Verified domain") then FromAddrNotEqualToRegisteredDomain
    else Other(body)
  }

  /** `read_status`: a status code and a body that may not be readable as
      text, mapped to one outcome. Only 200 succeeds; the classifier never
      reports `TooManyToAddrs` or a network error; and an `Other` carries the
      body when it was readable, otherwise the status code in decimal. */
  function ReadStatus(status: u16, body: Option<string>): (r: Outcome)
    ensures r.Ok? <==> status == 200
    ensures r.Err? ==> !r.error.TooManyToAddrs? && !r.error.NetworkError?
    ensures r.Err? && r.error.Other? ==>
      r.error.detail == (if body.Some? then body.value else NatToDecimal(status as nat))
  {
    if status == 200 then Ok
    else if status == 400 then
      match body
      case Some(s) => Err(BadRequestError(s))
      case None => Err(Other(NatToDecimal(status as nat)))
    else if status == 401 then Err(MissingApiToken)
    else if status == 403 then
      match body
      case Some(s) => Err(ForbiddenError(s))
      case None => Err(Other(NatToDecimal(status as nat)))
    else if status == 406 then Err(InvalidRequestFormat)
    else if status == 429 then Err(RateLimit)
    else if status == 500 then Err(NoContent)
    else
      match body
      case Some(s) => Err(Other(s))
      case None => Err(Other(NatToDecimal(status as nat)))
  }

  // ---------------------------------------------------------------------
  // The trigger phrases as ordered tables: an independent statement of
  // "first match wins"

  datatype Rule = Rule(trigger: string, error: Error)

  const BadRequestRules: seq<Rule> := [
    Rule("Invalid API", InvalidApiToken),
    Rule("not parseable", FromAddrNotParseable),
    Rule("undefined field", NoToField),
    Rule("is invalid", ToAddrNotParseable),
    Rule("blocked address", ToAddrBlocked),
    Rule("maximum volume", RateLimit),
    Rule("Extension file type blocked", ExtensionTypeBlocked)
  ]

  const ForbiddenRules: seq<Rule> := [
    Rule("Domain DKIM", DomainDkimVerificationNotCompleted),
    Rule("not have an active plan", InactivePlanForDomain),
    Rule("unable to send email", OrganizationDisabled),
    Rule("Verified domain", FromAddrNotEqualToRegisteredDomain)
  ]

  /** Rule `k` is the first rule whose trigger occurs in `body`. */
  ghost predicate FirstTrigger(rules: seq<Rule>, body: string, k: int)
  {
    0 <= k < |rules| && Contains(body, rules[k].trigger) &&
    forall j :: 0 <= j < k ==> !Contains(body, rules[j].trigger)
  }

  /** The index of the first rule whose trigger occurs in `body`, if any. */
  function FirstMatch(rules: seq<Rule>, body: string): (r: Option<nat>)
    ensures r.Some? ==> FirstTrigger(rules, body, r.value)
    ensures r.None? ==> forall j :: 0 <= j < |rules| ==> !Contains(body, rules[j].trigger)
  {
    if rules == [] then None
    else if Contains(body, rules[0].trigger) then Some(0)
    else
      match FirstMatch(rules[1..], body)
      case Some(k) => Some(k + 1)
      case None => None
  }

  /** Classification by a rule table: the first matching rule's error, or the
      body itself. */
  function ClassifyBy(rules: seq<Rule>, body: string): Error
  {
    match FirstMatch(rules, body)
    case Some(k) => rules[k].error
    case None => Other(body)
  }

  /** No two rules of a table report the same error, and none reports `Other`. */
  predicate DistinctErrors(rules: seq<Rule>)
  {
    (forall i :: 0 <= i < |rules| ==> !rules[i].error.Other?) &&
    forall i, j :: 0 <= i < j < |rules| ==> rules[i].error != rules[j].error
  }

  lemma TablesHaveDistinctErrors()
    ensures DistinctErrors(BadRequestRules) && DistinctErrors(ForbiddenRules)
  {
  }

  /** The 400 branch is the 400 table read first-match-wins. */
  lemma BadRequestFollowsTable(body: string)
    ensures BadRequestError(body) == ClassifyBy(BadRequestRules, body)
  {
    var rules := BadRequestRules;
    var m := FirstMatch(rules, body);
    assert m.Some? ==> FirstTrigger(rules, body, m.value);
    assert rules[0].trigger == "Invalid API" && rules[1].trigger == "not parseable";
    assert rules[2].trigger == "undefined field" && rules[3].trigger == "is invalid";
    assert rules[4].trigger == "blocked address" && rules[5].trigger == "maximum volume";
    assert rules[6].trigger == "Extension file type blocked";
  }

  /** The 403 branch is the 403 table read first-match-wins. */
  lemma ForbiddenFollowsTable(body: string)
    ensures ForbiddenError(body) == ClassifyBy(ForbiddenRules, body)
  {
    var rules := ForbiddenRules;
    var m := FirstMatch(rules, body);
    assert m.Some? ==> FirstTrigger(rules, body, m.value);
    assert rules[0].trigger == "Domain DKIM" && rules[1].trigger == "not have an active plan";
    assert rules[2].trigger == "unable to send email" && rules[3].trigger == "Verified domain";
  }

  /** With a table whose errors are distinct, a rule's error is reported
      exactly when that rule is the first one whose trigger occurs. */
  lemma ClassifyByExact(rules: seq<Rule>, body: string, k: nat)
    requires DistinctErrors(rules) && k < |rules|
    ensures ClassifyBy(rules, body) == rules[k].error <==> FirstTrigger(rules, body, k)
  {
  }

  /** Status 400 with a readable body: rule `k` of the 400 table is reported
      exactly when its phrase is present and no earlier phrase is. */
  lemma BadRequestPrecedence(body: string, k: nat)
    requires k < |BadRequestRules|
    ensures ReadStatus(400, Some(body)) == Err(BadRequestRules[k].error) <==>
      FirstTrigger(BadRequestRules, body, k)
  {
    TablesHaveDistinctErrors();
    BadRequestFollowsTable(body);
    ClassifyByExact(BadRequestRules, body, k);
  }

  /** Status 403 with a readable body: rule `k` of the 403 table is reported
      exactly when its phrase is present and no earlier phrase is. */
  lemma ForbiddenPrecedence(body: string, k: nat)
    requires k < |ForbiddenRules|
    ensures ReadStatus(403, Some(body)) == Err(ForbiddenRules[k].error) <==>
      FirstTrigger(ForbiddenRules, body, k)
  {
    TablesHaveDistinctErrors();
    ForbiddenFollowsTable(body);
    ClassifyByExact(ForbiddenRules, body, k);
  }

  /** With a table that never reports `Other`, the body itself is reported
      exactly when no trigger occurs in it. */
  lemma ClassifyByFallback(rules: seq<Rule>, body: string)
    requires DistinctErrors(rules)
    ensures ClassifyBy(rules, body) == Other(body) <==>
      forall j :: 0 <= j < |rules| ==> !Contains(body, rules[j].trigger)
  {
    var m := FirstMatch(rules, body);
    if m.Some? {
      assert Contains(body, rules[m.value].trigger);
      assert !rules[m.value].error.Other?;
    }
  }

  /** A readable 400 body that holds none of the 400 phrases is reported as
      `Other` carrying the body, and only such a body is. */
  lemma BadRequestFallback(body: string)
    ensures ReadStatus(400, Some(body)) == Err(Other(body)) <==>
      forall j :: 0 <= j < |BadRequestRules| ==> !Contains(body, BadRequestRules[j].trigger)
  {
    TablesHaveDistinctErrors();
    BadRequestFollowsTable(body);
    ClassifyByFallback(BadRequestRules, body);
  }

  /** A readable 403 body that holds none of the 403 phrases is reported as
      `Other` carrying the body, and only such a body is. */
  lemma ForbiddenFallback(body: string)
    ensures ReadStatus(403, Some(body)) == Err(Other(body)) <==>
      forall j :: 0 <= j < |ForbiddenRules| ==> !Contains(body, ForbiddenRules[j].trigger)
  {
    TablesHaveDistinctErrors();
    ForbiddenFollowsTable(body);
    ClassifyByFallback(ForbiddenRules, body);
  }

  /** A body holding both "Invalid API" and "is invalid" is an invalid API
      token: the earlier rule wins. */
  lemma InvalidApiBeatsInvalidAddress(body: string)
    requires Contains(body, "Invalid API") && Contains(body, "is invalid")
    ensures ReadStatus(400, Some(body)) == Err(InvalidApiToken)
  {
  }

  lemma InvalidApiTokenExample()
    ensures ReadStatus(400, Some("Invalid API token")) == Err(InvalidApiToken)
  {
    assert OccursAt("Invalid API token", "Invalid API", 0);
  }

  /** The fixed codes give the same outcome whatever the body, readable or not. */
  lemma FixedCodesIgnoreBody(body: Option<string>)
    ensures ReadStatus(200, body) == Ok
    ensures ReadStatus(401, body) == Err(MissingApiToken)
    ensures ReadStatus(406, body) == Err(InvalidRequestFormat)
    ensures ReadStatus(429, body) == Err(RateLimit)
    ensures ReadStatus(500, body) == Err(NoContent)
  {
  }

  /** Every other code with an unreadable body is reported as `Other` carrying
      the code in decimal, so different codes stay distinguishable. */
  lemma UnreadableBodyGivesCode(status: u16, other: u16)
    requires !IsFixedCode(status) && !IsFixedCode(other)
    ensures ReadStatus(status, None) == Err(Other(NatToDecimal(status as nat)))
    ensures ReadStatus(status, None) == ReadStatus(other, None) ==> status == other
  {
    if ReadStatus(status, None) == ReadStatus(other, None) {
      NatToDecimalInjective(status as nat, other as nat);
    }
  }

  /** A code the classifier does not know passes a readable body on as it is. */
  lemma UnknownCodeGivesBody(status: u16, body: string)
    requires !IsFixedCode(status) && status != 400 && status != 403
    ensures ReadStatus(status, Some(body)) == Err(Other(body))
  {
  }

  // ---------------------------------------------------------------------
  // The transport around the classifier

  /** What the HTTP client hands back: a response with a success status, an
      error-status response, or a failure to complete the exchange. */
  datatype TransportResult =
    | Success(status: u16, body: Option<string>)
    | StatusError(status: u16, body: Option<string>)
    | Failure(cause: TransportError)

  /** The outcome of `send_email` given what the transport returned: both
      kinds of response go through the classifier, and only a transport
      failure is a network error. */
  function SendOutcome(t: TransportResult): (r: Outcome)
    ensures (r.Err? && r.error.NetworkError?) <==> t.Failure?
    ensures t.Failure? ==> r == Err(NetworkError(t.cause))
    ensures r.Ok? <==> !t.Failure? && t.status == 200
  {
    match t
    case Success(status, body) => ReadStatus(status, body)
    case StatusError(code, body) => ReadStatus(code, body)
    case Failure(cause) => Err(NetworkError(cause))
  }

  /** A status response is classified the same whether the client reported
      it as a success or as an error status. */
  lemma ResponseKindIrrelevant(status: u16, body: Option<string>)
    ensures SendOutcome(Success(status, body)) == SendOutcome(StatusError(status, body))
    ensures SendOutcome(Success(status, body)) == ReadStatus(status, body)
  {
  }
}

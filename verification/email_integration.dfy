/** The email server integration service: how the parameters of a new
    email integration are checked and normalised before they are stored,
    and which existing integration the new parameters are attached to. */
module EmailIntegration {
  import opened Common
  import opened JavaText
  import MailServiceFactory

  /** The values a parameter map received from a request can hold. */
  datatype Value = Null | Text(text: string) | Number(number: int) | Flag(flag: bool)

  type Params = map<string, Value>

  // Names of the email settings (`EmailSettingsEnum` attributes).
  const FromKey: string := "from"
  const PortKey: string := "port"
  const ProtocolKey: string := "protocol"
  const AuthEnabledKey: string := "authEnabled"
  const UsernameKey: string := "username"
  const PasswordKey: string := "password"

  const DefaultPort: int := 25
  const MaxPort: int := 65535
  const DefaultProtocol: string := "smtp"

  /** `String.valueOf` of a parameter value. */
  function Render(v: Value): string {
    match v
    case Null => "null"
    case Text(s) => s
    case Number(n) => Decimal(n)
    case Flag(b) => if b then "true" else "false"
  }

  /** The setting under `key` as text; absent when missing or `null`. */
  function Attribute(params: Params, key: string): (r: Option<string>)
    ensures r.Some? <==> key in params && params[key] != Null
  {
    if key in params && params[key] != Null then Some(Render(params[key])) else None
  }

  /** The port asked for: a missing, `null` or unparsable value means 25. */
  function RequestedPort(params: Params): int {
    match Attribute(params, PortKey)
    case None => DefaultPort
    case Some(text) => ParseInt(Some(text)).GetOr(DefaultPort)
  }

  predicate ValidPort(port: int) {
    0 < port <= MaxPort
  }

  /** A FROM value is given and the address validator rejects it. */
  predicate FromRejected(params: Params, isEmailValid: string -> bool) {
    Attribute(params, FromKey).Some? && !isEmailValid(Attribute(params, FromKey).value)
  }

  predicate AuthEnabled(params: Params) {
    ToBoolean(Attribute(params, AuthEnabledKey))
  }

  /** The keys normalisation may write. */
  const ManagedKeys: set<string> := {PortKey, ProtocolKey, UsernameKey, PasswordKey}

  /** The protocol step: "smtp" unless a protocol is given. */
  function WithProtocol(params: Params): Params {
    if Attribute(params, ProtocolKey).None? then params[ProtocolKey := Text(DefaultProtocol)] else params
  }

  /** The credentials step: encrypt the password when authentication is on,
      drop both credentials when it is off. */
  function WithCredentials(params: Params, encrypt: string -> string): Params {
    if AuthEnabled(params) then
      match Attribute(params, PasswordKey)
      case Some(password) => params[PasswordKey := Text(encrypt(password))]
      case None => params
    else
      params[UsernameKey := Null][PasswordKey := Null]
  }

  /** `updateIntegrationParams`: validate the parameters and normalise port,
      protocol and credentials. */
  function UpdateIntegrationParams(params: Params, isEmailValid: string -> bool, encrypt: string -> string): (r: Result<Params>)
    ensures r == Failure(ReportPortal(BadRequestError)) <==> |params| == 0 || FromRejected(params, isEmailValid)
    ensures r == Failure(ReportPortal(IncorrectRequest)) <==>
              |params| != 0 && !FromRejected(params, isEmailValid) && !ValidPort(RequestedPort(params))
    ensures r.Failure? ==> r.error in {ReportPortal(BadRequestError), ReportPortal(IncorrectRequest)}
    // the port is the parsed integer, in range
    ensures r.Success? ==> PortKey in r.value && ProtocolKey in r.value
    ensures r.Success? ==> r.value[PortKey] == Number(RequestedPort(params))
    ensures r.Success? ==> ValidPort(RequestedPort(params))
    // the protocol defaults to smtp and is otherwise kept
    ensures r.Success? && Attribute(params, ProtocolKey).Some? ==> r.value[ProtocolKey] == params[ProtocolKey]
    ensures r.Success? && Attribute(params, ProtocolKey).None? ==> r.value[ProtocolKey] == Text(DefaultProtocol)
    // credentials
    ensures r.Success? && AuthEnabled(params) && Attribute(params, PasswordKey).Some? ==>
              PasswordKey in r.value && r.value[PasswordKey] == Text(encrypt(Attribute(params, PasswordKey).value))
    ensures r.Success? && AuthEnabled(params) ==>
              forall k :: k == UsernameKey || (k == PasswordKey && Attribute(params, PasswordKey).None?) ==>
                            (k in r.value <==> k in params) && (k in params ==> r.value[k] == params[k])
    ensures r.Success? && !AuthEnabled(params) ==>
              UsernameKey in r.value && PasswordKey in r.value && r.value[UsernameKey] == Null && r.value[PasswordKey] == Null
    // nothing else changes
    ensures r.Success? ==> forall k :: k !in ManagedKeys ==> (k in r.value <==> k in params) && (k in params ==> r.value[k] == params[k])
  {
    if |params| == 0 then
      Failure(ReportPortal(BadRequestError))
    else if FromRejected(params, isEmailValid) then
      Failure(ReportPortal(BadRequestError))
    else
      var port := RequestedPort(params);
      if !ValidPort(port) then
        Failure(ReportPortal(IncorrectRequest))
      else
        Success(WithCredentials(WithProtocol(params[PortKey := Number(port)]), encrypt))
  }

  /** With authentication off, normalising already normalised parameters
      changes nothing: the stored port parses back to itself, the protocol
      is present and the credentials are already dropped. */
  lemma NormalisationIdempotentWithoutAuth(params: Params, isEmailValid: string -> bool, encrypt: string -> string)
    requires UpdateIntegrationParams(params, isEmailValid, encrypt).Success?
    requires !AuthEnabled(params)
    ensures UpdateIntegrationParams(UpdateIntegrationParams(params, isEmailValid, encrypt).value, isEmailValid, encrypt)
            == UpdateIntegrationParams(params, isEmailValid, encrypt)
  {
    var once := UpdateIntegrationParams(params, isEmailValid, encrypt).value;
    var port := RequestedPort(params);
    ParseDecimal(port);
    assert RequestedPort(once) == port;
    assert Attribute(once, FromKey) == Attribute(params, FromKey);
    assert Attribute(once, AuthEnabledKey) == Attribute(params, AuthEnabledKey);
    var p1 := once[PortKey := Number(port)];
    assert p1 == once;
    assert WithProtocol(p1) == once;
    assert WithCredentials(once, encrypt) == once;
  }

  // ---------------------------------------------------------------------
  // retrieveIntegration

  /** The integrations carrying the id `id`, in their original order, each
      as many times as it occurred. */
  function KeepWithId(integrations: seq<Integration<Params>>, id: Option<int>): (r: seq<Integration<Params>>)
    ensures forall i :: i in r <==> i in integrations && i.id == id
    ensures forall i :: multiset(r)[i] == if i.id == id then multiset(integrations)[i] else 0
    ensures Subsequence(r, integrations)
    decreases |integrations|
  {
    if |integrations| == 0 then []
    else
      var rest := KeepWithId(integrations[1..], id);
      assert integrations == [integrations[0]] + integrations[1..];
      assert multiset(integrations) == multiset{integrations[0]} + multiset(integrations[1..]);
      if integrations[0].id == id then
        assert ([integrations[0]] + rest)[1..] == rest;
        assert multiset([integrations[0]] + rest) == multiset{integrations[0]} + multiset(rest);
        [integrations[0]] + rest
      else
        rest
  }

  datatype Retrieved = Retrieved(integration: Integration<Params>, remaining: seq<Integration<Params>>)

  /** `retrieveIntegration`: the first integration found (or a fresh one when
      there is none), and the list trimmed to the integrations with its id. */
  function RetrieveIntegration(integrations: seq<Integration<Params>>): (r: Retrieved)
    requires forall i :: i in integrations ==> i.id.Some?
    ensures |integrations| == 0 ==> r.integration == Integration(None, None) && r.remaining == []
    ensures |integrations| > 0 ==> r.integration == integrations[0] && |r.remaining| > 0 && r.remaining[0] == integrations[0]
    ensures forall i :: i in r.remaining <==> i in integrations && i.id == r.integration.id
    ensures forall i :: multiset(r.remaining)[i] == if i.id == r.integration.id then multiset(integrations)[i] else 0
    ensures Subsequence(r.remaining, integrations)
  {
    var chosen := if |integrations| == 0 then Integration(None, None) else integrations[0];
    Retrieved(chosen, KeepWithId(integrations, chosen.id))
  }

  // ---------------------------------------------------------------------
  // testConnection and the two create operations

  /** `testConnection`: without an email service there is nothing to test; a
      service whose connection test fails forbids the operation. */
  function TestConnection(service: Option<MailServiceFactory.EmailService>, connects: MailServiceFactory.EmailService -> bool): (r: Outcome)
    ensures r.Pass? <==> service.None? || connects(service.value)
    ensures r.Fail? ==> r.error == ReportPortal(ForbiddenOperation)
  {
    match service
    case None => Pass
    case Some(s) => if connects(s) then Pass else Fail(ReportPortal(ForbiddenOperation))
  }

  /** The integration service's test and the mail factory's check agree on
      every existing service; they part only on a missing one, which the
      integration service lets through and the factory rejects. */
  lemma TestAndCheckAgreeOnServices(service: Option<MailServiceFactory.EmailService>, connects: MailServiceFactory.EmailService -> bool)
    ensures service.Some? ==>
              (TestConnection(service, connects).Pass? <==> MailServiceFactory.CheckConnection(service, connects).Pass?)
    ensures service.None? ==>
              TestConnection(service, connects).Pass? && MailServiceFactory.CheckConnection(service, connects).Fail?
  {
  }

  datatype Created = Created(integration: Integration<Params>, integrationType: string)

  /** `createGlobalIntegration` and `createProjectIntegration`, which differ
      only in the stored integrations they look up (`existing`): validate and
      normalise the parameters, resolve the integration type by name
      (`integrationType`, absent when no such type exists), attach the
      parameters to the retrieved integration and test its connection.
      `serviceFor` builds the email service for a parameter set. */
  function CreateIntegration(
    params: Params,
    isEmailValid: string -> bool,
    encrypt: string -> string,
    integrationType: Option<string>,
    existing: seq<Integration<Params>>,
    serviceFor: Params -> Option<MailServiceFactory.EmailService>,
    connects: MailServiceFactory.EmailService -> bool): (r: Result<Created>)
    requires forall i :: i in existing ==> i.id.Some?
    ensures UpdateIntegrationParams(params, isEmailValid, encrypt).Failure? ==>
              r == Failure(UpdateIntegrationParams(params, isEmailValid, encrypt).error)
    ensures UpdateIntegrationParams(params, isEmailValid, encrypt).Success? && integrationType.None? ==>
              r == Failure(ReportPortal(UnableInteractWithIntegration))
    ensures UpdateIntegrationParams(params, isEmailValid, encrypt).Success? && integrationType.Some? ==>
              var normalised := UpdateIntegrationParams(params, isEmailValid, encrypt).value;
              (r.Success? <==> TestConnection(serviceFor(normalised), connects).Pass?)
    ensures r.Failure? && UpdateIntegrationParams(params, isEmailValid, encrypt).Success? && integrationType.Some? ==>
              r.error == ReportPortal(ForbiddenOperation)
    ensures r.Success? ==>
              && UpdateIntegrationParams(params, isEmailValid, encrypt).Success?
              && r.value.integration.params == Some(UpdateIntegrationParams(params, isEmailValid, encrypt).value)
              && r.value.integration.id == (if |existing| == 0 then None else existing[0].id)
              && integrationType == Some(r.value.integrationType)
  {
    var normalised :- UpdateIntegrationParams(params, isEmailValid, encrypt);
    match integrationType
    case None => Failure(ReportPortal(UnableInteractWithIntegration))
    case Some(typeName) =>
      var integration := RetrieveIntegration(existing).integration.(params := Some(normalised));
      match TestConnection(serviceFor(normalised), connects)
      case Fail(e) => Failure(e)
      case Pass => Success(Created(integration, typeName))
  }
}

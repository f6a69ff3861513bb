/**
 * Building one HTTP request descriptor for one input item, as the body of the
 * item loop of `execute` does: operation lookup, placeholder resolution and
 * substitution, headers, query string, body and authorization header.
 *
 * `BuildRequest` is the pure specification; `PrepareRequest` follows the code
 * step by step (the placeholder loop and the in-place updates of `options`) and
 * is proved equal to it.
 */
module Request {
  import opened Wrappers
  import opened Registry
  import opened Template

  /** A parameter collection as the host hands it over: field name to value.
      A missing or non-object collection behaves as the empty one. */
  type Bag = map<string, string>

  datatype Json =
    | JNull
    | JBool(b: bool)
    | JNum(n: real)
    | JStr(s: string)
    | JArr(elems: seq<Json>)
    | JObj(fields: map<string, Json>)

  /** The fields of the `connectSecureApi` credential that the request uses. */
  datatype Credentials = Credentials(baseUrl: string, tenant: string, userId: string)

  /** What the host answers during a run: the two credential fetches, the
      `oAuth2Api` parameter read for item 0, and `JSON.parse` (a message on failure). */
  datatype Host = Host(
    credentials: Result<Credentials, string>,
    oAuth2Credentials: Result<(), string>,
    token: Result<string, string>,
    parse: string -> Result<Json, string>)

  /** The node parameters of one input item. `operationParameters` is keyed by the
      collection name `<operation>Parameters`; `idFields` holds the resource-scoped
      id fields (`companyId`, `agentId`, ...). */
  datatype Item = Item(
    resource: string,
    operation: string,
    query: Bag,
    body: Bag,
    operationParameters: map<string, Bag>,
    idFields: Bag)

  /** The `options` object handed to `helpers.request`. */
  datatype Request = Request(
    httpMethod: string,
    url: string,
    headers: map<string, string>,
    qs: Option<Bag>,
    body: Option<Json>)

  datatype Error =
    | UnknownResource(resource: string)
    | UnknownOperation(resource: string, operation: string)
    | MissingParameter(name: string)
    | HostFailure(message: string)
    | InvalidJson(message: string)
    | TransportFailure(message: string)

  /** The `message` of the error thrown for `e`; the two lookup failures are the
      `TypeError`s of reading a property of `undefined` after a failed `find`. */
  function Message(e: Error): string {
    match e
    case UnknownResource(_) => "Cannot read properties of undefined (reading 'operations')"
    case UnknownOperation(_, _) => "Cannot read properties of undefined (reading 'endpoint')"
    case MissingParameter(name) => "Parameter " + name + " is required for this operation but was not provided"
    case HostFailure(message) => message
    case InvalidJson(message) => "Invalid JSON in request body: " + message
    case TransportFailure(message) => message
  }

  function HostCall<T>(r: Result<T, string>): Result<T, Error> {
    match r
    case Ok(v) => Ok(v)
    case Err(message) => Err(HostFailure(message))
  }

  /** `resources.find(...)!.operations.find(...)!`: the first resource with the
      id, then its first operation with the id; a miss fails the item. */
  function FindOperation(table: Table, r: string, o: string): (res: Result<Operation, Error>)
    ensures res.Ok? ==> Lookup(table, r, o) == Some(res.value)
    ensures UniqueResourceIds(table) ==> (res.Err? <==> Lookup(table, r, o).None?)
    ensures res.Err? ==> res.error == UnknownResource(r) || res.error == UnknownOperation(r, o)
  {
    FindAgreesWithLookup(table, r, o);
    match FirstResource(table, r)
    case None => Err(UnknownResource(r))
    case Some(resource) =>
      match FindOp(resource.operations, o)
      case None => Err(UnknownOperation(r, o))
      case Some(op) => Ok(op)
  }

  /** `getNodeParameter(name, i, '')` for an id field. */
  function FieldValue(fields: Bag, name: string): string {
    if name in fields then fields[name] else ""
  }

  /** The id field consulted for a placeholder named `id`, per resource. */
  function PathIdField(resource: string): Option<string> {
    if resource == "company" then Some("companyId")
    else if resource == "agent" then Some("agentId")
    else if resource == "credentials" then Some("credentialId")
    else if resource == "discoverySettings" then Some("discoverySettingId")
    else if resource == "asset" then Some("assetId")
    else None
  }

  /** The id field copied into a request body, per resource. */
  function BodyIdField(resource: string): Option<string> {
    if PathIdField(resource).Some? then PathIdField(resource)
    else if resource == "agentCredentialsMapping" then Some("mappingId")
    else if resource == "agentDiscoverySettingsMapping" then Some("mappingId")
    else if resource == "integration" then Some("integrationCredentialId")
    else if resource == "vulnerability" then Some("vulnerabilityId")
    else None
  }

  /** The three sources a placeholder is resolved from. */
  datatype Sources = Sources(resource: string, operationBag: Bag, idFields: Bag, query: Bag)

  /** The value of placeholder `name`: the operation parameters if they hold the
      key (even an empty value), else for `id` of a resource with an id field that
      field, else the query parameters; "" when none supplies it. */
  function ResolveParam(name: string, src: Sources): string {
    if name in src.operationBag then src.operationBag[name]
    else if name == "id" && PathIdField(src.resource).Some? then FieldValue(src.idFields, PathIdField(src.resource).value)
    else if name in src.query then src.query[name]
    else ""
  }

  function ResolvedValues(ms: seq<string>, src: Sources): (vals: seq<string>)
  {
    seq(|ms|, k requires 0 <= k < |ms| => ResolveParam(ParamName(ms[k]), src))
  }

  /** The placeholder loop from the `k`-th match on: each match is resolved and
      replaced in the current endpoint; an empty value stops with an error. */
  function SubstituteFrom(endpoint: string, ms: seq<string>, src: Sources): Result<string, Error>
    decreases |ms|
  {
    if ms == [] then Ok(endpoint)
    else
      var name := ParamName(ms[0]);
      var value := ResolveParam(name, src);
      if value == "" then Err(MissingParameter(name))
      else SubstituteFrom(ReplaceFirst(endpoint, ms[0], value), ms[1..], src)
  }

  /** The endpoint after the placeholder loop (skipped when there is no `{`). */
  function ResolveEndpoint(template: string, src: Sources): Result<string, Error> {
    if '{' in template then SubstituteFrom(template, Placeholders(template), src) else Ok(template)
  }

  /** The loop fails exactly when some placeholder resolves to "", and then with
      the name of the first such placeholder; otherwise it is the sequential
      replacement by the resolved values. */
  lemma SubstituteFromOutcome(endpoint: string, ms: seq<string>, src: Sources)
    ensures SubstituteFrom(endpoint, ms, src).Err? <==>
      exists k :: 0 <= k < |ms| && ResolveParam(ParamName(ms[k]), src) == ""
    ensures SubstituteFrom(endpoint, ms, src).Err? ==>
      exists k :: 0 <= k < |ms| && ResolveParam(ParamName(ms[k]), src) == ""
        && (forall j :: 0 <= j < k ==> ResolveParam(ParamName(ms[j]), src) != "")
        && SubstituteFrom(endpoint, ms, src).error == MissingParameter(ParamName(ms[k]))
    ensures SubstituteFrom(endpoint, ms, src).Ok? ==>
      SubstituteFrom(endpoint, ms, src).value == ReplaceEach(endpoint, ms, ResolvedValues(ms, src))
  {
    SubstituteFromFails(endpoint, ms, src);
    SubstituteFromFirstMissing(endpoint, ms, src);
    SubstituteFromValue(endpoint, ms, src);
  }

  /** The loop fails exactly when some placeholder resolves to "". */
  lemma {:induction false} SubstituteFromFails(endpoint: string, ms: seq<string>, src: Sources)
    ensures SubstituteFrom(endpoint, ms, src).Err? <==>
      exists k :: 0 <= k < |ms| && ResolveParam(ParamName(ms[k]), src) == ""
    decreases |ms|
  {
    if ms != [] && ResolveParam(ParamName(ms[0]), src) != "" {
      SubstituteFromFails(ReplaceFirst(endpoint, ms[0], ResolveParam(ParamName(ms[0]), src)), ms[1..], src);
      MissingInTail(ms, src);
    }
  }

  /** Past a placeholder that resolves, a missing one is one of the rest. */
  lemma MissingInTail(ms: seq<string>, src: Sources)
    requires |ms| > 0 && ResolveParam(ParamName(ms[0]), src) != ""
    ensures (exists k :: 0 <= k < |ms| && ResolveParam(ParamName(ms[k]), src) == "") <==>
      (exists k :: 0 <= k < |ms[1..]| && ResolveParam(ParamName(ms[1..][k]), src) == "")
  {
    if k :| 0 <= k < |ms| && ResolveParam(ParamName(ms[k]), src) == "" {
      assert ms[1..][k - 1] == ms[k];
    }
    if k :| 0 <= k < |ms[1..]| && ResolveParam(ParamName(ms[1..][k]), src) == "" {
      assert ms[k + 1] == ms[1..][k];
    }
  }

  /** When the loop fails, it names the first placeholder that resolves to "". */
  lemma {:induction false} SubstituteFromFirstMissing(endpoint: string, ms: seq<string>, src: Sources)
    ensures SubstituteFrom(endpoint, ms, src).Err? ==>
      exists k :: 0 <= k < |ms| && ResolveParam(ParamName(ms[k]), src) == ""
        && (forall j :: 0 <= j < k ==> ResolveParam(ParamName(ms[j]), src) != "")
        && SubstituteFrom(endpoint, ms, src).error == MissingParameter(ParamName(ms[k]))
    decreases |ms|
  {
    if ms != [] {
      var value := ResolveParam(ParamName(ms[0]), src);
      if value == "" {
        assert SubstituteFrom(endpoint, ms, src).error == MissingParameter(ParamName(ms[0]));
      } else {
        var next := ReplaceFirst(endpoint, ms[0], value);
        SubstituteFromFirstMissing(next, ms[1..], src);
        if SubstituteFrom(next, ms[1..], src).Err? {
          var k :| 0 <= k < |ms[1..]| && ResolveParam(ParamName(ms[1..][k]), src) == ""
            && (forall j :: 0 <= j < k ==> ResolveParam(ParamName(ms[1..][j]), src) != "")
            && SubstituteFrom(next, ms[1..], src).error == MissingParameter(ParamName(ms[1..][k]));
          FirstMissingShift(ms, src, k);
        }
      }
    }
  }

  /** The first missing placeholder of the rest, after one that resolves, is the
      first missing one of the whole list. */
  lemma FirstMissingShift(ms: seq<string>, src: Sources, k: nat)
    requires |ms| > 0 && ResolveParam(ParamName(ms[0]), src) != "" && k < |ms| - 1
    requires ResolveParam(ParamName(ms[1..][k]), src) == ""
    requires forall j :: 0 <= j < k ==> ResolveParam(ParamName(ms[1..][j]), src) != ""
    ensures ms[k + 1] == ms[1..][k] && ResolveParam(ParamName(ms[k + 1]), src) == ""
    ensures forall j :: 0 <= j < k + 1 ==> ResolveParam(ParamName(ms[j]), src) != ""
  {
    forall j | 0 < j < k + 1 ensures ResolveParam(ParamName(ms[j]), src) != "" {
      assert ms[j] == ms[1..][j - 1];
    }
  }

  /** When the loop succeeds, it is the sequential replacement by the resolved values. */
  lemma {:induction false} SubstituteFromValue(endpoint: string, ms: seq<string>, src: Sources)
    ensures SubstituteFrom(endpoint, ms, src).Ok? ==>
      SubstituteFrom(endpoint, ms, src).value == ReplaceEach(endpoint, ms, ResolvedValues(ms, src))
    decreases |ms|
  {
    if ms != [] {
      var value := ResolveParam(ParamName(ms[0]), src);
      if value != "" {
        var next := ReplaceFirst(endpoint, ms[0], value);
        SubstituteFromValue(next, ms[1..], src);
        ResolvedValuesSplit(ms, src);
      }
    }
  }

  /** The resolved values of a list are the first one's, then the rest's. */
  lemma ResolvedValuesSplit(ms: seq<string>, src: Sources)
    requires |ms| > 0
    ensures ResolvedValues(ms, src)[0] == ResolveParam(ParamName(ms[0]), src)
    ensures ResolvedValues(ms, src)[1..] == ResolvedValues(ms[1..], src)
  {
    var vals := ResolvedValues(ms, src);
    forall k | 0 <= k < |ms| - 1 ensures vals[1..][k] == ResolvedValues(ms[1..], src)[k] {
      assert ms[1..][k] == ms[k + 1];
    }
  }

  /** A template without `{` has no placeholder. */
  lemma {:induction false} NoBraceNoPlaceholder(t: string, p: nat)
    requires p <= |t| && '{' !in t
    ensures PlaceholdersFrom(t, p) == []
    decreases |t| - p
  {
    if p < |t| {
      assert t[p..][0] == t[p];
      NoBraceNoPlaceholder(t, p + 1);
    }
  }

  /** The item fails with `MissingParameter` exactly when a placeholder of the
      template resolves to "", naming the first such placeholder. */
  lemma ResolveEndpointMissing(t: string, src: Sources)
    ensures ResolveEndpoint(t, src).Err? <==>
      exists k :: 0 <= k < |Placeholders(t)| && ResolveParam(ParamName(Placeholders(t)[k]), src) == ""
    ensures ResolveEndpoint(t, src).Err? ==>
      exists k :: 0 <= k < |Placeholders(t)| && ResolveParam(ParamName(Placeholders(t)[k]), src) == ""
        && (forall j :: 0 <= j < k ==> ResolveParam(ParamName(Placeholders(t)[j]), src) != "")
        && ResolveEndpoint(t, src).error == MissingParameter(ParamName(Placeholders(t)[k]))
  {
    if '{' !in t {
      NoBraceNoPlaceholder(t, 0);
    } else {
      SubstituteFromOutcome(t, Placeholders(t), src);
    }
  }

  /** On success with values free of braces and `$`, the endpoint is the template
      with its k-th placeholder replaced by the k-th resolved value, and no
      placeholder is left in it. */
  lemma ResolveEndpointFills(t: string, src: Sources)
    requires forall k :: 0 <= k < |Placeholders(t)| ==>
      var v := ResolveParam(ParamName(Placeholders(t)[k]), src); v != "" && Clean(v)
    ensures ResolveEndpoint(t, src) == Ok(Fill(t, ResolvedValues(Placeholders(t), src)))
    ensures Placeholders(Fill(t, ResolvedValues(Placeholders(t), src))) == []
  {
    var vals := ResolvedValues(Placeholders(t), src);
    ReplaceEachFillsTemplate(t, vals);
    if '{' !in t {
      NoBraceNoPlaceholder(t, 0);
      FillFromNone(t, 0);
    } else {
      SubstituteFromOutcome(t, Placeholders(t), src);
    }
  }

  /** Two sources that give every placeholder the same value give the same endpoint. */
  lemma {:induction false} SameValuesSameEndpoint(endpoint: string, ms: seq<string>, s1: Sources, s2: Sources)
    requires forall k :: 0 <= k < |ms| ==> ResolveParam(ParamName(ms[k]), s1) == ResolveParam(ParamName(ms[k]), s2)
    ensures SubstituteFrom(endpoint, ms, s1) == SubstituteFrom(endpoint, ms, s2)
    decreases |ms|
  {
    if ms != [] {
      assert ResolveParam(ParamName(ms[0]), s1) == ResolveParam(ParamName(ms[0]), s2);
      var next := ReplaceFirst(endpoint, ms[0], ResolveParam(ParamName(ms[0]), s1));
      forall k | 0 <= k < |ms[1..]|
        ensures ResolveParam(ParamName(ms[1..][k]), s1) == ResolveParam(ParamName(ms[1..][k]), s2)
      {
        assert ms[1..][k] == ms[k + 1];
      }
      SameValuesSameEndpoint(next, ms[1..], s1, s2);
    }
  }

  /** A key of the operation parameters wins over the id field and the query
      parameters, whatever they hold. */
  lemma OperationParameterWins(name: string, src: Sources, idFields: Bag, query: Bag)
    requires name in src.operationBag
    ensures ResolveParam(name, src) == src.operationBag[name]
    ensures ResolveParam(name, src.(idFields := idFields, query := query)) == src.operationBag[name]
  {
  }

  /** For `{id}` of the five resources with an id field, the id field decides;
      the query parameters are never consulted. */
  lemma ResourceIdBeforeQuery(src: Sources, query: Bag)
    requires "id" !in src.operationBag && PathIdField(src.resource).Some?
    ensures ResolveParam("id", src) == FieldValue(src.idFields, PathIdField(src.resource).value)
    ensures ResolveParam("id", src.(query := query)) == ResolveParam("id", src)
  {
  }

  /** Otherwise only the query parameters are consulted. */
  lemma QueryLast(name: string, src: Sources, idFields: Bag)
    requires name !in src.operationBag && !(name == "id" && PathIdField(src.resource).Some?)
    ensures ResolveParam(name, src) == (if name in src.query then src.query[name] else "")
    ensures ResolveParam(name, src.(idFields := idFields)) == ResolveParam(name, src)
  {
  }

  /** When the operation parameters hold every placeholder name, the endpoint
      does not depend on the id fields or on the query parameters. */
  lemma OperationParametersDecideEndpoint(t: string, src: Sources, idFields: Bag, query: Bag)
    requires forall k :: 0 <= k < |Placeholders(t)| ==> ParamName(Placeholders(t)[k]) in src.operationBag
    ensures ResolveEndpoint(t, src) == ResolveEndpoint(t, src.(idFields := idFields, query := query))
  {
    if '{' in t {
      SameValuesSameEndpoint(t, Placeholders(t), src, src.(idFields := idFields, query := query));
    }
  }

  /** A value `$&` is expanded to the placeholder itself, so it stays in the endpoint. */
  lemma DollarAmpersandKeepsPlaceholder(endpoint: string, m: string, ms: seq<string>, src: Sources)
    requires ms != [] && ms[0] == m && ResolveParam(ParamName(m), src) == "$&"
    ensures SubstituteFrom(endpoint, ms, src) == SubstituteFrom(endpoint, ms[1..], src)
  {
    MatchPatternKeepsText(endpoint, m);
  }

  /** `{ data: bag }` */
  function BagJson(b: Bag): Json {
    JObj(map k | k in b :: JStr(b[k]))
  }

  function Envelope(b: Bag): Json {
    JObj(map["data" := BagJson(b)])
  }

  /** A top-level `id` is set on an object body with a `data` key when the
      resource has a body id field and that field is non-empty. */
  function WithResourceId(body: Json, resource: string, idFields: Bag): Json {
    if body.JObj? && "data" in body.fields && BodyIdField(resource).Some?
       && FieldValue(idFields, BodyIdField(resource).value) != ""
    then JObj(body.fields["id" := JStr(FieldValue(idFields, BodyIdField(resource).value))])
    else body
  }

  predicate IsMutation(httpMethod: string) {
    httpMethod in ["POST", "PUT", "PATCH"]
  }

  /** The operation parameters: read only when the operation declares fields. */
  function OperationBag(op: Operation, item: Item): Bag {
    var key := item.operation + "Parameters";
    if HasFields(op) && key in item.operationParameters then item.operationParameters[key] else map[]
  }

  /** The raw JSON body field is used when present and non-empty. */
  predicate HasRawBody(body: Bag) {
    "jsonRequestBody" in body && body["jsonRequestBody"] != ""
  }

  /** The body of a POST, PUT or PATCH. */
  function MutationBody(item: Item, opBag: Bag, parse: string -> Result<Json, string>): Result<Json, Error> {
    if |opBag| > 0 then Ok(Envelope(opBag))
    else if |item.body| > 0 then
      var raw :-
        if HasRawBody(item.body) then
          match parse(item.body["jsonRequestBody"])
          case Ok(j) => Ok(j)
          case Err(message) => Err(InvalidJson(message))
        else Ok(Envelope(item.body));
      Ok(WithResourceId(raw, item.resource, item.idFields))
    else Ok(Envelope(map[]))
  }

  function RequestBody(httpMethod: string, item: Item, opBag: Bag, parse: string -> Result<Json, string>): Result<Option<Json>, Error> {
    var body :-
      if IsMutation(httpMethod) then
        var j :- MutationBody(item, opBag, parse);
        Ok(Some(j))
      else Ok(None);
    Ok(if httpMethod == "DELETE" then Some(JObj(map[])) else body)
  }

  function Headers(creds: Credentials, token: string): map<string, string> {
    map[
      "Content-Type" := "application/json",
      "Accept" := "application/json",
      "X-Tenant" := creds.tenant,
      "X-USER-ID" := creds.userId,
      "Authorization" := "Bearer " + token]
  }

  function SourcesFor(op: Operation, item: Item): Sources {
    Sources(item.resource, OperationBag(op, item), item.idFields, item.query)
  }

  /** The request for one item, or the error that fails it, in the order the
      code meets them. */
  function BuildRequest(table: Table, host: Host, item: Item): Result<Request, Error> {
    var op :- FindOperation(table, item.resource, item.operation);
    var endpoint :- ResolveEndpoint(op.endpoint, SourcesFor(op, item));
    var creds :- HostCall(host.credentials);
    var body :- RequestBody(op.httpMethod, item, OperationBag(op, item), host.parse);
    var unit :- HostCall(host.oAuth2Credentials);
    var token :- HostCall(host.token);
    Ok(Request(
      op.httpMethod,
      creds.baseUrl + endpoint,
      Headers(creds, token),
      if |item.query| > 0 then Some(item.query) else None,
      body))
  }

  /** An unknown (resource, operation) pair fails the item before anything else. */
  lemma UnknownPairFails(table: Table, host: Host, item: Item)
    requires Lookup(table, item.resource, item.operation).None?
    ensures BuildRequest(table, host, item).Err?
    ensures BuildRequest(table, host, item).error == UnknownResource(item.resource)
         || BuildRequest(table, host, item).error == UnknownOperation(item.resource, item.operation)
    ensures BuildRequest(table, host, item).error == UnknownResource(item.resource)
        <==> forall i :: 0 <= i < |table| ==> table[i].value != item.resource
  {
  }

  /** An unresolved placeholder fails the item, naming the first one, before the
      credentials are read. */
  lemma MissingParameterFails(table: Table, host: Host, item: Item, op: Operation)
    requires FindOperation(table, item.resource, item.operation) == Ok(op)
    requires exists k :: (0 <= k < |Placeholders(op.endpoint)|
      && ResolveParam(ParamName(Placeholders(op.endpoint)[k]), SourcesFor(op, item)) == "")
    ensures BuildRequest(table, host, item).Err?
    ensures exists k :: (0 <= k < |Placeholders(op.endpoint)|
      && (forall j :: 0 <= j < k ==> ResolveParam(ParamName(Placeholders(op.endpoint)[j]), SourcesFor(op, item)) != "")
      && BuildRequest(table, host, item).error == MissingParameter(ParamName(Placeholders(op.endpoint)[k])))
  {
    ResolveEndpointMissing(op.endpoint, SourcesFor(op, item));
  }

  /** A built request has the operation's method, the URL `baseUrl + endpoint`,
      exactly the five fixed headers, and `qs` exactly when the query parameters
      are non-empty, whatever the method. */
  lemma RequestShape(table: Table, host: Host, item: Item, op: Operation)
    requires FindOperation(table, item.resource, item.operation) == Ok(op)
    requires BuildRequest(table, host, item).Ok?
    ensures var req := BuildRequest(table, host, item).value;
      && host.credentials.Ok? && host.token.Ok?
      && req.httpMethod == op.httpMethod
      && ResolveEndpoint(op.endpoint, SourcesFor(op, item)).Ok?
      && req.url == host.credentials.value.baseUrl + ResolveEndpoint(op.endpoint, SourcesFor(op, item)).value
      && req.headers.Keys == {"Content-Type", "Accept", "X-Tenant", "X-USER-ID", "Authorization"}
      && req.headers["Content-Type"] == "application/json"
      && req.headers["Accept"] == "application/json"
      && req.headers["X-Tenant"] == host.credentials.value.tenant
      && req.headers["X-USER-ID"] == host.credentials.value.userId
      && req.headers["Authorization"] == "Bearer " + host.token.value
      && (req.qs.Some? <==> |item.query| > 0)
      && (req.qs.Some? ==> req.qs.value == item.query)
  {
  }

  /** With resolved values free of braces and `$`, the URL is the base URL followed
      by the filled template, and no placeholder is left after the base URL. */
  lemma RequestUrlFilled(table: Table, host: Host, item: Item, op: Operation)
    requires FindOperation(table, item.resource, item.operation) == Ok(op)
    requires BuildRequest(table, host, item).Ok?
    requires forall k :: 0 <= k < |Placeholders(op.endpoint)| ==>
      Clean(ResolveParam(ParamName(Placeholders(op.endpoint)[k]), SourcesFor(op, item)))
    ensures var req := BuildRequest(table, host, item).value;
      var endpoint := Fill(op.endpoint, ResolvedValues(Placeholders(op.endpoint), SourcesFor(op, item)));
      && host.credentials.Ok?
      && req.url == host.credentials.value.baseUrl + endpoint
      && Placeholders(endpoint) == []
  {
    var src := SourcesFor(op, item);
    ResolveEndpointMissing(op.endpoint, src);
    ResolveEndpointFills(op.endpoint, src);
  }

  /** POST, PUT and PATCH bodies. */
  lemma MutationBodyRules(table: Table, host: Host, item: Item, op: Operation)
    requires FindOperation(table, item.resource, item.operation) == Ok(op) && IsMutation(op.httpMethod)
    requires BuildRequest(table, host, item).Ok?
    ensures var body := BuildRequest(table, host, item).value.body;
      var opBag := OperationBag(op, item);
      && (|opBag| > 0 ==> body == Some(Envelope(opBag)))
      && (|opBag| == 0 && |item.body| > 0 && !HasRawBody(item.body) ==>
            body == Some(WithResourceId(Envelope(item.body), item.resource, item.idFields)))
      && (|opBag| == 0 && |item.body| > 0 && HasRawBody(item.body) ==>
            host.parse(item.body["jsonRequestBody"]).Ok?
            && body == Some(WithResourceId(host.parse(item.body["jsonRequestBody"]).value, item.resource, item.idFields)))
      && (|opBag| == 0 && |item.body| == 0 ==> body == Some(Envelope(map[])))
  {
  }

  /** A raw JSON body that does not parse fails the item with `InvalidJson`. */
  lemma InvalidJsonFails(table: Table, host: Host, item: Item, op: Operation, message: string)
    requires FindOperation(table, item.resource, item.operation) == Ok(op) && IsMutation(op.httpMethod)
    requires ResolveEndpoint(op.endpoint, SourcesFor(op, item)).Ok? && host.credentials.Ok?
    requires |OperationBag(op, item)| == 0 && |item.body| > 0 && HasRawBody(item.body)
    requires host.parse(item.body["jsonRequestBody"]) == Err(message)
    ensures BuildRequest(table, host, item) == Err(InvalidJson(message))
  {
  }

  /** DELETE always sends `{}`; other methods that do not mutate send no body. */
  lemma NonMutationBody(table: Table, host: Host, item: Item, op: Operation)
    requires FindOperation(table, item.resource, item.operation) == Ok(op) && !IsMutation(op.httpMethod)
    requires BuildRequest(table, host, item).Ok?
    ensures op.httpMethod == "DELETE" ==> BuildRequest(table, host, item).value.body == Some(JObj(map[]))
    ensures op.httpMethod != "DELETE" ==> BuildRequest(table, host, item).value.body.None?
  {
  }

  /** The resource id goes to the top level of the body, beside `data`, which it
      leaves as it was; otherwise the body is unchanged. */
  lemma ResourceIdAtTopLevel(body: Json, resource: string, idFields: Bag)
    ensures var r := WithResourceId(body, resource, idFields);
      if body.JObj? && "data" in body.fields && BodyIdField(resource).Some?
         && FieldValue(idFields, BodyIdField(resource).value) != ""
      then r.JObj? && r.fields.Keys == body.fields.Keys + {"id"}
        && r.fields["data"] == body.fields["data"]
        && r.fields["id"] == JStr(idFields[BodyIdField(resource).value])
      else r == body
  {
  }

  /** An operation-parameter body never carries a resource id. */
  lemma OperationBodyHasNoId(opBag: Bag)
    ensures Envelope(opBag).fields.Keys == {"data"}
  {
  }

  /** One turn of the placeholder loop. */
  lemma SubstituteStep(endpoint: string, ms: seq<string>, i: nat, src: Sources)
    requires i < |ms|
    ensures var value := ResolveParam(ParamName(ms[i]), src);
      SubstituteFrom(endpoint, ms[i..], src)
      == if value == "" then Err(MissingParameter(ParamName(ms[i])))
         else SubstituteFrom(ReplaceFirst(endpoint, ms[i], value), ms[i + 1..], src)
  {
    assert ms[i..][1..] == ms[i + 1..];
  }

  /** The else-if chain that looks up one placeholder value. */
  method ResolvePathParameter(paramName: string, item: Item, operationParameters: Bag) returns (paramValue: string)
    ensures paramValue == ResolveParam(paramName, Sources(item.resource, operationParameters, item.idFields, item.query))
  {
    paramValue := "";
    if paramName in operationParameters {
      paramValue := operationParameters[paramName];
    } else if item.resource == "company" && paramName == "id" {
      var companyId := FieldValue(item.idFields, "companyId");
      if companyId != "" { paramValue := companyId; }
    } else if item.resource == "agent" && paramName == "id" {
      var agentId := FieldValue(item.idFields, "agentId");
      if agentId != "" { paramValue := agentId; }
    } else if item.resource == "credentials" && paramName == "id" {
      var credentialId := FieldValue(item.idFields, "credentialId");
      if credentialId != "" { paramValue := credentialId; }
    } else if item.resource == "discoverySettings" && paramName == "id" {
      var settingId := FieldValue(item.idFields, "discoverySettingId");
      if settingId != "" { paramValue := settingId; }
    } else if item.resource == "asset" && paramName == "id" {
      var assetId := FieldValue(item.idFields, "assetId");
      if assetId != "" { paramValue := assetId; }
    } else if paramName in item.query {
      paramValue := item.query[paramName];
    }
  }

  /** The placeholder loop: `endpoint` is rewritten one match at a time. */
  method ReplacePathParameters(template: string, item: Item, operationParameters: Bag) returns (r: Result<string, Error>)
    ensures r == ResolveEndpoint(template, Sources(item.resource, operationParameters, item.idFields, item.query))
  {
    ghost var src := Sources(item.resource, operationParameters, item.idFields, item.query);
    var endpoint := template;
    if '{' in endpoint {
      var pathParams := Placeholders(endpoint);
      var i := 0;
      while i < |pathParams|
        invariant 0 <= i <= |pathParams|
        invariant SubstituteFrom(endpoint, pathParams[i..], src) == ResolveEndpoint(template, src)
      {
        var param := pathParams[i];
        var paramName := ReplaceFirst(ReplaceFirst(param, "{", ""), "}", "");
        var paramValue := ResolvePathParameter(paramName, item, operationParameters);
        SubstituteStep(endpoint, pathParams, i, src);
        if paramValue != "" {
          endpoint := ReplaceFirst(endpoint, param, paramValue);
        } else {
          return Err(MissingParameter(paramName));
        }
        i := i + 1;
      }
    }
    r := Ok(endpoint);
  }

  /** The `switch (resource)` that picks the id field copied into the body. */
  method BodyIdFieldOf(resource: string) returns (idField: string)
    ensures idField == (if BodyIdField(resource).Some? then BodyIdField(resource).value else "")
  {
    idField := "";
    if resource == "company" {
      idField := "companyId";
    } else if resource == "agent" {
      idField := "agentId";
    } else if resource == "credentials" {
      idField := "credentialId";
    } else if resource == "discoverySettings" {
      idField := "discoverySettingId";
    } else if resource == "asset" {
      idField := "assetId";
    } else if resource == "agentCredentialsMapping" {
      idField := "mappingId";
    } else if resource == "agentDiscoverySettingsMapping" {
      idField := "mappingId";
    } else if resource == "integration" {
      idField := "integrationCredentialId";
    } else if resource == "vulnerability" {
      idField := "vulnerabilityId";
    }
  }

  /** The body updates of `options`: the POST/PUT/PATCH branch, then DELETE. */
  method SetBody(options: Request, op: Operation, item: Item, operationParameters: Bag, parse: string -> Result<Json, string>)
    returns (r: Result<Request, Error>)
    requires options.body.None?
    requires operationParameters == OperationBag(op, item)
    ensures RequestBody(op.httpMethod, item, operationParameters, parse).Err? ==>
      r == Err(RequestBody(op.httpMethod, item, operationParameters, parse).error)
    ensures RequestBody(op.httpMethod, item, operationParameters, parse).Ok? ==>
      r == Ok(options.(body := RequestBody(op.httpMethod, item, operationParameters, parse).value))
  {
    var options := options;
    if op.httpMethod in ["POST", "PUT", "PATCH"] {
      var body := MutationBodyOf(op, item, operationParameters, parse);
      if body.Err? {
        return Err(body.error);
      }
      options := options.(body := Some(body.value));
    }
    if op.httpMethod == "DELETE" {
      options := options.(body := Some(JObj(map[])));
    }
    r := Ok(options);
  }

  /** The POST, PUT and PATCH branch of the body code: the body it puts in
      `options.body`, with `bodyObj.id` set in place, or the invalid-JSON error. */
  method MutationBodyOf(op: Operation, item: Item, operationParameters: Bag, parse: string -> Result<Json, string>)
    returns (r: Result<Json, Error>)
    requires operationParameters == OperationBag(op, item)
    ensures r == MutationBody(item, operationParameters, parse)
  {
    if HasFields(op) && |operationParameters| > 0 {
      return Ok(Envelope(operationParameters));
    }
    if |item.body| == 0 {
      return Ok(Envelope(map[]));
    }
    var bodyParams := item.body;
    var body: Json;
    if "jsonRequestBody" in bodyParams && bodyParams["jsonRequestBody"] != "" {
      var parsed := parse(bodyParams["jsonRequestBody"]);
      if parsed.Err? {
        return Err(InvalidJson(parsed.error));
      }
      body := parsed.value;
    } else {
      body := Envelope(bodyParams);
    }
    if body.JObj? {
      var bodyObj := body.fields;
      if "data" in bodyObj {
        var idField := BodyIdFieldOf(item.resource);
        if idField != "" && FieldValue(item.idFields, idField) != "" {
          bodyObj := bodyObj["id" := JStr(FieldValue(item.idFields, idField))];
          body := JObj(bodyObj);
        }
      }
    }
    r := Ok(body);
  }

  /**
   * The per-item body of `execute` up to the request: the two `find` calls, the
   * placeholder loop, the `options` object and its in-place updates (`qs`,
   * `body`, `bodyObj.id`, `headers.Authorization`).
   */
  method PrepareRequest(table: Table, host: Host, item: Item) returns (r: Result<Request, Error>)
    ensures r == BuildRequest(table, host, item)
  {
    var resource := FirstResource(table, item.resource);
    if resource.None? {
      return Err(UnknownResource(item.resource));
    }
    var details := FindOp(resource.value.operations, item.operation);
    if details.None? {
      return Err(UnknownOperation(item.resource, item.operation));
    }
    var op := details.value;

    var operationParameters: Bag := map[];
    if HasFields(op) {
      var key := item.operation + "Parameters";
      if key in item.operationParameters {
        operationParameters := item.operationParameters[key];
      }
    }
    assert operationParameters == OperationBag(op, item);

    var resolved := ReplacePathParameters(op.endpoint, item, operationParameters);
    if resolved.Err? {
      return Err(resolved.error);
    }
    var endpoint := resolved.value;

    if host.credentials.Err? {
      return Err(HostFailure(host.credentials.error));
    }
    var credentials := host.credentials.value;

    var options := Request(
      op.httpMethod,
      credentials.baseUrl + endpoint,
      map[
        "Content-Type" := "application/json",
        "Accept" := "application/json",
        "X-Tenant" := credentials.tenant,
        "X-USER-ID" := credentials.userId],
      None,
      None);

    if |item.query| > 0 {
      options := options.(qs := Some(item.query));
    }

    var withBody := SetBody(options, op, item, operationParameters, host.parse);
    if withBody.Err? {
      return Err(withBody.error);
    }
    options := withBody.value;

    if host.oAuth2Credentials.Err? {
      return Err(HostFailure(host.oAuth2Credentials.error));
    }
    if host.token.Err? {
      return Err(HostFailure(host.token.error));
    }
    var token := host.token.value;
    options := options.(headers := options.headers["Authorization" := "Bearer " + token]);
    r := Ok(options);
  }
}

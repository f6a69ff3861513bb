# ConnectSecure node: request construction, modelled in Dafny

This project models the behaviour of the ConnectSecure n8n node
(`nodes/ConnectSecure/ConnectSecure.node.ts`). The node turns each input item
into one HTTP request against the ConnectSecure API. The model covers:

- the two static lookups `getOperationDetails` and `getEndpointForOperation`,
  which scan the `resources` table for a (resource, operation) pair;
- the per-item work of `execute`:
  - it finds the operation with the two `find` calls;
  - it scans the endpoint template for `{name}` placeholders and resolves each
    one through the else-if priority chain, substituting it with
    `String.prototype.replace`;
  - it assembles the `options` object: method, URL, fixed headers, `qs`, the
    body rules for POST/PUT/PATCH, the top-level resource `id` and DELETE's
    `{}`;
  - it adds the `Authorization` header;
- the item loop with its continue-on-fail handling.

Modules:

- `Wrappers`: `Option` and `Result`.
- `Registry`: the table of resources and operations, the pure `Lookup`
  specification, and the two lookup methods, written as nested loops with an
  early return.
- `Template`: the global match of `{([^}]+)}`, JavaScript's first-occurrence
  `replace` (including the `$` patterns of a replacement string), and the
  reference meaning `Fill` of a filled template. The main theorem: replacing
  the matches one after another, each at its first occurrence, yields `Fill`
  whenever the values contain no `{`, `}` or `$`.
- `Request`: the parameter bags, the JSON values, the host's answers, the pure
  `BuildRequest` specification, and the imperative `PrepareRequest` with its
  placeholder loop and its updates of `options`.
- `Execution`: the pure `Run` specification of the item loop, the imperative
  `Execute` loop proved equal to it, and the properties of a run.

The node's inputs are parameters of the model:

- the parameter bags of an item, as maps from string to string;
- the result of `getCredentials` and of the `oAuth2Api` token read;
- `JSON.parse`, as a partial function;
- the transport (`helpers.request` followed by `returnJsonArray`).

The model follows what the code does, including where a reader might expect otherwise:

- The resource id is written at the top level of the body (`bodyObj.id`), not
  inside `data`.
- `qs` is attached for every method whenever the query parameters are
  non-empty.
- A body built from operation parameters never receives an id. This includes
  the `updateCompany` case.
- One item may give several output records, because `returnJsonArray`
  expands an array response.
- `execute` finds the operation with `find` on the first resource whose
  `value` matches. The static lookups search every resource with that
  `value`. `Registry.FindAgreesWithLookup` relates the two.

## Model

| member | source | states |
|---|---|---|
| Registry.GetOperationDetails | nodes/ConnectSecure/ConnectSecure.node.ts:1287-1298 | returns nothing exactly when no resource named `r` has an operation `o`; otherwise it returns the first such operation in table order (no earlier resource and no earlier operation matches), equal to `Lookup` |
| Registry.GetEndpointForOperation | nodes/ConnectSecure/ConnectSecure.node.ts:1274-1285 | returns nothing exactly when the operation lookup returns nothing; otherwise it returns the endpoint of the operation that `getOperationDetails` returns |
| Registry.LookupFirst | nodes/ConnectSecure/ConnectSecure.node.ts:1287-1298 | the lookup specification returns nothing iff the pair occurs nowhere, and otherwise the operation at the first occurrence |
| Registry.FindOpFromFirst | nodes/ConnectSecure/ConnectSecure.node.ts:1328 | `operations.find` returns nothing iff no operation has the value, and otherwise the first one that has it |
| Registry.FindOp | nodes/ConnectSecure/ConnectSecure.node.ts:1328 | the `find` over `operations` returns nothing iff no operation has the value, and otherwise the first operation that has it |
| Registry.FirstResource | nodes/ConnectSecure/ConnectSecure.node.ts:1327 | the `find` over `resources` returns nothing iff no resource has the value, and otherwise the first resource that has it |
| Registry.FindAgreesWithLookup | nodes/ConnectSecure/ConnectSecure.node.ts:1326-1328 | when both `find` calls of `execute` succeed, they give the same operation as `getOperationDetails`; with unique resource ids they fail exactly when it returns nothing |
| Template.Placeholders | nodes/ConnectSecure/ConnectSecure.node.ts:1349 | every match of the global scan of an endpoint is a `{…}` placeholder, and the scan returns no match exactly when no placeholder starts anywhere in the endpoint |
| Template.PlaceholderLen | nodes/ConnectSecure/ConnectSecure.node.ts:1349 | a match found at a position is a whole `{…}` placeholder with a non-empty inside and no `}` in it; when none is found, no prefix of the text matches |
| Template.PlaceholdersFrom | nodes/ConnectSecure/ConnectSecure.node.ts:1349 | every text the global scan returns is a placeholder: it starts with `{`, ends with the first `}` after it, and has at least one character between them |
| Template.NoPlaceholderIff | nodes/ConnectSecure/ConnectSecure.node.ts:1349 | the scan returns no match exactly when no placeholder starts anywhere in the scanned text |
| Template.ParamName | nodes/ConnectSecure/ConnectSecure.node.ts:1352 | for a placeholder, removing the first `{` and then the first `}` leaves exactly the text between its braces |
| Template.IndexOfFromFirst | nodes/ConnectSecure/ConnectSecure.node.ts:1388 | the position `replace` uses is the first occurrence of the pattern; when it finds none, the pattern occurs nowhere |
| Template.ReplaceFirstAt | nodes/ConnectSecure/ConnectSecure.node.ts:1388 | at the first occurrence of the pattern, `replace` puts a value without `$` in place of the pattern and leaves the rest of the text as it was |
| Template.Substitution | nodes/ConnectSecure/ConnectSecure.node.ts:1388 | the expansion of a replacement string without `$` is that string itself, so it is inserted literally |
| Template.MatchPatternKeepsText | nodes/ConnectSecure/ConnectSecure.node.ts:1388 | a replacement value `$&` re-inserts the matched text, so the endpoint does not change |
| Template.ReplaceEachFills | nodes/ConnectSecure/ConnectSecure.node.ts:1351-1396 | the matches are replaced one after another, each at its first occurrence in the current endpoint; when the values contain no braces or `$`, this equals the reference `Fill` and leaves no placeholder |
| Template.ReplaceEachFillsTemplate | nodes/ConnectSecure/ConnectSecure.node.ts:1349-1397 | for a whole template: replacing each placeholder in order by a value free of braces and `$` puts every value at its own placeholder's position, and no placeholder is left |
| Request.FindOperation | nodes/ConnectSecure/ConnectSecure.node.ts:1326-1328 | a found operation is the one the lookup specification gives; with unique resource ids it fails exactly when the pair is unknown; it fails by reading `operations` or `endpoint` of `undefined` |
| Request.NoBraceNoPlaceholder | nodes/ConnectSecure/ConnectSecure.node.ts:1347-1349 | an endpoint without `{` has no placeholder, so skipping the scan for it changes nothing |
| Request.SubstituteFromFails | nodes/ConnectSecure/ConnectSecure.node.ts:1351-1395 | the placeholder loop fails exactly when some placeholder resolves to the empty string |
| Request.SubstituteFromFirstMissing | nodes/ConnectSecure/ConnectSecure.node.ts:1351-1395 | when the placeholder loop fails, the error names the first placeholder that resolves to the empty string, every earlier one having a value |
| Request.SubstituteFromValue | nodes/ConnectSecure/ConnectSecure.node.ts:1351-1395 | when the placeholder loop succeeds, its result is the endpoint with the matches replaced one after another by their resolved values |
| Request.SubstituteFromOutcome | nodes/ConnectSecure/ConnectSecure.node.ts:1351-1395 | the placeholder loop fails exactly when some placeholder resolves to the empty string, and then names the first such placeholder; otherwise its result is the sequential replacement by the resolved values |
| Request.ResolveEndpointMissing | nodes/ConnectSecure/ConnectSecure.node.ts:1387-1395 | the endpoint cannot be resolved exactly when a placeholder of the template has no value, and the error names the first such placeholder |
| Request.ResolveEndpointFills | nodes/ConnectSecure/ConnectSecure.node.ts:1349-1397 | when the resolved values contain no braces or `$`, the endpoint is the template with each placeholder filled by its own value, and no placeholder is left |
| Request.SameValuesSameEndpoint | nodes/ConnectSecure/ConnectSecure.node.ts:1351-1396 | two sets of parameter sources that resolve every placeholder to the same value give the same endpoint or the same error |
| Request.OperationParameterWins | nodes/ConnectSecure/ConnectSecure.node.ts:1356-1358 | a key in the operation parameters decides the value, even an empty one, whatever the id fields and query parameters hold |
| Request.ResourceIdBeforeQuery | nodes/ConnectSecure/ConnectSecure.node.ts:1360-1379 | for `{id}` of company, agent, credentials, discoverySettings or asset, without an operation-parameter key, the resource's id field decides and the query parameters are never consulted |
| Request.QueryLast | nodes/ConnectSecure/ConnectSecure.node.ts:1381-1385 | in every other case only the query parameters are consulted (empty when the key is absent), and the id fields play no part |
| Request.OperationParametersDecideEndpoint | nodes/ConnectSecure/ConnectSecure.node.ts:1356-1396 | when the operation parameters hold every placeholder name, the id fields and the query parameters do not affect the endpoint |
| Request.DollarAmpersandKeepsPlaceholder | nodes/ConnectSecure/ConnectSecure.node.ts:1388 | a resolved value `$&` leaves the endpoint as it was, and the placeholder stays in the endpoint |
| Request.UnknownPairFails | nodes/ConnectSecure/ConnectSecure.node.ts:1326-1331 | an unknown (resource, operation) pair fails the item before any other step; the failure is the TypeError of reading `operations` of `undefined` (no resource with that id) or `endpoint` of `undefined` (the resource lacks that operation) |
| Request.MissingParameterFails | nodes/ConnectSecure/ConnectSecure.node.ts:1387-1400 | a placeholder without a value fails the item before the credentials are read, with the error naming the first unresolved placeholder |
| Request.RequestShape | nodes/ConnectSecure/ConnectSecure.node.ts:1403-1418 | a built request has the operation's method, the URL `baseUrl` + resolved endpoint, exactly the headers Content-Type and Accept (`application/json`), X-Tenant, X-USER-ID and `Authorization: Bearer <token>`, and `qs` exactly when the query parameters are non-empty (then equal to them), whatever the method |
| Request.RequestUrlFilled | nodes/ConnectSecure/ConnectSecure.node.ts:1405 | when the values contain no braces or `$`, the URL is the base URL followed by the filled template, with no placeholder left |
| Request.MutationBodyRules | nodes/ConnectSecure/ConnectSecure.node.ts:1421-1516 | for POST/PUT/PATCH: non-empty operation parameters give `{data: params}`; otherwise a non-empty body bag gives either the parsed raw JSON or `{data: bag}`, each with the resource id added; otherwise the body is `{data: {}}` |
| Request.InvalidJsonFails | nodes/ConnectSecure/ConnectSecure.node.ts:1430-1440 | a non-empty raw JSON body that does not parse fails the item with "Invalid JSON in request body: " and the parser's message |
| Request.NonMutationBody | nodes/ConnectSecure/ConnectSecure.node.ts:1519-1523 | DELETE always sends `{}`, whatever the bags hold; the other methods that are not POST, PUT or PATCH send no body |
| Request.ResourceIdAtTopLevel | nodes/ConnectSecure/ConnectSecure.node.ts:1446-1511 | on an object body with a `data` key, for one of the nine resources whose id field is non-empty, `id` is set at the top level beside an untouched `data`; in every other case the body is left unchanged |
| Request.OperationBodyHasNoId | nodes/ConnectSecure/ConnectSecure.node.ts:1423-1425 | a body built from operation parameters has `data` as its only key, so it carries no resource id |
| Request.ResolvePathParameter | nodes/ConnectSecure/ConnectSecure.node.ts:1353-1385 | the else-if chain computes the value the priority specification gives |
| Request.ReplacePathParameters | nodes/ConnectSecure/ConnectSecure.node.ts:1347-1397 | the placeholder loop, which rewrites `endpoint` one match at a time, gives the resolved endpoint or the first missing-parameter error |
| Request.BodyIdFieldOf | nodes/ConnectSecure/ConnectSecure.node.ts:1450-1510 | the `switch (resource)` picks the id field of the nine resources and none for the others |
| Request.MutationBodyOf | nodes/ConnectSecure/ConnectSecure.node.ts:1421-1516 | the POST/PUT/PATCH branch, which fills `bodyObj` and writes its `id` in place, gives the body of the specification or its invalid-JSON error |
| Request.SetBody | nodes/ConnectSecure/ConnectSecure.node.ts:1420-1523 | the in-place updates of `options.body` and `bodyObj.id` give the body of the specification, or its invalid-JSON error, and change nothing else in `options` |
| Request.PrepareRequest | nodes/ConnectSecure/ConnectSecure.node.ts:1308-1528 | the per-item steps, in the code's order (lookup, placeholders, credentials, body, OAuth2 credentials, token), give exactly the request or the error of the specification |
| Execution.Execute | nodes/ConnectSecure/ConnectSecure.node.ts:1305-1552 | the item loop issues the requests and collects the records or the error of the run specification |
| Execution.ProcessOne | nodes/ConnectSecure/ConnectSecure.node.ts:1308-1538 | one pass of the loop body hands the transport exactly the request the specification builds (nothing when the build fails) and yields that item's records or error |
| Execution.RunFrom | nodes/ConnectSecure/ConnectSecure.node.ts:1305-1550 | with continue-on-fail a run never ends in an error; a run never hands the transport more requests than there are items (which request each item sends is stated by `SentRequestsAreBuilt`) |
| Execution.Run | nodes/ConnectSecure/ConnectSecure.node.ts:1305-1550 | with continue-on-fail a run never ends in an error; without it, a run ends in an error exactly when some item fails |
| Execution.FirstFailureAborts | nodes/ConnectSecure/ConnectSecure.node.ts:1539-1548 | without continue-on-fail a run ends in an error exactly when some item fails, and the error is that of the first failing item, with every earlier item succeeding |
| Execution.OutputInItemOrder | nodes/ConnectSecure/ConnectSecure.node.ts:1533-1546 | records are tagged with the index of a processed item and appear in item order; the records of item `j` are exactly its transport records, or the single `{error: message}` record of its failure |
| Execution.SentRequestsAreBuilt | nodes/ConnectSecure/ConnectSecure.node.ts:1530-1531 | the requests handed to the transport are exactly the requests built for the items, in item order, leaving out the items whose request cannot be built; when a run without continue-on-fail aborts, they are those of the items up to and including the first failing item, every earlier item having succeeded |
| Execution.CompleteRunSendsEachRequest | nodes/ConnectSecure/ConnectSecure.node.ts:1305-1550 | without continue-on-fail, a run that ends without an error sent exactly one request per item, the one built for it, in item order |

## Left out

- The `description` block (lines 25-1272) holds UI metadata only. The
  operation-parameter bag that the `${operation}Parameters` name selects is an
  input of the model (`Item.operationParameters`).
- `credentials/ConnectSecureApi.credentials.ts` and `index.ts` are declarative
  and hold no logic. The credential fields used here are `baseUrl`, `tenant`
  and `userId`, and they are an input of the model.
- The contents of the `resources` table: they are defined in
  `ConnectSecureInterfaces`, which is not part of this model. The table is an
  arbitrary sequence; the properties hold for every table.
- `getNodeParameter`, `getCredentials`, `helpers.request`,
  `constructExecutionMetaData` and `returnJsonArray` are host calls. Their
  results are inputs (`Host`, `Item`, `Transport`). Each item's transport
  result is any sequence of JSON records, because an array response gives
  several records.
- The OAuth2 token is read with item index 0 whatever the item. The model
  takes it as one host value for the whole run, which is what that read
  gives.
- `JSON.parse` is a partial function given as input; the JSON grammar is not
  modelled.
- Parameter values are strings. Bag entries of another JSON type (numbers,
  booleans) and the `as string` casts that pass them through are not
  modelled. A value is truthy exactly when it is not the empty string.
- `json: true` in `options` and the metadata `pairedItem` wrapping are not
  modelled. Each record carries only its item index.
- The text of a V8 `TypeError` message is modelled by the two fixed strings
  for reading `operations` or `endpoint` of `undefined`.
- A node parameter whose read throws (an unknown parameter name) is not
  modelled. Only the credential and token reads may fail (`HostFailure`).
- `Execution.Execute`: the loop returns the output records as a sequence
  rather than the one-element array of arrays; the thrown error is returned as
  a `Result` error.

# Azure DevOps work-item gateway — Dafny model

This project models the core of a small ASP.NET Core Web API that gives clients a REST
front for creating and updating Azure DevOps work items, behind a JWT-issuing login
endpoint. The model covers:

- **The service** (`Services`, file `azure_devops_service.dfy`). This includes the configuration check
  its constructor performs and the Basic credential it attaches, which is
  base64(ASCII(":" + pat)). It also covers the create and update URLs, the "Task" default for the
  work-item type, and the update short-circuit that sends nothing when no field is given.
  Finally it maps the remote reply, or the exception, to a `WorkItemResponse`.
- **The JSON Patch documents** (`WorkItemPatch`, file `work_item_patch.dfy`) that the service
  sends. These are lists of `add` operations on `/fields/<reference name>`, as in
  section 4.1 of RFC 6902. Each builder is an imperative method over a growing list, and each is
  proved equal to a specification function. A reader (`Assignments`, `Lookup`) decodes a
  document back into the field assignments it performs, so the lemmas state what each
  document sets and in which order.
- **The two controllers.**
  - `WorkItemsController` maps model-state failures and route/body id mismatches to 400
    and service success to 200. It maps service failure to 500, or to 404 when the message mentions "404".
  - `AuthController` checks the credentials (401 or 200) and describes the token it signs.
    The token carries the .NET `ClaimTypes.Name` claim and the registered claims `sub` and `jti`
    (sections 4.1.2 and 4.1.7 of RFC 7519).
- **Supporting modules.** `Text` holds strings, `Contains` and decimal rendering/parsing.
  `Encoding` holds ASCII encoding and base64 (section 4 of RFC 4648), with a decoder and round-trip proof.
  `Models` holds the request and response records, and `Gateway` composes controller and service end to end.

The HTTP exchange with Azure DevOps is not performed. Each service operation takes the
remote `Reply` as a parameter (a status with a parsed body, or a thrown exception). It returns
the `HttpRequest` it would have sent, or `None` when it sends nothing.

.NET renders an `HttpStatusCode` inside an interpolated string by its enum name
(404 becomes "NotFound"). That rendering is the parameter `statusText`.

The source and the design notes disagree in a few places. The model follows the code:

- An update with no fields is answered with 500, not 400. The service reports it as a failed
  `WorkItemResponse`, and the controller's only non-404 failure path is 500
  (`Gateway.UpdateWithoutFieldsIsServerError`).
- The update document orders the fixed fields as title, description, state, assignee,
  priority. State comes third, before the assignee (the design puts it last).
- The title operation is always emitted on create, even when the title is null. The value
  is then JSON null.
- All user-facing messages are the code's Spanish strings. A failure message embeds the
  status's enum name, not its number.

## Model

| member | source | states |
|---|---|---|
| Text.IntToStringRoundTrip | Controllers/WorkItemsController.cs:108 | the decimal rendering of an id parses back to the same integer, negatives included |
| Text.ThreeDigitContains | Controllers/WorkItemsController.cs:103 | for three-digit codes, the rendering of one status contains the rendering of another exactly when they are equal |
| Encoding.AsciiRoundTrip | Services/AzureDevOpsService.cs:280 | ASCII encoding (non-ASCII characters become '?') is undone by decoding exactly when every character is ASCII |
| Encoding.Base64RoundTrip | Services/AzureDevOpsService.cs:280 | base64 decoding recovers every byte sequence from its padded encoding |
| WorkItemPatch.CustomFieldOperations | Services/AzureDevOpsService.cs:94-105 | one add operation per custom field, in dictionary order, at /fields/<key> with the field's value |
| WorkItemPatch.AppendCustomFields | Services/AzureDevOpsService.cs:211-223 | the loop appends exactly the custom-field operations after the existing ones |
| WorkItemPatch.BuildCreateOperations | Services/AzureDevOpsService.cs:50-105 | the imperative create builder produces exactly the create document |
| WorkItemPatch.BuildUpdateOperations | Services/AzureDevOpsService.cs:154-223 | the imperative update builder produces exactly the update document |
| WorkItemPatch.CustomFieldsRoundTrip | Services/AzureDevOpsService.cs:94-105 | reading back the custom-field operations yields the custom fields unchanged |
| WorkItemPatch.CreateFixedFields | Services/AzureDevOpsService.cs:53-92 | the create document's fixed part sets Title always, Description/AssignedTo only when non-empty, Priority only when present, never State, in that order |
| WorkItemPatch.UpdateFixedFields | Services/AzureDevOpsService.cs:157-209 | the update document's fixed part sets each of Title, Description, State, AssignedTo when non-empty and Priority when present, in that order |
| WorkItemPatch.CreateLayout | Services/AzureDevOpsService.cs:50-105 | the create document starts with the title operation, has 1 + optional + custom operations, every one an add on /fields/, and ends with the custom fields |
| WorkItemPatch.UpdateLayout | Services/AzureDevOpsService.cs:154-223 | the update document's length is the number of given fields plus custom fields; every operation is an add on /fields/ and it ends with the custom fields |
| WorkItemPatch.UpdateEmptyExactly | Services/AzureDevOpsService.cs:226-233 | the update document is empty exactly when no fixed field is given and the custom fields are null or empty |
| Services.CheckConfiguration | Services/AzureDevOpsService.cs:36-39 | configuration is accepted exactly when organization, project and token are all non-empty; otherwise the fixed incomplete-configuration error |
| Services.BasicCredentialsCarryPat | Services/AzureDevOpsService.cs:280 | the Basic credential decodes to an empty user-id and a password, and that password is the token exactly when the token is ASCII |
| Services.WorkItemType | Services/AzureDevOpsService.cs:47 | the work-item type is the requested one when non-empty, "Task" otherwise, never empty |
| Services.CreateUrlNamesType | Services/AzureDevOpsService.cs:48 | the create URL's last path segment is "$" followed by the work-item type |
| Services.UpdateUrlNamesItem | Services/AzureDevOpsService.cs:152 | the update URL's last path segment parses back to the work-item id |
| Services.ReplyResponse | Services/AzureDevOpsService.cs:115-144 | success exactly on a 2xx reply whose body parses; id and URL only on success; failure messages carry the status text, the exception message or the internal-error text |
| Services.CreateOutcome | Services/AzureDevOpsService.cs:42-145 | create always sends exactly the create request (POST to the create URL, Basic credential, JSON Patch media type, UTF-8, the create document) and answers with the reply's mapping |
| Services.UpdateOutcome | Services/AzureDevOpsService.cs:147-273 | update sends nothing and answers "no fields" exactly when the document would be empty; otherwise one PATCH to the item URL with a non-empty document |
| Services.AzureDevOpsService.constructor | Services/AzureDevOpsService.cs:30-40 | a service built from complete settings is valid and keeps those settings |
| Services.AzureDevOpsService.CreateWorkItem | Services/AzureDevOpsService.cs:42-145 | the method's response and request sent are those of the create specification |
| Services.AzureDevOpsService.UpdateWorkItem | Services/AzureDevOpsService.cs:147-273 | the method's response and request sent (none on the early return) are those of the update specification |
| Services.NewService | Services/AzureDevOpsService.cs:30-40 | construction fails with the incomplete-configuration message exactly when the configuration check fails; otherwise a fresh valid service holding those settings |
| WorkItemsController.CreateWorkItem | Controllers/WorkItemsController.cs:31-57 | invalid model: 400 with the model errors and the service is not called; otherwise 200 with the service response on success and 500 on failure; never 404 |
| WorkItemsController.UpdateWorkItem | Controllers/WorkItemsController.cs:67-114 | the service is called exactly when the model is valid and the ids agree; 400 for each rejection; 200 on success; 404 (with the not-found body) exactly when the failure message contains "404", otherwise 500 with the service response |
| AuthController.TokenClaims | Controllers/AuthController.cs:75-80 | the token carries three claims: Name and sub are the username, jti is the token id |
| AuthController.GetToken | Controllers/AuthController.cs:31-91 | 200 exactly for valid credentials, with the signed token, its expiration, and a descriptor with the configured issuer and audience, the ASCII bytes of the configured key, HMAC-SHA256 and exactly the three claims of TokenClaims; otherwise 401 and no token is issued |
| Gateway.CreateEndToEnd | Controllers/WorkItemsController.cs:31-57 | through controller and service, a request reaches Azure DevOps exactly when valid; 200 exactly on a parsed 2xx reply; the status is always 200, 400 or 500 |
| Gateway.UpdateRejectedBeforeService | Controllers/WorkItemsController.cs:69-87 | an invalid model or an id mismatch answers 400 and sends nothing to Azure DevOps |
| Gateway.UpdateWithoutFieldsIsServerError | Services/AzureDevOpsService.cs:226-233 | a valid update without fields (custom fields null or an empty dictionary) answers 500 with the no-fields response and sends nothing |
| Gateway.UpdateNotFoundReachability | Controllers/WorkItemsController.cs:103-110 | end to end, 404 happens exactly on a non-2xx reply whose rendered status contains "404" |
| Gateway.RemoteNotFoundIsServerError | Services/AzureDevOpsService.cs:259 | with the enum-name rendering, a remote 404 for an update is answered 500, not 404 |
| Gateway.NotFoundExactlyOnRemote404 | Controllers/WorkItemsController.cs:103-110 | with numeric status rendering, the endpoint answers 404 exactly when Azure DevOps answered 404 |

## Left out

- The HTTP call itself is not modelled: `HttpClient`, `async`/`await`, timeouts and cancellation. The remote reply is an input.
- Exceptions thrown while building the client or serialising the document are left out. Only exceptions from the exchange are modelled, as `Threw`.
- JSON serialisation of the patch document and parsing of the reply body are not modelled. The body is abstracted as `ParsedBody`: either a parsed id and `_links.html.href`, or a parse error message.
- Custom-field values are kept as an abstract JSON value. Their serialisation is not modelled.
- JWT signing, the `Guid` token id and the clock are parameters of `GetToken`. So is `double.Parse` of the expiry minutes, which is not modelled.
- A missing signing key in the configuration is not modelled. It would throw when converted to bytes.
- ASP.NET plumbing is left out: routing, `[Authorize]`, logging and configuration binding.
- The automatic 400 answer that `[ApiController]` gives before an action runs is left out. Model validity is an input to the actions.
- Services.AzureDevOpsService.UpdateWorkItem: the client factory is called before the zero-operations check. A factory failure there is not modelled.
- Encoding.AsciiBytes: works on Unicode scalar values, not UTF-16 code units. A surrogate pair counts as one non-ASCII character here but becomes two '?' bytes in .NET.
- Models.WorkItemUpdateRequest: `Id` and `Priority` are unbounded integers, not 32-bit. Nothing in the core does arithmetic on them.
- Text.IntToString: renders with an ASCII minus sign. Culture-specific negative signs are not modelled.

## Findings

| source | as written | input that shows it | evidently intended | confidence | as-written member | corrected member |
|---|---|---|---|---|---|---|
| Services/AzureDevOpsService.cs:259 with Controllers/WorkItemsController.cs:103-110 | the update failure message interpolates the status enum, rendered by name ("NotFound"), and the controller detects a missing item by searching that message for "404" | PATCH of a work item that does not exist: Azure DevOps answers 404, the message reads "... NotFound", and the endpoint answers 500 | the endpoint answers 404 exactly when Azure DevOps answered 404 (the action declares a 404 response and builds a not-found body) | high; not executed | Gateway.RemoteNotFoundIsServerError | Gateway.NotFoundExactlyOnRemote404 |

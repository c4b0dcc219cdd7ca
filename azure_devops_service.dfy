/** The work-item service: the configuration check made at construction,
    the request it sends to create or update a work item (URL, HTTP Basic
    credential, JSON Patch document) and how it turns the remote reply, or
    an exception, into a `WorkItemResponse`.

    The HTTP exchange itself is an input: a `Reply` says what the remote
    answered (status, body text and what JSON parsing makes of the body) or
    which exception was raised; the request the service issues is returned
    alongside the response, `None` when it issues none. How the status is
    rendered into the failure message (`{response.StatusCode}`, an enum
    formatted by name) is the parameter `statusText`. */
module Services {
  import opened Wrappers
  import opened Text
  import opened Encoding
  import opened Models
  import opened WorkItemPatch

  const IncompleteConfigurationMessage := "La configuración de Azure DevOps es incompleta. Verifica appsettings.json"
  const DefaultWorkItemType := "Task"
  const ServiceRoot := "https://dev.azure.com/"
  const WorkItemsPath := "/_apis/wit/workitems/"
  const ApiVersionQuery := "?api-version=7.0"
  const JsonPatchMediaType := "application/json-patch+json"
  const Utf8 := "utf-8"
  const BasicScheme := "Basic"
  const NoFieldsMessage := "No se especificaron campos para actualizar"

  /** The `AzureDevOps` configuration section once checked. */
  datatype Settings = Settings(organization: string, project: string, pat: string)

  /** The constructor's check: organization, project and personal access
      token must each be neither null nor empty, otherwise construction
      fails with an `ArgumentException` carrying this message. */
  function CheckConfiguration(organization: Option<string>, project: Option<string>, pat: Option<string>)
    : (r: Result<Settings, string>)
    ensures r.Success? <==> !IsNullOrEmpty(organization) && !IsNullOrEmpty(project) && !IsNullOrEmpty(pat)
    ensures r.Success? ==> r.value == Settings(organization.value, project.value, pat.value)
    ensures r.Success? ==> r.value.organization != "" && r.value.project != "" && r.value.pat != ""
    ensures r.Failure? ==> r.error == IncompleteConfigurationMessage
  {
    if IsNullOrEmpty(organization) || IsNullOrEmpty(project) || IsNullOrEmpty(pat) then
      Failure(IncompleteConfigurationMessage)
    else
      Success(Settings(organization.value, project.value, pat.value))
  }

  // ---------------------------------------------------------------------
  // The request

  datatype HttpMethod = Post | Patch

  datatype AuthenticationHeader = AuthenticationHeader(scheme: string, parameter: string)

  /** A request as issued: method, URL, `Authorization` header, the content
      type and charset of the body, and the patch document the body
      serialises. */
  datatype HttpRequest = HttpRequest(
    verb: HttpMethod,
    url: string,
    authorization: AuthenticationHeader,
    mediaType: string,
    charset: string,
    document: seq<PatchOp>)

  /** The credential of `CreateHttpClient`: an empty user-id, a colon and
      the access token (section 2 of RFC 7617), as ASCII bytes, in base 64
      (section 4 of RFC 4648). */
  function BasicCredentials(pat: string): string {
    Base64Encode(AsciiBytes(":" + pat))
  }

  function BasicAuthorization(pat: string): AuthenticationHeader {
    AuthenticationHeader(BasicScheme, BasicCredentials(pat))
  }

  /** How a receiver splits a user-pass (section 2 of RFC 7617): at the
      first colon into user-id and password; `None` without a colon. */
  function SplitUserPass(s: string): Option<(string, string)>
    decreases |s|
  {
    if s == [] then None
    else if s[0] == ':' then Some(([], s[1..]))
    else match SplitUserPass(s[1..])
      case None => None
      case Some(p) => Some(([s[0]] + p.0, p.1))
  }

  /** The remote decodes the credential into an empty user-id and a
      password, and that password is the access token exactly when the
      token is ASCII (any other character reaches it as `?`). */
  lemma BasicCredentialsCarryPat(pat: string)
    ensures Base64Decode(BasicCredentials(pat)).Some?
    ensures var userPass := SplitUserPass(AsciiString(Base64Decode(BasicCredentials(pat)).value));
      && userPass.Some?
      && userPass.value.0 == ""
      && (userPass.value.1 == pat <==> IsAscii(pat))
  {
    Base64RoundTrip(AsciiBytes(":" + pat));
    var text := AsciiString(AsciiBytes(":" + pat));
    assert text == ":" + AsciiString(AsciiBytes(pat));
    assert text[1..] == AsciiString(AsciiBytes(pat));
    AsciiRoundTrip(pat);
  }

  /** The work-item type of a create request: `Task` unless one is given. */
  function WorkItemType(requested: Option<string>): (t: string)
    ensures t != ""
    ensures IsNullOrEmpty(requested) ==> t == DefaultWorkItemType
    ensures !IsNullOrEmpty(requested) ==> t == requested.value
  {
    if IsNullOrEmpty(requested) then DefaultWorkItemType else requested.value
  }

  /** The work-items collection of the configured project. */
  function CollectionUrl(s: Settings): string {
    ServiceRoot + s.organization + "/" + s.project + WorkItemsPath
  }

  /** Create posts to `$<type>` under the collection. */
  function CreateUrl(s: Settings, workItemType: string): string {
    CollectionUrl(s) + "$" + workItemType + ApiVersionQuery
  }

  /** Update patches `<id>` under the collection. */
  function UpdateUrl(s: Settings, id: int): string {
    CollectionUrl(s) + IntToString(id) + ApiVersionQuery
  }

  /** The item segment of a URL under the collection: what lies between the
      collection path and the api-version query. */
  function ItemSegment(s: Settings, url: string): Option<string> {
    var base := CollectionUrl(s);
    if |base| + |ApiVersionQuery| <= |url| && url[..|base|] == base
       && url[|url| - |ApiVersionQuery|..] == ApiVersionQuery
    then Some(url[|base|..|url| - |ApiVersionQuery|])
    else None
  }

  /** The create URL addresses `$` followed by the work-item type. */
  lemma CreateUrlNamesType(s: Settings, workItemType: string)
    ensures ItemSegment(s, CreateUrl(s, workItemType)) == Some("$" + workItemType)
  {
    var url, base := CreateUrl(s, workItemType), CollectionUrl(s);
    assert url == base + ("$" + workItemType) + ApiVersionQuery;
    assert url[..|base|] == base;
    assert url[|url| - |ApiVersionQuery|..] == ApiVersionQuery;
    assert url[|base|..|url| - |ApiVersionQuery|] == "$" + workItemType;
  }

  /** The update URL addresses the item whose id reads back from it. */
  lemma UpdateUrlNamesItem(s: Settings, id: int)
    ensures ItemSegment(s, UpdateUrl(s, id)).Some?
    ensures ParseInt(ItemSegment(s, UpdateUrl(s, id)).value) == Some(id)
  {
    var url, base := UpdateUrl(s, id), CollectionUrl(s);
    assert url[..|base|] == base;
    assert url[|url| - |ApiVersionQuery|..] == ApiVersionQuery;
    assert url[|base|..|url| - |ApiVersionQuery|] == IntToString(id);
    IntToStringRoundTrip(id);
  }

  /** The POST that creates a work item. */
  function CreateRequest(s: Settings, r: WorkItemCreateRequest): HttpRequest {
    HttpRequest(Post, CreateUrl(s, WorkItemType(r.workItemType)), BasicAuthorization(s.pat),
                JsonPatchMediaType, Utf8, CreateOperations(r))
  }

  /** The PATCH that updates a work item. */
  function UpdateRequest(s: Settings, r: WorkItemUpdateRequest): HttpRequest {
    HttpRequest(Patch, UpdateUrl(s, r.id), BasicAuthorization(s.pat),
                JsonPatchMediaType, Utf8, UpdateOperations(r))
  }

  // ---------------------------------------------------------------------
  // The reply

  /** What `JObject.Parse` and the `id` and `_links.html.href` lookups make
      of a body: each member possibly absent, or the message of the
      exception parsing or conversion raised. */
  datatype ParsedBody = Parsed(id: Option<int>, htmlHref: Option<string>) | Unparsable(message: string)

  /** The remote exchange: a status with the body text and its parse, or
      the message of an exception raised on the way. */
  datatype Reply = Answered(status: int, content: string, parsed: ParsedBody) | Threw(message: string)

  datatype Operation = Create | Update

  function SucceededMessage(op: Operation): string {
    match op
    case Create => "Work Item creado exitosamente"
    case Update => "Work Item actualizado exitosamente"
  }

  function FailedPrefix(op: Operation): string {
    match op
    case Create => "Error al crear Work Item: "
    case Update => "Error al actualizar Work Item: "
  }

  function InternalErrorMessage(op: Operation): string {
    match op
    case Create => "Error interno al crear Work Item"
    case Update => "Error interno al actualizar Work Item"
  }

  /** `HttpResponseMessage.IsSuccessStatusCode`. */
  predicate IsSuccessStatusCode(status: int) {
    200 <= status <= 299
  }

  /** The response either operation gives for a reply. It is total: every
      exception becomes a failed response, none escapes. */
  function ReplyResponse(op: Operation, reply: Reply, statusText: int -> string): (r: WorkItemResponse)
    ensures r.success <==> reply.Answered? && IsSuccessStatusCode(reply.status) && reply.parsed.Parsed?
    ensures r.success ==>
      r == WorkItemResponse(true, reply.parsed.id, reply.parsed.htmlHref, SucceededMessage(op), None)
    ensures !r.success ==> r.workItemId.None? && r.url.None? && r.error.Some?
    ensures reply.Answered? && !IsSuccessStatusCode(reply.status) ==>
      r.message == FailedPrefix(op) + statusText(reply.status) && r.error == Some(ErrorText(reply.content))
    ensures reply.Threw? ==>
      r.message == InternalErrorMessage(op) && r.error == Some(ErrorText(reply.message))
    ensures reply.Answered? && IsSuccessStatusCode(reply.status) && reply.parsed.Unparsable? ==>
      r.message == InternalErrorMessage(op) && r.error == Some(ErrorText(reply.parsed.message))
  {
    match reply
    case Threw(message) =>
      WorkItemResponse(false, None, None, InternalErrorMessage(op), Some(ErrorText(message)))
    case Answered(status, content, parsed) =>
      if IsSuccessStatusCode(status) then
        match parsed
        case Unparsable(message) =>
          WorkItemResponse(false, None, None, InternalErrorMessage(op), Some(ErrorText(message)))
        case Parsed(id, href) =>
          WorkItemResponse(true, id, href, SucceededMessage(op), None)
      else
        WorkItemResponse(false, None, None, FailedPrefix(op) + statusText(status), Some(ErrorText(content)))
  }

  /** The response of an update that names no field. */
  const NoFieldsResponse := WorkItemResponse(false, None, None, NoFieldsMessage, None)

  /** What an operation returns and which request, if any, it issues. */
  datatype Outcome = Outcome(response: WorkItemResponse, sent: Option<HttpRequest>)

  /** Create always issues its POST, whatever the request holds. */
  function CreateOutcome(s: Settings, r: WorkItemCreateRequest, reply: Reply, statusText: int -> string)
    : (o: Outcome)
    ensures o.sent == Some(CreateRequest(s, r))
    ensures o.response == ReplyResponse(Create, reply, statusText)
  {
    Outcome(ReplyResponse(Create, reply, statusText), Some(CreateRequest(s, r)))
  }

  /** Update issues its PATCH unless the request names no field at all, in
      which case it fails without contacting the remote. */
  function UpdateOutcome(s: Settings, r: WorkItemUpdateRequest, reply: Reply, statusText: int -> string)
    : (o: Outcome)
    ensures o.sent.None? <==>
      && IsNullOrEmpty(r.title) && IsNullOrEmpty(r.description) && IsNullOrEmpty(r.state)
      && IsNullOrEmpty(r.assignedTo) && r.priority.None?
      && (r.customFields.None? || r.customFields.value == [])
    ensures o.sent.None? ==> o.response == NoFieldsResponse
    ensures o.sent.Some? ==>
      && o.sent.value == UpdateRequest(s, r)
      && o.sent.value.document != []
      && o.response == ReplyResponse(Update, reply, statusText)
  {
    UpdateEmptyExactly(r);
    if UpdateOperations(r) == [] then Outcome(NoFieldsResponse, None)
    else Outcome(ReplyResponse(Update, reply, statusText), Some(UpdateRequest(s, r)))
  }

  // ---------------------------------------------------------------------
  // The service object

  class AzureDevOpsService {
    const organization: string
    const project: string
    const pat: string

    ghost predicate Valid() {
      organization != "" && project != "" && pat != ""
    }

    function Config(): Settings {
      Settings(organization, project, pat)
    }

    /** Construction from a configuration that passed the check. */
    constructor (settings: Settings)
      requires settings.organization != "" && settings.project != "" && settings.pat != ""
      ensures Valid() && Config() == settings
    {
      organization := settings.organization;
      project := settings.project;
      pat := settings.pat;
    }

    method CreateWorkItem(request: WorkItemCreateRequest, reply: Reply, statusText: int -> string)
      returns (response: WorkItemResponse, sent: Option<HttpRequest>)
      requires Valid()
      ensures Outcome(response, sent) == CreateOutcome(Config(), request, reply, statusText)
    {
      var authorization := BasicAuthorization(pat);
      var workItemType := WorkItemType(request.workItemType);
      var url := CreateUrl(Config(), workItemType);
      var operations := BuildCreateOperations(request);
      sent := Some(HttpRequest(Post, url, authorization, JsonPatchMediaType, Utf8, operations));
      response := ReplyResponse(Create, reply, statusText);
    }

    method UpdateWorkItem(request: WorkItemUpdateRequest, reply: Reply, statusText: int -> string)
      returns (response: WorkItemResponse, sent: Option<HttpRequest>)
      requires Valid()
      ensures Outcome(response, sent) == UpdateOutcome(Config(), request, reply, statusText)
    {
      var authorization := BasicAuthorization(pat);
      var url := UpdateUrl(Config(), request.id);
      var operations := BuildUpdateOperations(request);
      if |operations| == 0 {
        return NoFieldsResponse, None;
      }
      sent := Some(HttpRequest(Patch, url, authorization, JsonPatchMediaType, Utf8, operations));
      response := ReplyResponse(Update, reply, statusText);
    }
  }

  /** The constructor as the host calls it: an incomplete configuration
      fails with the constructor's exception message, a complete one yields
      a service holding it. */
  method NewService(organization: Option<string>, project: Option<string>, pat: Option<string>)
    returns (r: Result<AzureDevOpsService, string>)
    ensures r.Failure? <==> CheckConfiguration(organization, project, pat).Failure?
    ensures r.Failure? ==> r.error == IncompleteConfigurationMessage
    ensures r.Success? ==>
      fresh(r.value) && r.value.Valid() && r.value.Config() == CheckConfiguration(organization, project, pat).value
  {
    match CheckConfiguration(organization, project, pat)
    case Failure(message) =>
      r := Failure(message);
    case Success(settings) =>
      var service := new AzureDevOpsService(settings);
      r := Success(service);
  }
}

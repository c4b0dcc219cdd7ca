/** The endpoints end to end: each controller in front of the service,
    for a given remote reply. */
module Gateway {
  import opened Wrappers
  import opened Text
  import opened Models
  import opened WorkItemPatch
  import opened Services
  import Controller = WorkItemsController

  /** What a call to an endpoint answers and which request, if any, reaches
      the remote service. */
  datatype Exchange = Exchange(result: Controller.ActionResult, sent: Option<HttpRequest>)

  function CreateExchange(s: Settings, modelState: Controller.ModelState, request: WorkItemCreateRequest,
                          reply: Reply, statusText: int -> string): Exchange
  {
    var h := Controller.CreateWorkItem(modelState, request, r => CreateOutcome(s, r, reply, statusText).response);
    Exchange(h.result, if h.forwarded.Some? then CreateOutcome(s, h.forwarded.value, reply, statusText).sent else None)
  }

  function UpdateExchange(s: Settings, id: int, modelState: Controller.ModelState, request: WorkItemUpdateRequest,
                          reply: Reply, statusText: int -> string): Exchange
  {
    var h := Controller.UpdateWorkItem(id, modelState, request, r => UpdateOutcome(s, r, reply, statusText).response);
    Exchange(h.result, if h.forwarded.Some? then UpdateOutcome(s, h.forwarded.value, reply, statusText).sent else None)
  }

  /** The update branches on `Message.Contains("404")` can only match through
      the status text: none of the service's fixed texts contains "404". */
  predicate Lacks4(s: string) {
    forall i :: 0 <= i < |s| ==> s[i] != '4'
  }

  lemma NoMatchWithout4(p: string, t: string)
    requires Lacks4(p)
    ensures Contains(p + t, "404") <==> Contains(t, "404")
  {
    ContainsSkipsPrefix(p, t, "404");
  }

  lemma NoFieldsMessageLacks4()
    ensures Lacks4(NoFieldsMessage)
  {
  }

  lemma UpdateInternalErrorLacks4()
    ensures Lacks4(InternalErrorMessage(Update))
  {
    assert InternalErrorMessage(Update) == "Error interno al actualizar Work Item";
  }

  lemma UpdateFailedPrefixLacks4()
    ensures Lacks4(FailedPrefix(Update))
  {
    assert FailedPrefix(Update) == "Error al actualizar Work Item: ";
  }

  lemma NotFoundNameLacks4()
    ensures Lacks4(NotFoundName)
  {
  }

  /** A text without the character 4 does not contain "404". */
  lemma No404Without4(p: string)
    requires Lacks4(p)
    ensures !Contains(p, "404")
  {
    NoMatchWithout4(p, "");
    assert p + "" == p;
  }

  lemma FixedTextsLack404()
    ensures !Contains(NoFieldsMessage, "404")
    ensures !Contains(InternalErrorMessage(Update), "404")
    ensures Lacks4(FailedPrefix(Update))
  {
    NoFieldsMessageLacks4();
    UpdateInternalErrorLacks4();
    UpdateFailedPrefixLacks4();
    No404Without4(NoFieldsMessage);
    No404Without4(InternalErrorMessage(Update));
  }

  /** Create: a POST is issued exactly when the request is valid; the answer
      is 200 exactly when the remote answered a success status with a
      readable body, 400 for an invalid request, 500 otherwise, never 404. */
  lemma CreateEndToEnd(s: Settings, modelState: Controller.ModelState, request: WorkItemCreateRequest,
                       reply: Reply, statusText: int -> string)
    ensures var e := CreateExchange(s, modelState, request, reply, statusText);
      && (e.sent.Some? <==> modelState.isValid)
      && (e.sent.Some? ==> e.sent.value == CreateRequest(s, request))
      && (!modelState.isValid ==> e.result.statusCode == 400)
      && (modelState.isValid ==>
            (e.result.statusCode == 200 <==>
               reply.Answered? && IsSuccessStatusCode(reply.status) && reply.parsed.Parsed?))
      && (e.result.statusCode in {200, 400, 500})
  {
  }

  /** Update: nothing reaches the remote when validation fails or the ids
      differ, and both are answered 400. */
  lemma UpdateRejectedBeforeService(s: Settings, id: int, modelState: Controller.ModelState,
                                    request: WorkItemUpdateRequest, reply: Reply, statusText: int -> string)
    requires !modelState.isValid || id != request.id
    ensures var e := UpdateExchange(s, id, modelState, request, reply, statusText);
      e.sent.None? && e.result.statusCode == 400 && !e.result.body.success
  {
  }

  /** Update of a valid request that names no field: no request reaches the
      remote and the answer is a 500 carrying the no-fields response. */
  lemma UpdateWithoutFieldsIsServerError(s: Settings, modelState: Controller.ModelState,
                                         request: WorkItemUpdateRequest, reply: Reply, statusText: int -> string)
    requires modelState.isValid
    requires IsNullOrEmpty(request.title) && IsNullOrEmpty(request.description) && IsNullOrEmpty(request.state)
    requires IsNullOrEmpty(request.assignedTo) && request.priority.None? && EntriesOf(request.customFields) == []
    ensures var e := UpdateExchange(s, request.id, modelState, request, reply, statusText);
      e.sent.None? && e.result == Controller.ActionResult(500, NoFieldsResponse)
  {
    FixedTextsLack404();
  }

  /** Once a valid update with at least one field reaches the service, the
      answer is 404 exactly when the remote answered a failure status whose
      rendering contains "404"; whatever the rendering, a 404 from the
      remote is a 404 only if its rendering says so. */
  lemma UpdateNotFoundReachability(s: Settings, modelState: Controller.ModelState,
                                   request: WorkItemUpdateRequest, reply: Reply, statusText: int -> string)
    requires modelState.isValid && UpdateOperations(request) != []
    ensures var e := UpdateExchange(s, request.id, modelState, request, reply, statusText);
      && e.sent == Some(UpdateRequest(s, request))
      && (e.result.statusCode == 404 <==>
            reply.Answered? && !IsSuccessStatusCode(reply.status) && Contains(statusText(reply.status), "404"))
  {
    FixedTextsLack404();
    if reply.Answered? && !IsSuccessStatusCode(reply.status) {
      NoMatchWithout4(FailedPrefix(Update), statusText(reply.status));
    }
  }

  // ---------------------------------------------------------------------
  // The not-found check of an update, as written and as intended.

  /** .NET's rendering of `HttpStatusCode.NotFound` in an interpolated
      string: the enum member's name. */
  const NotFoundName := "NotFound"

  /** As written: when the remote answers 404 and the status renders as
      `NotFound`, the message holds no "404" and the endpoint answers 500
      instead of 404. */
  lemma RemoteNotFoundIsServerError(s: Settings, modelState: Controller.ModelState,
                                    request: WorkItemUpdateRequest, content: string, parsed: ParsedBody,
                                    statusText: int -> string)
    requires modelState.isValid && UpdateOperations(request) != []
    requires statusText(404) == NotFoundName
    ensures UpdateExchange(s, request.id, modelState, request, Answered(404, content, parsed), statusText).result
         == Controller.ActionResult(500, ReplyResponse(Update, Answered(404, content, parsed), statusText))
  {
    UpdateNotFoundReachability(s, modelState, request, Answered(404, content, parsed), statusText);
    NotFoundNameLacks4();
    No404Without4(NotFoundName);
  }

  /** As intended: the numeric status, `(int)response.StatusCode`. */
  function NumericStatusText(status: int): string {
    IntToString(status)
  }

  lemma NumericNotFound()
    ensures NumericStatusText(404) == "404"
  {
    assert NatToString(4) == "4";
    assert NatToString(40) == NatToString(4) + [DigitChar(0)];
    assert NatToString(404) == NatToString(40) + [DigitChar(4)];
  }

  /** With the numeric rendering, a valid update with at least one field is
      answered 404 exactly when the remote answered 404 (for three-digit
      statuses, the only ones HTTP has). */
  lemma NotFoundExactlyOnRemote404(s: Settings, modelState: Controller.ModelState,
                                   request: WorkItemUpdateRequest, reply: Reply)
    requires modelState.isValid && UpdateOperations(request) != []
    requires reply.Answered? ==> 100 <= reply.status <= 999
    ensures UpdateExchange(s, request.id, modelState, request, reply, NumericStatusText).result.statusCode == 404
        <==> reply.Answered? && reply.status == 404
  {
    UpdateNotFoundReachability(s, modelState, request, reply, NumericStatusText);
    if reply.Answered? {
      NumericNotFound();
      ThreeDigitContains(reply.status, 404);
    }
  }
}

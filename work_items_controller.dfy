/** The work-item endpoints: model validation, the id check of an update,
    and the HTTP status each service response is answered with.

    Model binding is an input (`ModelState`), and the service is a function
    from the request to its response; `forwarded` records the request the
    controller hands to the service, `None` when it returns before that. */
module WorkItemsController {
  import opened Wrappers
  import opened Text
  import opened Models

  const InvalidDataMessage := "Datos inválidos"
  const IdMismatchMessage := "El ID en la ruta no coincide con el ID en el cuerpo"
  const NotFoundPrefix := "No se encontró el Work Item con ID "

  const Ok := 200
  const BadRequest := 400
  const NotFound := 404
  const InternalServerError := 500

  /** The outcome of model binding and validation: whether it succeeded,
      and its errors by key. */
  datatype ModelState = ModelState(isValid: bool, errors: seq<(string, string)>)

  datatype ActionResult = ActionResult(statusCode: int, body: WorkItemResponse)

  datatype Handled<Req> = Handled(result: ActionResult, forwarded: Option<Req>)

  /** The body of a 400 for a request that failed validation. */
  function InvalidModelResponse(modelState: ModelState): WorkItemResponse {
    WorkItemResponse(false, None, None, InvalidDataMessage, Some(ModelErrors(modelState.errors)))
  }

  function NotFoundResponse(id: int): WorkItemResponse {
    WorkItemResponse(false, None, None, NotFoundPrefix + IntToString(id), None)
  }

  /** `POST api/workitems`. */
  function CreateWorkItem(modelState: ModelState, request: WorkItemCreateRequest,
                          service: WorkItemCreateRequest -> WorkItemResponse)
    : (h: Handled<WorkItemCreateRequest>)
    ensures h.forwarded.Some? <==> modelState.isValid
    ensures h.forwarded.Some? ==> h.forwarded.value == request
    ensures !modelState.isValid ==> h.result == ActionResult(BadRequest, InvalidModelResponse(modelState))
    ensures modelState.isValid && service(request).success ==> h.result == ActionResult(Ok, service(request))
    ensures modelState.isValid && !service(request).success ==>
      h.result == ActionResult(InternalServerError, service(request))
    ensures h.result.statusCode == Ok <==> h.result.body.success
    ensures h.result.statusCode != NotFound
  {
    if !modelState.isValid then
      Handled(ActionResult(BadRequest, InvalidModelResponse(modelState)), None)
    else
      var response := service(request);
      if response.success then Handled(ActionResult(Ok, response), Some(request))
      else Handled(ActionResult(InternalServerError, response), Some(request))
  }

  /** `PUT api/workitems/{id}`: validation first, then the id check, and
      only then the service. */
  function UpdateWorkItem(id: int, modelState: ModelState, request: WorkItemUpdateRequest,
                          service: WorkItemUpdateRequest -> WorkItemResponse)
    : (h: Handled<WorkItemUpdateRequest>)
    ensures h.forwarded.Some? <==> modelState.isValid && id == request.id
    ensures h.forwarded.Some? ==> h.forwarded.value == request
    ensures !modelState.isValid ==> h.result == ActionResult(BadRequest, InvalidModelResponse(modelState))
    ensures modelState.isValid && id != request.id ==>
      h.result == ActionResult(BadRequest, WorkItemResponse(false, None, None, IdMismatchMessage, None))
    ensures h.forwarded.Some? && service(request).success ==> h.result == ActionResult(Ok, service(request))
    ensures h.forwarded.Some? && !service(request).success ==>
      (h.result.statusCode == NotFound <==> Contains(service(request).message, "404"))
    ensures h.forwarded.Some? && !service(request).success && !Contains(service(request).message, "404") ==>
      h.result == ActionResult(InternalServerError, service(request))
    ensures h.result.statusCode == NotFound ==> h.result.body == NotFoundResponse(id)
    ensures h.result.statusCode == InternalServerError ==> h.forwarded.Some? && h.result.body == service(request)
    ensures h.result.statusCode == Ok <==> h.result.body.success
  {
    if !modelState.isValid then
      Handled(ActionResult(BadRequest, InvalidModelResponse(modelState)), None)
    else if id != request.id then
      Handled(ActionResult(BadRequest, WorkItemResponse(false, None, None, IdMismatchMessage, None)), None)
    else
      var response := service(request);
      if response.success then Handled(ActionResult(Ok, response), Some(request))
      else if Contains(response.message, "404") then Handled(ActionResult(NotFound, NotFoundResponse(id)), Some(request))
      else Handled(ActionResult(InternalServerError, response), Some(request))
  }
}

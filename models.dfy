/** The request and response records of the work-item and token endpoints.
    Nullable strings and `int?` are `Option`s; a `Dictionary<string, object>`
    of custom fields is the sequence of its entries in iteration order. */
module Models {
  import opened Wrappers

  /** An arbitrary JSON value, standing in for the `object` a custom field
      carries. */
  datatype JsonValue =
    | JNull
    | JBool(b: bool)
    | JNumber(n: real)
    | JString(s: string)
    | JArray(items: seq<JsonValue>)
    | JObject(members: seq<(string, JsonValue)>)

  /** Custom fields: (field reference name, value) pairs in the dictionary's
      iteration order. */
  type CustomFields = seq<(string, JsonValue)>

  datatype WorkItemCreateRequest = WorkItemCreateRequest(
    title: Option<string>,
    description: Option<string>,
    workItemType: Option<string>,
    assignedTo: Option<string>,
    priority: Option<int>,
    customFields: Option<CustomFields>)

  datatype WorkItemUpdateRequest = WorkItemUpdateRequest(
    id: int,
    title: Option<string>,
    description: Option<string>,
    state: Option<string>,
    assignedTo: Option<string>,
    priority: Option<int>,
    customFields: Option<CustomFields>)

  /** What the `object Error` of a response holds: text (a remote body or
      an exception message) or the model-binding errors, by key. */
  datatype ErrorDetail =
    | ErrorText(text: string)
    | ModelErrors(entries: seq<(string, string)>)

  datatype WorkItemResponse = WorkItemResponse(
    success: bool,
    workItemId: Option<int>,
    url: Option<string>,
    message: string,
    error: Option<ErrorDetail>)

  datatype LoginRequest = LoginRequest(username: Option<string>, password: Option<string>)

  /** A `DateTime`, by its tick count. */
  datatype Instant = Instant(ticks: int)

  /** `default(DateTime)`, the expiration of a response that never set it. */
  const MinInstant := Instant(0)

  datatype LoginResponse = LoginResponse(
    success: bool,
    token: Option<string>,
    message: string,
    expiration: Instant)
}

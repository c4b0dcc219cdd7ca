/** The JSON Patch documents (section 4.1 of RFC 6902, `add` operations
    only) that the work-item service sends to create and to update a work
    item: which field operations each request yields, in what order. */
module WorkItemPatch {
  import opened Wrappers
  import opened Text
  import opened Models

  datatype PatchOp = PatchOp(op: string, path: string, value: JsonValue)

  const AddOp := "add"
  const FieldsPrefix := "/fields/"

  const TitleField := "System.Title"
  const DescriptionField := "System.Description"
  const StateField := "System.State"
  const AssignedToField := "System.AssignedTo"
  const PriorityField := "Microsoft.VSTS.Common.Priority"

  /** The operation that sets one work-item field. */
  function AddField(name: string, value: JsonValue): PatchOp {
    PatchOp(AddOp, FieldsPrefix + name, value)
  }

  /** How a nullable string serialises: `null` or the string. */
  function StringValue(s: Option<string>): JsonValue {
    if s.None? then JNull else JString(s.value)
  }

  /** The operation for a nullable string field, present only when the
      string is neither null nor empty. */
  function TextField(name: string, s: Option<string>): seq<PatchOp> {
    if IsNullOrEmpty(s) then [] else [AddField(name, JString(s.value))]
  }

  /** The operation for an `int?` field, present only when it has a value. */
  function NumberField(name: string, n: Option<int>): seq<PatchOp> {
    if n.None? then [] else [AddField(name, JNumber(n.value as real))]
  }

  /** A null dictionary contributes no entries. */
  function EntriesOf(fields: Option<CustomFields>): CustomFields {
    if fields.None? then [] else fields.value
  }

  /** One operation per custom field, in iteration order. */
  function CustomFieldOperations(fields: CustomFields): (ops: seq<PatchOp>)
    ensures |ops| == |fields|
    ensures forall i :: 0 <= i < |fields| ==> ops[i] == AddField(fields[i].0, fields[i].1)
  {
    if fields == [] then [] else [AddField(fields[0].0, fields[0].1)] + CustomFieldOperations(fields[1..])
  }

  /** The fixed-field part of a create document: the title always, then
      description, assignee and priority when given. */
  function CreateFixedOperations(r: WorkItemCreateRequest): seq<PatchOp> {
    [AddField(TitleField, StringValue(r.title))]
      + TextField(DescriptionField, r.description)
      + TextField(AssignedToField, r.assignedTo)
      + NumberField(PriorityField, r.priority)
  }

  /** The document sent to create a work item. */
  function CreateOperations(r: WorkItemCreateRequest): seq<PatchOp> {
    CreateFixedOperations(r) + CustomFieldOperations(EntriesOf(r.customFields))
  }

  /** The fixed-field part of an update document: title, description,
      state, assignee and priority, each only when given. */
  function UpdateFixedOperations(r: WorkItemUpdateRequest): seq<PatchOp> {
    TextField(TitleField, r.title)
      + TextField(DescriptionField, r.description)
      + TextField(StateField, r.state)
      + TextField(AssignedToField, r.assignedTo)
      + NumberField(PriorityField, r.priority)
  }

  /** The document sent to update a work item. */
  function UpdateOperations(r: WorkItemUpdateRequest): seq<PatchOp> {
    UpdateFixedOperations(r) + CustomFieldOperations(EntriesOf(r.customFields))
  }

  // ---------------------------------------------------------------------
  // The builders as the service runs them: a list grown by `Add` calls and
  // a `foreach` over the custom fields.

  /** Appends one operation per custom field to `ops`. */
  method AppendCustomFields(ops0: seq<PatchOp>, fields: CustomFields) returns (ops: seq<PatchOp>)
    ensures ops == ops0 + CustomFieldOperations(fields)
  {
    ops := ops0;
    for i := 0 to |fields|
      invariant |ops| == |ops0| + i
      invariant ops[..|ops0|] == ops0
      invariant forall k :: 0 <= k < i ==> ops[|ops0| + k] == AddField(fields[k].0, fields[k].1)
    {
      ops := ops + [AddField(fields[i].0, fields[i].1)];
    }
    assert ops == ops0 + CustomFieldOperations(fields);
  }

  method BuildCreateOperations(r: WorkItemCreateRequest) returns (ops: seq<PatchOp>)
    ensures ops == CreateOperations(r)
  {
    ops := [];
    ops := ops + [AddField(TitleField, StringValue(r.title))];
    if !IsNullOrEmpty(r.description) {
      ops := ops + [AddField(DescriptionField, JString(r.description.value))];
    }
    assert ops == [AddField(TitleField, StringValue(r.title))] + TextField(DescriptionField, r.description);
    if !IsNullOrEmpty(r.assignedTo) {
      ops := ops + [AddField(AssignedToField, JString(r.assignedTo.value))];
    }
    assert ops == [AddField(TitleField, StringValue(r.title))] + TextField(DescriptionField, r.description)
                  + TextField(AssignedToField, r.assignedTo);
    if r.priority.Some? {
      ops := ops + [AddField(PriorityField, JNumber(r.priority.value as real))];
    }
    assert ops == CreateFixedOperations(r);
    if r.customFields.Some? {
      ops := AppendCustomFields(ops, r.customFields.value);
    } else {
      assert ops == ops + CustomFieldOperations([]);
    }
  }

  method BuildUpdateOperations(r: WorkItemUpdateRequest) returns (ops: seq<PatchOp>)
    ensures ops == UpdateOperations(r)
  {
    ops := [];
    if !IsNullOrEmpty(r.title) {
      ops := ops + [AddField(TitleField, JString(r.title.value))];
    }
    assert ops == TextField(TitleField, r.title);
    if !IsNullOrEmpty(r.description) {
      ops := ops + [AddField(DescriptionField, JString(r.description.value))];
    }
    assert ops == TextField(TitleField, r.title) + TextField(DescriptionField, r.description);
    if !IsNullOrEmpty(r.state) {
      ops := ops + [AddField(StateField, JString(r.state.value))];
    }
    assert ops == TextField(TitleField, r.title) + TextField(DescriptionField, r.description)
                  + TextField(StateField, r.state);
    if !IsNullOrEmpty(r.assignedTo) {
      ops := ops + [AddField(AssignedToField, JString(r.assignedTo.value))];
    }
    assert ops == TextField(TitleField, r.title) + TextField(DescriptionField, r.description)
                  + TextField(StateField, r.state) + TextField(AssignedToField, r.assignedTo);
    if r.priority.Some? {
      ops := ops + [AddField(PriorityField, JNumber(r.priority.value as real))];
    }
    assert ops == UpdateFixedOperations(r);
    if r.customFields.Some? {
      ops := AppendCustomFields(ops, r.customFields.value);
    } else {
      assert ops == ops + CustomFieldOperations([]);
    }
  }

  // ---------------------------------------------------------------------
  // Reading a document back: each `add` on `/fields/<name>` assigns the
  // value to the field `name` (section 4.1 of RFC 6902).

  /** The field assignment one operation denotes, if it is an `add` on a
      field path. */
  function FieldOf(op: PatchOp): Option<(string, JsonValue)> {
    if op.op == AddOp && |FieldsPrefix| <= |op.path| && op.path[..|FieldsPrefix|] == FieldsPrefix
    then Some((op.path[|FieldsPrefix|..], op.value))
    else None
  }

  /** The field assignments of a whole document, in order; `None` when some
      operation is not an `add` on a field path. */
  function Assignments(ops: seq<PatchOp>): (r: Option<CustomFields>)
    ensures r.Some? ==> |r.value| == |ops|
    decreases |ops|
  {
    if ops == [] then Some([])
    else match (FieldOf(ops[0]), Assignments(ops[1..]))
      case (Some(f), Some(rest)) => Some([f] + rest)
      case _ => None
  }

  /** The value a list of assignments gives `name` first, if any. */
  function Lookup(fields: CustomFields, name: string): Option<JsonValue>
    decreases |fields|
  {
    if fields == [] then None
    else if fields[0].0 == name then Some(fields[0].1)
    else Lookup(fields[1..], name)
  }

  /** The value a nullable string field is meant to receive: none when it
      is null or empty. */
  function GivenText(s: Option<string>): Option<JsonValue> {
    if IsNullOrEmpty(s) then None else Some(JString(s.value))
  }

  /** The value an `int?` field is meant to receive: none when it is null. */
  function GivenNumber(n: Option<int>): Option<JsonValue> {
    if n.None? then None else Some(JNumber(n.value as real))
  }

  /** The position of each fixed field in a document; 5 for any other name. */
  function Rank(name: string): nat {
    if name == TitleField then 0
    else if name == DescriptionField then 1
    else if name == StateField then 2
    else if name == AssignedToField then 3
    else if name == PriorityField then 4
    else 5
  }

  /** Only fixed fields, each at most once, in the order title,
      description, state, assignee, priority. */
  predicate InFixedOrder(fields: CustomFields) {
    && (forall i :: 0 <= i < |fields| ==> Rank(fields[i].0) < 5)
    && (forall i, j :: 0 <= i < j < |fields| ==> Rank(fields[i].0) < Rank(fields[j].0))
  }

  lemma FieldOfAddField(name: string, value: JsonValue)
    ensures FieldOf(AddField(name, value)) == Some((name, value))
  {
    assert (FieldsPrefix + name)[..|FieldsPrefix|] == FieldsPrefix;
    assert (FieldsPrefix + name)[|FieldsPrefix|..] == name;
  }

  /** Reading a concatenation reads each part. */
  lemma {:induction false} AssignmentsConcat(a: seq<PatchOp>, b: seq<PatchOp>)
    requires Assignments(a).Some? && Assignments(b).Some?
    ensures Assignments(a + b) == Some(Assignments(a).value + Assignments(b).value)
    decreases |a|
  {
    if a != [] {
      assert (a + b)[1..] == a[1..] + b;
      AssignmentsConcat(a[1..], b);
      assert [FieldOf(a[0]).value] + (Assignments(a[1..]).value + Assignments(b).value)
          == Assignments(a).value + Assignments(b).value;
    } else {
      assert a + b == b;
      assert Assignments(a).value + Assignments(b).value == Assignments(b).value;
    }
  }

  /** The first assignment to `name` in a concatenation is the first part's,
      if it has one. */
  lemma {:induction false} LookupConcat(a: CustomFields, b: CustomFields, name: string)
    ensures Lookup(a + b, name) == if Lookup(a, name).Some? then Lookup(a, name) else Lookup(b, name)
    decreases |a|
  {
    if a != [] {
      assert (a + b)[1..] == a[1..] + b;
      LookupConcat(a[1..], b, name);
    } else {
      assert a + b == b;
    }
  }

  /** The custom-field operations read back as exactly the custom fields,
      in iteration order. */
  lemma {:induction false} CustomFieldsRoundTrip(fields: CustomFields)
    ensures Assignments(CustomFieldOperations(fields)) == Some(fields)
    decreases |fields|
  {
    if fields != [] {
      var ops := CustomFieldOperations(fields);
      FieldOfAddField(fields[0].0, fields[0].1);
      assert ops[1..] == CustomFieldOperations(fields[1..]);
      CustomFieldsRoundTrip(fields[1..]);
      assert [fields[0]] + fields[1..] == fields;
    }
  }

  /** The assignment a fixed field contributes when read back: one, if the
      field is given. */
  function Given(name: string, v: Option<JsonValue>): CustomFields {
    if v.None? then [] else [(name, v.value)]
  }

  function Flag(b: bool): nat {
    if b then 1 else 0
  }

  lemma SingleReads(name: string, value: JsonValue)
    ensures Assignments([AddField(name, value)]) == Some([(name, value)])
  {
    FieldOfAddField(name, value);
    assert [AddField(name, value)][1..] == [];
    assert Assignments([]) == Some([]);
    assert [(name, value)] + [] == [(name, value)];
  }

  lemma TextFieldReads(name: string, s: Option<string>)
    ensures Assignments(TextField(name, s)) == Some(Given(name, GivenText(s)))
  {
    if !IsNullOrEmpty(s) {
      SingleReads(name, JString(s.value));
    }
  }

  lemma NumberFieldReads(name: string, n: Option<int>)
    ensures Assignments(NumberField(name, n)) == Some(Given(name, GivenNumber(n)))
  {
    if n.Some? {
      SingleReads(name, JNumber(n.value as real));
    }
  }

  lemma LookupGiven(name: string, v: Option<JsonValue>, key: string)
    ensures Lookup(Given(name, v), key) == if name == key then v else None
  {
  }

  /** Appending a field of higher rank keeps a list in fixed order. */
  lemma GivenKeepsOrder(a: CustomFields, name: string, v: Option<JsonValue>)
    requires InFixedOrder(a) && Rank(name) < 5
    requires forall i :: 0 <= i < |a| ==> Rank(a[i].0) < Rank(name)
    ensures InFixedOrder(a + Given(name, v))
    ensures forall i :: 0 <= i < |a + Given(name, v)| ==> Rank((a + Given(name, v))[i].0) <= Rank(name)
  {
  }

  /** Four consecutive parts read back as the four parts' assignments. */
  lemma FourPartsRead(t: seq<PatchOp>, d: seq<PatchOp>, a: seq<PatchOp>, p: seq<PatchOp>)
    requires Assignments(t).Some? && Assignments(d).Some? && Assignments(a).Some? && Assignments(p).Some?
    ensures Assignments(t + d + a + p)
         == Some(Assignments(t).value + Assignments(d).value + Assignments(a).value + Assignments(p).value)
  {
    AssignmentsConcat(t, d);
    AssignmentsConcat(t + d, a);
    AssignmentsConcat(t + d + a, p);
  }

  /** Four given fields of increasing rank are in fixed order. */
  lemma FourInOrder(n0: string, v0: Option<JsonValue>, n1: string, v1: Option<JsonValue>,
                    n2: string, v2: Option<JsonValue>, n3: string, v3: Option<JsonValue>)
    requires Rank(n0) < Rank(n1) < Rank(n2) < Rank(n3) < 5
    ensures InFixedOrder(Given(n0, v0) + Given(n1, v1) + Given(n2, v2) + Given(n3, v3))
  {
    assert [] + Given(n0, v0) == Given(n0, v0);
    GivenKeepsOrder([], n0, v0);
    GivenKeepsOrder(Given(n0, v0), n1, v1);
    GivenKeepsOrder(Given(n0, v0) + Given(n1, v1), n2, v2);
    GivenKeepsOrder(Given(n0, v0) + Given(n1, v1) + Given(n2, v2), n3, v3);
  }

  /** Read back, the fixed part of a create document names the title with
      the request's title (null included), description and assignee exactly
      when they are non-empty, priority exactly when it has a value, never
      the state, and lists them in fixed order. */
  lemma CreateFixedFields(r: WorkItemCreateRequest)
    ensures Assignments(CreateFixedOperations(r)).Some?
    ensures var f := Assignments(CreateFixedOperations(r)).value;
      && InFixedOrder(f)
      && Lookup(f, TitleField) == Some(StringValue(r.title))
      && Lookup(f, DescriptionField) == GivenText(r.description)
      && Lookup(f, StateField) == None
      && Lookup(f, AssignedToField) == GivenText(r.assignedTo)
      && Lookup(f, PriorityField) == GivenNumber(r.priority)
  {
    SingleReads(TitleField, StringValue(r.title));
    TextFieldReads(DescriptionField, r.description);
    TextFieldReads(AssignedToField, r.assignedTo);
    NumberFieldReads(PriorityField, r.priority);
    FourPartsRead([AddField(TitleField, StringValue(r.title))], TextField(DescriptionField, r.description),
                  TextField(AssignedToField, r.assignedTo), NumberField(PriorityField, r.priority));
    var ft := Given(TitleField, Some(StringValue(r.title)));
    var fd := Given(DescriptionField, GivenText(r.description));
    var fa := Given(AssignedToField, GivenText(r.assignedTo));
    var fp := Given(PriorityField, GivenNumber(r.priority));
    assert Assignments(CreateFixedOperations(r)).value == ft + fd + fa + fp;
    FourInOrder(TitleField, Some(StringValue(r.title)), DescriptionField, GivenText(r.description),
                AssignedToField, GivenText(r.assignedTo), PriorityField, GivenNumber(r.priority));
    LookupFour(ft, fd, fa, fp, TitleField);
    LookupFour(ft, fd, fa, fp, DescriptionField);
    LookupFour(ft, fd, fa, fp, StateField);
    LookupFour(ft, fd, fa, fp, AssignedToField);
    LookupFour(ft, fd, fa, fp, PriorityField);
  }

  lemma LookupFour(a: CustomFields, b: CustomFields, c: CustomFields, d: CustomFields, key: string)
    ensures Lookup(a + b + c + d, key)
         == if Lookup(a, key).Some? then Lookup(a, key)
            else if Lookup(b, key).Some? then Lookup(b, key)
            else if Lookup(c, key).Some? then Lookup(c, key)
            else Lookup(d, key)
  {
    LookupConcat(a, b, key);
    LookupConcat(a + b, c, key);
    LookupConcat(a + b + c, d, key);
  }

  lemma LookupFive(a: CustomFields, b: CustomFields, c: CustomFields, d: CustomFields, e: CustomFields, key: string)
    ensures Lookup(a + b + c + d + e, key)
         == if Lookup(a, key).Some? then Lookup(a, key) else Lookup(b + c + d + e, key)
  {
    assert a + b + c + d + e == a + (b + c + d + e);
    LookupConcat(a, b + c + d + e, key);
  }

  /** The fixed part of an update document reads back as one assignment per
      given field, in the order the service emits them. */
  lemma UpdateFixedReads(r: WorkItemUpdateRequest)
    ensures Assignments(UpdateFixedOperations(r))
         == Some(Given(TitleField, GivenText(r.title)) + Given(DescriptionField, GivenText(r.description))
                 + Given(StateField, GivenText(r.state)) + Given(AssignedToField, GivenText(r.assignedTo))
                 + Given(PriorityField, GivenNumber(r.priority)))
  {
    var t, d := TextField(TitleField, r.title), TextField(DescriptionField, r.description);
    TextFieldReads(TitleField, r.title);
    TextFieldReads(DescriptionField, r.description);
    TextFieldReads(StateField, r.state);
    TextFieldReads(AssignedToField, r.assignedTo);
    NumberFieldReads(PriorityField, r.priority);
    AssignmentsConcat(t, d);
    FourPartsRead(t + d, TextField(StateField, r.state), TextField(AssignedToField, r.assignedTo),
                  NumberField(PriorityField, r.priority));
  }

  /** In five assignments to distinct fields, each field's value is its
      own assignment's. */
  lemma LookupFiveGiven(n0: string, v0: Option<JsonValue>, n1: string, v1: Option<JsonValue>,
                        n2: string, v2: Option<JsonValue>, n3: string, v3: Option<JsonValue>,
                        n4: string, v4: Option<JsonValue>, key: string)
    requires Rank(n0) < Rank(n1) < Rank(n2) < Rank(n3) < Rank(n4)
    ensures Lookup(Given(n0, v0) + Given(n1, v1) + Given(n2, v2) + Given(n3, v3) + Given(n4, v4), key)
         == if key == n0 then v0 else if key == n1 then v1 else if key == n2 then v2
            else if key == n3 then v3 else if key == n4 then v4 else None
  {
    LookupFive(Given(n0, v0), Given(n1, v1), Given(n2, v2), Given(n3, v3), Given(n4, v4), key);
    LookupFour(Given(n1, v1), Given(n2, v2), Given(n3, v3), Given(n4, v4), key);
    LookupGiven(n0, v0, key);
    LookupGiven(n1, v1, key);
    LookupGiven(n2, v2, key);
    LookupGiven(n3, v3, key);
    LookupGiven(n4, v4, key);
  }

  /** Read back, the fixed part of an update document names each of title,
      description, state and assignee exactly when it is non-empty, the
      priority exactly when it has a value, and lists them in fixed order. */
  lemma UpdateFixedFields(r: WorkItemUpdateRequest)
    ensures Assignments(UpdateFixedOperations(r)).Some?
    ensures var f := Assignments(UpdateFixedOperations(r)).value;
      && InFixedOrder(f)
      && Lookup(f, TitleField) == GivenText(r.title)
      && Lookup(f, DescriptionField) == GivenText(r.description)
      && Lookup(f, StateField) == GivenText(r.state)
      && Lookup(f, AssignedToField) == GivenText(r.assignedTo)
      && Lookup(f, PriorityField) == GivenNumber(r.priority)
  {
    UpdateFixedReads(r);
    var vt, vd, vs, va, vp := GivenText(r.title), GivenText(r.description), GivenText(r.state),
                              GivenText(r.assignedTo), GivenNumber(r.priority);
    var f4 := Given(TitleField, vt) + Given(DescriptionField, vd) + Given(StateField, vs) + Given(AssignedToField, va);
    FourInOrder(TitleField, vt, DescriptionField, vd, StateField, vs, AssignedToField, va);
    assert forall i :: 0 <= i < |f4| ==> Rank(f4[i].0) <= 3;
    GivenKeepsOrder(f4, PriorityField, vp);
    LookupFiveGiven(TitleField, vt, DescriptionField, vd, StateField, vs, AssignedToField, va, PriorityField, vp, TitleField);
    LookupFiveGiven(TitleField, vt, DescriptionField, vd, StateField, vs, AssignedToField, va, PriorityField, vp, DescriptionField);
    LookupFiveGiven(TitleField, vt, DescriptionField, vd, StateField, vs, AssignedToField, va, PriorityField, vp, StateField);
    LookupFiveGiven(TitleField, vt, DescriptionField, vd, StateField, vs, AssignedToField, va, PriorityField, vp, AssignedToField);
    LookupFiveGiven(TitleField, vt, DescriptionField, vd, StateField, vs, AssignedToField, va, PriorityField, vp, PriorityField);
  }

  /** The create document: one operation more than the given optional fields
      plus the custom fields (a null dictionary counting none), the title
      first, every operation an `add` on a field path, the fixed fields in
      fixed order and after them the custom fields in iteration order. */
  lemma CreateLayout(r: WorkItemCreateRequest)
    ensures var ops := CreateOperations(r); var custom := EntriesOf(r.customFields);
      && |ops| == 1 + Flag(!IsNullOrEmpty(r.description)) + Flag(!IsNullOrEmpty(r.assignedTo))
                    + Flag(r.priority.Some?) + |custom|
      && ops[0] == PatchOp("add", "/fields/System.Title", StringValue(r.title))
      && Assignments(ops).Some?
      && Assignments(ops).value[|ops| - |custom|..] == custom
      && InFixedOrder(Assignments(ops).value[..|ops| - |custom|])
  {
    var fixed, custom := CreateFixedOperations(r), EntriesOf(r.customFields);
    CreateFixedFields(r);
    CustomFieldsRoundTrip(custom);
    AssignmentsConcat(fixed, CustomFieldOperations(custom));
    var f := Assignments(fixed).value;
    assert (f + custom)[|f|..] == custom;
    assert (f + custom)[..|f|] == f;
    assert FieldsPrefix + TitleField == "/fields/System.Title";
  }

  /** The update document: one operation per given optional field plus the
      custom fields, every operation an `add` on a field path, the fixed
      fields in fixed order and after them the custom fields in iteration
      order. */
  lemma UpdateLayout(r: WorkItemUpdateRequest)
    ensures var ops := UpdateOperations(r); var custom := EntriesOf(r.customFields);
      && |ops| == Flag(!IsNullOrEmpty(r.title)) + Flag(!IsNullOrEmpty(r.description))
                  + Flag(!IsNullOrEmpty(r.state)) + Flag(!IsNullOrEmpty(r.assignedTo))
                  + Flag(r.priority.Some?) + |custom|
      && Assignments(ops).Some?
      && Assignments(ops).value[|ops| - |custom|..] == custom
      && InFixedOrder(Assignments(ops).value[..|ops| - |custom|])
  {
    var fixed, custom := UpdateFixedOperations(r), EntriesOf(r.customFields);
    UpdateFixedFields(r);
    CustomFieldsRoundTrip(custom);
    AssignmentsConcat(fixed, CustomFieldOperations(custom));
    var f := Assignments(fixed).value;
    assert (f + custom)[|f|..] == custom;
    assert (f + custom)[..|f|] == f;
  }

  /** An update document is empty exactly when no field is given: every
      string null or empty, no priority, and custom fields null or empty. */
  lemma UpdateEmptyExactly(r: WorkItemUpdateRequest)
    ensures UpdateOperations(r) == []
        <==> && IsNullOrEmpty(r.title) && IsNullOrEmpty(r.description) && IsNullOrEmpty(r.state)
             && IsNullOrEmpty(r.assignedTo) && r.priority.None?
             && (r.customFields.None? || r.customFields.value == [])
  {
    UpdateLayout(r);
  }
}

/** `POST /api/organization`: create an organization from a name, a college
    and a capacity. */
module OrganizationRoute {

  import opened Wrappers
  import opened Js
  import opened Store
  import opened Http

  const MissingRequiredFields := Response(400, ErrorBody(Text("Missing required fields")))
  const DefaultError := "Something went wrong"

  /** `!name || !college || capacity === undefined`: name and college must be
      truthy, while any capacity that is present (0 and null included) is
      accepted. */
  predicate Accepted(b: Value)
  {
    TruthyField(Field(b, "name")) && TruthyField(Field(b, "college")) && Field(b, "capacity").Some?
  }

  /** `{ name, college, capacity }`. */
  function OrganizationFields(b: Value): (d: Doc)
    requires Accepted(b)
    ensures d.Keys == {"name", "college", "capacity"}
    ensures d["name"] == Field(b, "name").value && d["college"] == Field(b, "college").value
    ensures d["capacity"] == Field(b, "capacity").value
  {
    map["name" := Field(b, "name").value, "college" := Field(b, "college").value,
        "capacity" := Field(b, "capacity").value]
  }

  function Failed(e: Thrown): Response
  {
    Response(500, ErrorBody(MessageOr(e, DefaultError)))
  }

  /** The handler's effect on the organizations collection and its response;
      `newId` is `ID.unique()`. */
  function CreateOrganization(orgs: Table, body: Option<Value>, newId: string, failure: Option<Fault>)
    : (out: (Table, Response))
    requires newId !in orgs.docs
  {
    match ParseBody(body)
    case Err(e) => (orgs, Failed(e))
    case Ok(b) =>
      if !Accepted(b) then (orgs, MissingRequiredFields)
      else
        var (orgs', created) := CreateIn(orgs, newId, OrganizationFields(b), failure);
        match created
        case Err(e) => (orgs', Failed(e))
        case Ok(doc) => (orgs', Response(201, Created(doc)))
  }

  method HandleCreate(orgs: Collection, body: Option<Value>, newId: string, failure: Option<Fault>)
    returns (response: Response)
    requires orgs.Valid() && newId !in orgs.docs
    modifies orgs
    ensures orgs.Valid()
    ensures (orgs.Contents(), response) == CreateOrganization(old(orgs.Contents()), body, newId, failure)
  {
    var parsed := ParseBody(body);
    if parsed.Err? {
      return Failed(parsed.error);
    }
    var name, college, capacity := Field(parsed.value, "name"), Field(parsed.value, "college"),
                                   Field(parsed.value, "capacity");
    if !TruthyField(name) || !TruthyField(college) || capacity.None? {
      return MissingRequiredFields;
    }
    var created := orgs.Create(newId, OrganizationFields(parsed.value), failure);
    if created.Err? {
      return Failed(created.error);
    }
    response := Response(201, Created(created.value));
  }

  // ---------------------------------------------------------------------
  // Properties
  // ---------------------------------------------------------------------

  /** A parsed body is answered 400 exactly when it is not `Accepted`; then
      nothing is written. */
  lemma RejectedIs400(orgs: Table, body: Option<Value>, newId: string, failure: Option<Fault>)
    requires newId !in orgs.docs
    requires body.Some? && body.value != Null
    ensures var (orgs', r) := CreateOrganization(orgs, body, newId, failure);
      && (r.status == 400 <==> !Accepted(body.value))
      && (r.status == 400 ==> r == MissingRequiredFields && orgs' == orgs)
  {
  }

  /** A capacity of 0 or null passes the check; an absent one does not. */
  lemma CapacityZeroAcceptedAbsentRejected(name: string, college: string, capacity: Value)
    requires name != "" && college != ""
    ensures Accepted(Obj(map["name" := Str(name), "college" := Str(college), "capacity" := Num(0.0)]))
    ensures Accepted(Obj(map["name" := Str(name), "college" := Str(college), "capacity" := Null]))
    ensures !Accepted(Obj(map["name" := Str(name), "college" := Str(college)]))
  {
  }

  /** On success exactly one document is added, under the new id, holding
      exactly `name`, `college` and `capacity`; the response is 201 with it. */
  lemma SuccessCreatesExactlyOne(orgs: Table, body: Option<Value>, newId: string)
    requires newId !in orgs.docs
    requires body.Some? && body.value != Null && Accepted(body.value)
    ensures var (orgs', r) := CreateOrganization(orgs, body, newId, None);
      && orgs'.ids == orgs.ids + [newId]
      && orgs'.docs == orgs.docs[newId := OrganizationFields(body.value)]
      && orgs'.docs[newId].Keys == {"name", "college", "capacity"}
      && r == Response(201, Created(Document(newId, OrganizationFields(body.value))))
  {
  }

  /** A failed write is a 500 that leaves the collection as it was, carrying
      the thrown message or, when it has none, "Something went wrong". */
  lemma FailureIs500(orgs: Table, body: Option<Value>, newId: string, fault: Fault)
    requires newId !in orgs.docs
    requires body.Some? && body.value != Null && Accepted(body.value)
    ensures var (orgs', r) := CreateOrganization(orgs, body, newId, Some(fault));
      && orgs' == orgs && r.status == 500
      && (fault.message == None || fault.message == Some("") ==> r.body.error == Text(DefaultError))
      && (fault.message.Some? && fault.message != Some("") ==> r.body.error == MessageOf(Unavailable(fault)))
  {
  }
}

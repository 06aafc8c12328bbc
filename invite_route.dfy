/** `POST /api/invite`: field check, organization look-up, user look-up,
    duplicate check, invite creation, then the invite id appended to the
    user's `invite` list. Nothing is rolled back when the last write fails. */
module InviteRoute {

  import opened Wrappers
  import opened Js
  import opened Store
  import opened Http
  import Users
  import Invites

  /** The store calls of the handler, in order. */
  datatype Step = OrgLookup | UserLookup | InviteLookup | InviteWrite | UserWrite

  /** The request: the parsed JSON body (None when it is not JSON), and the
      values the handler draws from its environment. */
  datatype Request = Request(
    body: Option<Value>,
    baseUrl: string,      // NEXT_PUBLIC_BASE_URL
    token: string,        // uuidv4()
    nowMillis: int,       // Date.now()
    nowIso: string,       // new Date().toISOString() inside userDB.update
    newId: string)        // ID.unique()

  datatype Outcome = Outcome(users: Table, invites: Table, response: Response)

  const MissingFields := Response(400, ErrorBody(Text("Missing fields")))
  const OrgNotFound := Response(404, ErrorBody(Text("Organization not found")))
  const UserNotFound := Response(404, ErrorBody(Text("User with this email not found")))
  const AlreadyInvited := Response(409, ErrorBody(Text("User already has an invite for this organization")))

  /** `userDoc.invite || []`. */
  function InviteList(user: Doc): seq<string>
  {
    if "invite" in user && user["invite"].StrList? then user["invite"].items else []
  }

  /** `getDocument(orgId).catch(() => null)` is non-null. */
  predicate OrgExists(orgs: Table, orgId: Value, fault: Option<Fault>)
  {
    orgId.Str? && GetIn(orgs, orgId.s, fault).Ok?
  }

  /** The three request fields are all truthy. */
  predicate HasFields(b: Value)
  {
    TruthyField(Field(b, "orgId")) && TruthyField(Field(b, "email")) && TruthyField(Field(b, "createdBy"))
  }

  function UserQuery(b: Value): Query
    requires HasFields(b)
  {
    [("email", Field(b, "email").value)]
  }

  function DuplicateQuery(b: Value): Query
    requires HasFields(b)
  {
    [("email", Field(b, "email").value), ("org_id", Field(b, "orgId").value)]
  }

  /** The handler's effect on the users and invites collections and its
      response. */
  function Post(users: Table, invites: Table, orgs: Table, req: Request, failure: Option<Failure<Step>>): (out: Outcome)
    requires req.newId !in invites.docs
  {
    match ParseBody(req.body)
    case Err(e) => Outcome(users, invites, ServerError(e))
    case Ok(b) =>
      if !HasFields(b) then Outcome(users, invites, MissingFields)
      else
        var orgId, email, createdBy := Field(b, "orgId").value, Field(b, "email").value, Field(b, "createdBy").value;
        if !OrgExists(orgs, orgId, FaultAt(failure, OrgLookup)) then Outcome(users, invites, OrgNotFound)
        else match ListIn(users, UserQuery(b), FaultAt(failure, UserLookup))
        case Err(e) => Outcome(users, invites, ServerError(e))
        case Ok(matching) =>
          if |matching| == 0 then Outcome(users, invites, UserNotFound)
          else
            var userDoc := matching[0];
            match ListIn(invites, DuplicateQuery(b), FaultAt(failure, InviteLookup))
            case Err(e) => Outcome(users, invites, ServerError(e))
            case Ok(existing) =>
              if |existing| > 0 then Outcome(users, invites, AlreadyInvited)
              else Deliver(users, invites, userDoc, orgId, email, createdBy, req, failure)
  }

  /** Steps 4 and 5: create the invite, then append its id to the user's
      `invite` list; the response once every check has passed. */
  function Deliver(users: Table, invites: Table, userDoc: Document, orgId: Value, email: Value, createdBy: Value,
                   req: Request, failure: Option<Failure<Step>>): (out: Outcome)
    requires req.newId !in invites.docs
    ensures out.response.status in {200, 500}
    ensures out.response.status == 200 <==>
              FaultAt(failure, InviteWrite).None? && FaultAt(failure, UserWrite).None? && userDoc.id in users.docs
    ensures out.response.status == 500 ==>
              && out.users == users
              && (out.invites == invites
                  || ((FaultAt(failure, UserWrite).Some? || userDoc.id !in users.docs)
                      && out.invites.ids == invites.ids + [req.newId]
                      && out.invites.docs.Keys == invites.docs.Keys + {req.newId}))
  {
    var (invites', created) := Invites.CreateInviteIn(invites, orgId, email, createdBy, req.token,
                                                      req.nowMillis, req.newId, FaultAt(failure, InviteWrite));
    match created
    case Err(e) => Outcome(users, invites', ServerError(e))
    case Ok(invite) =>
      var updatedInvites := InviteList(userDoc.fields) + [invite.id];
      var (users', updated) := Users.UpdateUser(users, userDoc.id, map["invite" := StrList(updatedInvites)],
                                                req.nowIso, FaultAt(failure, UserWrite));
      match updated
      case Err(e) => Outcome(users', invites', ServerError(e))
      case Ok(_) =>
        Outcome(users', invites',
                Response(200, InviteCreated("Invite created successfully", invite,
                                            req.baseUrl + "/accept-invite?token=" + req.token)))
  }

  method HandlePost(users: Collection, invites: Collection, orgs: Collection, req: Request, failure: Option<Failure<Step>>)
    returns (response: Response)
    requires users.Valid() && invites.Valid() && orgs.Valid()
    requires users != invites && users != orgs && invites != orgs
    requires req.newId !in invites.docs
    modifies users, invites
    ensures users.Valid() && invites.Valid()
    ensures Outcome(users.Contents(), invites.Contents(), response) ==
            Post(old(users.Contents()), old(invites.Contents()), orgs.Contents(), req, failure)
  {
    var body := ParseBody(req.body);
    if body.Err? {
      return ServerError(body.error);
    }
    var b := body.value;
    var orgId, email, createdBy := Field(b, "orgId"), Field(b, "email"), Field(b, "createdBy");
    if !TruthyField(orgId) || !TruthyField(email) || !TruthyField(createdBy) {
      return MissingFields;
    }

    // 1. the organization must exist; any failure of the look-up reads as "not found"
    var org := if orgId.value.Str? then GetIn(orgs.Contents(), orgId.value.s, FaultAt(failure, OrgLookup))
               else Err(StoreRejected(InvalidId));
    if org.Err? {
      return OrgNotFound;
    }

    // 2. a user with this email must exist
    var usersFound := ListIn(users.Contents(), [("email", email.value)], FaultAt(failure, UserLookup));
    if usersFound.Err? {
      return ServerError(usersFound.error);
    }
    if |usersFound.value| == 0 {
      return UserNotFound;
    }
    var userDoc := usersFound.value[0];

    // 3. no invite for this email and organization, whatever its status
    var existingInvites := ListIn(invites.Contents(), [("email", email.value), ("org_id", orgId.value)],
                                  FaultAt(failure, InviteLookup));
    if existingInvites.Err? {
      return ServerError(existingInvites.error);
    }
    if |existingInvites.value| > 0 {
      return AlreadyInvited;
    }

    // 4. create the invite
    var invite := Invites.CreateInvite(invites, orgId.value, email.value, createdBy.value, req.token,
                                       req.nowMillis, req.newId, FaultAt(failure, InviteWrite));
    if invite.Err? {
      return ServerError(invite.error);
    }

    // 5. append its id to the user's list
    var currentInvites := InviteList(userDoc.fields);
    var updatedInvites := currentInvites + [invite.value.id];
    var updated := Users.Update(users, userDoc.id, map["invite" := StrList(updatedInvites)], req.nowIso,
                                FaultAt(failure, UserWrite));
    if updated.Err? {
      return ServerError(updated.error);
    }

    // 6. the invite and its link
    response := Response(200, InviteCreated("Invite created successfully", invite.value,
                                            req.baseUrl + "/accept-invite?token=" + req.token));
  }

  // ---------------------------------------------------------------------
  // Properties
  // ---------------------------------------------------------------------

  /** A 400 depends on the body alone: whatever the collections hold, a body
      missing one of the three fields is answered 400 and nothing is written;
      a body with all three is never answered 400. */
  lemma MissingFieldsDecidedByBodyAlone(users: Table, invites: Table, orgs: Table, req: Request,
                                        failure: Option<Failure<Step>>)
    requires req.newId !in invites.docs
    requires req.body.Some? && req.body.value != Null
    ensures var out := Post(users, invites, orgs, req, failure);
      && (out.response.status == 400 <==> !HasFields(req.body.value))
      && (out.response.status == 400 ==> out.response == MissingFields && out.users == users && out.invites == invites)
  {
  }

  /** Every rejection (400, 404, 409) happens before any write. */
  lemma {:induction false} RejectionsWriteNothing(users: Table, invites: Table, orgs: Table, req: Request,
                                                  failure: Option<Failure<Step>>)
    requires req.newId !in invites.docs
    ensures var out := Post(users, invites, orgs, req, failure);
      out.response.status in {400, 404, 409} ==> out.users == users && out.invites == invites
  {
  }

  /** A nonexistent organization yields 404 and no writes. */
  lemma UnknownOrganization(users: Table, invites: Table, orgs: Table, req: Request, failure: Option<Failure<Step>>)
    requires req.newId !in invites.docs
    requires req.body.Some? && HasFields(req.body.value)
    requires var orgId := Field(req.body.value, "orgId").value; !(orgId.Str? && orgId.s in orgs.docs)
    ensures Post(users, invites, orgs, req, failure) == Outcome(users, invites, OrgNotFound)
  {
  }

  /** An existing organization but no user document carrying the email: the
      chain stops with 404 before the invite lookup and writes nothing. */
  lemma UnknownUser(users: Table, invites: Table, orgs: Table, req: Request)
    requires ValidTable(users)
    requires req.newId !in invites.docs
    requires req.body.Some? && HasFields(req.body.value)
    requires var orgId := Field(req.body.value, "orgId").value; orgId.Str? && orgId.s in orgs.docs
    requires forall id :: id in users.docs ==> !Matches(users.docs[id], UserQuery(req.body.value))
    ensures Post(users, invites, orgs, req, None) == Outcome(users, invites, UserNotFound)
  {
    WhereEmptyIff(users, UserQuery(req.body.value));
  }

  /** A 500 leaves the users collection as it was; the invites collection is
      changed only when the failing call is the final user update, and then
      it keeps the new invite (no rollback). */
  lemma {:induction false} ServerErrorsAndTheOrphanInvite(users: Table, invites: Table, orgs: Table, req: Request,
                                                          failure: Option<Failure<Step>>)
    requires req.newId !in invites.docs
    ensures var out := Post(users, invites, orgs, req, failure);
      out.response.status == 500 ==>
        && out.users == users
        && (out.invites == invites || (failure.Some? && failure.value.step == UserWrite
                                       && out.invites.ids == invites.ids + [req.newId]
                                       && out.invites.docs.Keys == invites.docs.Keys + {req.newId}))
  {
  }

  /** The conditions for success: no store call fails, the body carries the
      three fields, the organization exists, some user has the email, and no
      invite for the email and organization is listed. */
  predicate Admissible(users: Table, invites: Table, orgs: Table, req: Request, failure: Option<Failure<Step>>)
  {
    && failure.None?
    && req.body.Some? && req.body.value != Null && HasFields(req.body.value)
    && var b := req.body.value;
       var orgId := Field(b, "orgId").value;
       && orgId.Str? && orgId.s in orgs.docs
       && (exists id :: id in users.docs && Matches(users.docs[id], UserQuery(b)))
       && (forall id :: id in invites.docs ==> !Matches(invites.docs[id], DuplicateQuery(b)))
  }

  /** The handler succeeds exactly when the request is admissible. */
  lemma SuccessExactly(users: Table, invites: Table, orgs: Table, req: Request, failure: Option<Failure<Step>>)
    requires ValidTable(users) && ValidTable(invites)
    requires req.newId !in invites.docs
    ensures Post(users, invites, orgs, req, failure).response.status == 200 <==>
            Admissible(users, invites, orgs, req, failure)
  {
    if Post(users, invites, orgs, req, failure).response.status == 200 {
      SuccessIsAdmissible(users, invites, orgs, req, failure);
    }
    if Admissible(users, invites, orgs, req, failure) {
      AdmissibleSucceeds(users, invites, orgs, req);
    }
  }

  lemma {:induction false} SuccessIsAdmissible(users: Table, invites: Table, orgs: Table, req: Request,
                                               failure: Option<Failure<Step>>)
    requires ValidTable(users) && ValidTable(invites)
    requires req.newId !in invites.docs
    requires Post(users, invites, orgs, req, failure).response.status == 200
    ensures Admissible(users, invites, orgs, req, failure)
  {
    SuccessPassesChecks(users, invites, orgs, req, failure);
    var b := req.body.value;
    WhereEmptyIff(users, UserQuery(b));
    WhereEmptyIff(invites, DuplicateQuery(b));
  }

  /** A 200 has passed every check of the chain, in the handler's terms. */
  lemma SuccessPassesChecks(users: Table, invites: Table, orgs: Table, req: Request, failure: Option<Failure<Step>>)
    requires req.newId !in invites.docs
    requires Post(users, invites, orgs, req, failure).response.status == 200
    ensures failure.None?
    ensures req.body.Some? && req.body.value != Null && HasFields(req.body.value)
    ensures var b := req.body.value;
      && OrgExists(orgs, Field(b, "orgId").value, None)
      && Where(users, UserQuery(b)) != []
      && Where(invites, DuplicateQuery(b)) == []
  {
    if failure.Some? {
      match failure.value.step
      case OrgLookup =>
      case UserLookup =>
      case InviteLookup =>
      case InviteWrite =>
      case UserWrite =>
    }
  }

  lemma {:induction false} AdmissibleSucceeds(users: Table, invites: Table, orgs: Table, req: Request)
    requires ValidTable(users) && ValidTable(invites)
    requires req.newId !in invites.docs
    requires Admissible(users, invites, orgs, req, None)
    ensures Post(users, invites, orgs, req, None).response.status == 200
  {
    var b := req.body.value;
    WhereEmptyIff(users, UserQuery(b));
    WhereEmptyIff(invites, DuplicateQuery(b));
    var m := Where(users, UserQuery(b));
    assert m[0].id in users.docs;
  }

  /** The two writes of a successful delivery, as store operations: the
      invite is inserted, the user document patched with the appended list
      and a fresh `updatedAt`; the response carries the invite and its link. */
  lemma DeliverWrites(users: Table, invites: Table, user: Document, orgId: Value, email: Value, createdBy: Value,
                      req: Request)
    requires req.newId !in invites.docs
    requires user.id in users.docs
    ensures var out := Deliver(users, invites, user, orgId, email, createdBy, req, None);
      && out.invites == Insert(invites, req.newId, Invites.InviteFields(orgId, email, createdBy, req.token, req.nowMillis))
      && out.users == Patch(users, user.id, Users.UpdatePayload(map["invite" := StrList(InviteList(user.fields) + [req.newId])],
                                                                req.nowIso))
      && out.response.status == 200
      && out.response.body.InviteCreated?
      && out.response.body.invite.id == req.newId
      && out.response.body.invite.fields["token"] == Str(req.token)
      && out.response.body.inviteLink == req.baseUrl + "/accept-invite?token=" + req.token
  {
  }

  lemma DeliverPatchesUser(users: Table, invites: Table, user: Document, orgId: Value, email: Value, createdBy: Value,
                           req: Request)
    requires req.newId !in invites.docs
    requires user.id in users.docs
    ensures Deliver(users, invites, user, orgId, email, createdBy, req, None).users ==
            Patch(users, user.id, Users.UpdatePayload(map["invite" := StrList(InviteList(user.fields) + [req.newId])],
                                                      req.nowIso))
  {
  }

  /** What a successful delivery does to the two collections: the invites
      gain exactly the new pending invite; the user gets the new id appended
      to the end of their list (which grows by exactly one) and a fresh
      `updatedAt`, and keeps every other field; no other user changes. */
  lemma DeliverAppends(users: Table, invites: Table, user: Document, orgId: Value, email: Value, createdBy: Value,
                       req: Request)
    requires req.newId !in invites.docs
    requires user.id in users.docs && user.fields == users.docs[user.id]
    ensures var out := Deliver(users, invites, user, orgId, email, createdBy, req, None);
      && out.invites.ids == invites.ids + [req.newId]
      && out.invites.docs == invites.docs[req.newId := Invites.InviteFields(orgId, email, createdBy, req.token, req.nowMillis)]
      && out.invites.docs[req.newId]["status"] == Str("pending")
      && out.users.ids == users.ids
      && InviteList(out.users.docs[user.id]) == InviteList(user.fields) + [req.newId]
      && |InviteList(out.users.docs[user.id])| == |InviteList(user.fields)| + 1
      && out.users.docs[user.id]["updatedAt"] == Str(req.nowIso)
      && (forall k :: k in user.fields && k != "invite" && k != "updatedAt" ==>
                        out.users.docs[user.id][k] == user.fields[k])
      && (forall id :: id in users.docs && id != user.id ==> out.users.docs[id] == users.docs[id])
  {
    DeliverWrites(users, invites, user, orgId, email, createdBy, req);
    var updatedInvites := InviteList(user.fields) + [req.newId];
    var patch := Users.UpdatePayload(map["invite" := StrList(updatedInvites)], req.nowIso);
    assert patch["invite"] == StrList(updatedInvites);
    assert Merge(users.docs[user.id], patch)["invite"] == StrList(updatedInvites);
  }

  /** On success the handler's writes are those of `DeliverAppends` for the
      first user whose email matches. */
  lemma {:induction false} SuccessAppendsInvite(users: Table, invites: Table, orgs: Table, req: Request,
                                                failure: Option<Failure<Step>>)
    requires ValidTable(users) && ValidTable(invites)
    requires req.newId !in invites.docs
    requires Post(users, invites, orgs, req, failure).response.status == 200
    ensures failure.None? && req.body.Some? && HasFields(req.body.value)
    ensures var b := req.body.value;
      && First(users, UserQuery(b)).Some?
      && Post(users, invites, orgs, req, failure) ==
         Deliver(users, invites, First(users, UserQuery(b)).value,
                 Field(b, "orgId").value, Field(b, "email").value, Field(b, "createdBy").value, req, None)
  {
    SuccessExactly(users, invites, orgs, req, failure);
  }

  /** Once an invite for the pair is listed, a request for it is answered
      409 and writes nothing, whatever its token and id. */
  lemma DuplicateConflicts(users: Table, invites: Table, orgs: Table, req: Request)
    requires req.newId !in invites.docs
    requires req.body.Some? && HasFields(req.body.value)
    requires OrgExists(orgs, Field(req.body.value, "orgId").value, None)
    requires Where(users, UserQuery(req.body.value)) != []
    requires Where(invites, DuplicateQuery(req.body.value)) != []
    ensures Post(users, invites, orgs, req, None) == Outcome(users, invites, AlreadyInvited)
  {
  }

  /** After a successful delivery the user is still listed under their
      email and the new invite is listed under the pair. */
  lemma {:induction false} DeliveredIsListed(users: Table, invites: Table, user: Document, b: Value, req: Request)
    requires ValidTable(users) && req.newId !in invites.docs
    requires HasFields(b) && user.id in users.docs && user.fields == users.docs[user.id]
    requires Where(users, UserQuery(b)) != []
    ensures var out := Deliver(users, invites, user, Field(b, "orgId").value, Field(b, "email").value,
                               Field(b, "createdBy").value, req, None);
      Where(out.users, UserQuery(b)) != [] && Where(out.invites, DuplicateQuery(b)) != []
  {
    DeliveredInviteIsListed(users, invites, user, b, req);
    DeliveredUserIsListed(users, invites, user, b, req);
  }

  lemma {:induction false} DeliveredInviteIsListed(users: Table, invites: Table, user: Document, b: Value, req: Request)
    requires req.newId !in invites.docs
    requires HasFields(b) && user.id in users.docs
    ensures var out := Deliver(users, invites, user, Field(b, "orgId").value, Field(b, "email").value,
                               Field(b, "createdBy").value, req, None);
      Where(out.invites, DuplicateQuery(b)) != []
  {
    var orgId, email, createdBy := Field(b, "orgId").value, Field(b, "email").value, Field(b, "createdBy").value;
    DeliverWrites(users, invites, user, orgId, email, createdBy, req);
    var fields := Invites.InviteFields(orgId, email, createdBy, req.token, req.nowMillis);
    NewInviteIsListed(invites, fields, b, req.newId);
  }

  lemma {:induction false} DeliveredUserIsListed(users: Table, invites: Table, user: Document, b: Value, req: Request)
    requires ValidTable(users) && req.newId !in invites.docs
    requires HasFields(b) && user.id in users.docs
    requires Where(users, UserQuery(b)) != []
    ensures var out := Deliver(users, invites, user, Field(b, "orgId").value, Field(b, "email").value,
                               Field(b, "createdBy").value, req, None);
      Where(out.users, UserQuery(b)) != []
  {
    var orgId, email, createdBy := Field(b, "orgId").value, Field(b, "email").value, Field(b, "createdBy").value;
    DeliverPatchesUser(users, invites, user, orgId, email, createdBy, req);
    var patch := Users.UpdatePayload(map["invite" := StrList(InviteList(user.fields) + [req.newId])], req.nowIso);
    InvitePatchSparesEmail(InviteList(user.fields) + [req.newId], req.nowIso);
    UserStaysListed(users, user.id, patch, b);
  }

  lemma NewInviteIsListed(invites: Table, fields: Doc, b: Value, id: string)
    requires HasFields(b) && id !in invites.docs
    requires "email" in fields && fields["email"] == Field(b, "email").value
    requires "org_id" in fields && fields["org_id"] == Field(b, "orgId").value
    ensures Where(Insert(invites, id, fields), DuplicateQuery(b)) != []
  {
    var q := DuplicateQuery(b);
    assert Matches(fields, q) by {
      assert q[0] == ("email", fields["email"]) && q[1] == ("org_id", fields["org_id"]);
    }
    InsertedIsListed(invites, id, fields, q);
  }

  /** The user update of a delivery does not touch `email`. */
  lemma InvitePatchSparesEmail(list: seq<string>, now: string)
    ensures "email" !in Users.UpdatePayload(map["invite" := StrList(list)], now)
  {
  }

  lemma UserStaysListed(users: Table, id: string, patch: Doc, b: Value)
    requires ValidTable(users) && id in users.docs && HasFields(b)
    requires Where(users, UserQuery(b)) != [] && "email" !in patch
    ensures Where(Patch(users, id, patch), UserQuery(b)) != []
  {
    assert UserQuery(b)[0].0 == "email";
    PatchKeepsListed(users, id, patch, UserQuery(b));
  }

  /** Retrying a successful request (with a fresh token and id) is answered
      409: the first invite now blocks the pair. */
  lemma {:induction false} RetryAfterSuccessConflicts(users: Table, invites: Table, orgs: Table, req: Request,
                                                      retry: Request)
    requires ValidTable(users) && ValidTable(invites)
    requires req.newId !in invites.docs
    requires Post(users, invites, orgs, req, None).response.status == 200
    requires retry.body == req.body
    requires retry.newId !in Post(users, invites, orgs, req, None).invites.docs
    ensures var out := Post(users, invites, orgs, req, None);
      Post(out.users, out.invites, orgs, retry, None) == Outcome(out.users, out.invites, AlreadyInvited)
  {
    SuccessAppendsInvite(users, invites, orgs, req, None);
    var b := req.body.value;
    var user := First(users, UserQuery(b)).value;
    DeliveredIsListed(users, invites, user, b, req);
    var out := Post(users, invites, orgs, req, None);
    DuplicateConflicts(out.users, out.invites, orgs, retry);
  }
}

/** `POST /api/onboarding`: write the wizard's profile data onto the user's
    document and mark onboarding as completed. */
module OnboardingRoute {

  import opened Wrappers
  import opened Js
  import opened Store
  import opened Http
  import Users

  const UserIdRequired := Response(400, ErrorBody(Text("User ID is required")))
  const DefaultError := "Failed to update user profile"

  /** `{ ...updateData, isCompleted: true }`: the flag overrides whatever the
      payload says about it. */
  function CompletionPayload(updateData: Option<Value>): (d: Doc)
    ensures d.Keys == Spread(updateData).Keys + {"isCompleted"}
    ensures d["isCompleted"] == Bool(true)
    ensures forall k :: k in Spread(updateData) && k != "isCompleted" ==> d[k] == Spread(updateData)[k]
  {
    Merge(Spread(updateData), map["isCompleted" := Bool(true)])
  }

  function Failed(e: Thrown): Response
  {
    Response(500, ErrorBody(MessageOr(e, DefaultError)))
  }

  /** The handler's effect on the users collection and its response. */
  function Complete(users: Table, body: Option<Value>, failure: Option<Fault>): (out: (Table, Response))
  {
    match ParseBody(body)
    case Err(e) => (users, Failed(e))
    case Ok(b) =>
      var userId := Field(b, "userId");
      if !TruthyField(userId) then (users, UserIdRequired)
      else if !userId.value.Str? then (users, Failed(StoreRejected(InvalidId)))
      else
        var (users', updated) := UpdateIn(users, userId.value.s, CompletionPayload(Field(b, "updateData")), failure);
        match updated
        case Err(e) => (users', Failed(e))
        case Ok(doc) => (users', Response(200, UserUpdated(true, doc)))
  }

  method HandleComplete(users: Collection, body: Option<Value>, failure: Option<Fault>) returns (response: Response)
    requires users.Valid()
    modifies users
    ensures users.Valid()
    ensures (users.Contents(), response) == Complete(old(users.Contents()), body, failure)
  {
    var parsed := ParseBody(body);
    if parsed.Err? {
      return Failed(parsed.error);
    }
    var userId, updateData := Field(parsed.value, "userId"), Field(parsed.value, "updateData");
    if !TruthyField(userId) {
      return UserIdRequired;
    }
    if !userId.value.Str? {
      return Failed(StoreRejected(InvalidId));
    }
    var updated := users.Update(userId.value.s, CompletionPayload(updateData), failure);
    if updated.Err? {
      return Failed(updated.error);
    }
    response := Response(200, UserUpdated(true, updated.value));
  }

  // ---------------------------------------------------------------------
  // Properties
  // ---------------------------------------------------------------------

  /** A parsed body is answered 400 exactly when `userId` is missing or
      falsy, and then nothing is written. */
  lemma MissingUserIdIs400(users: Table, body: Option<Value>, failure: Option<Fault>)
    requires body.Some? && body.value != Null
    ensures var (users', r) := Complete(users, body, failure);
      && (r.status == 400 <==> !TruthyField(Field(body.value, "userId")))
      && (r.status == 400 ==> r == UserIdRequired && users' == users)
  {
  }

  /** Every failure is a 500 that writes nothing and carries the thrown
      message, or the default text when the message is missing or empty. */
  lemma FailuresWriteNothing(users: Table, body: Option<Value>, failure: Option<Fault>)
    ensures var (users', r) := Complete(users, body, failure);
      r.status !in {200, 400} ==>
        && users' == users && r.status == 500
        && (r.body.error.Text? ==> r.body.error.s == DefaultError)
  {
  }

  /** On success the user's document receives every field of `updateData`
      except `isCompleted`, which is set to true whatever the payload said;
      the fields it does not mention, and every other document, are kept;
      the response carries the merged document. */
  lemma SuccessForcesCompletion(users: Table, body: Option<Value>, failure: Option<Fault>)
    requires Complete(users, body, failure).1.status == 200
    ensures failure.None?
    ensures var b := body.value;
      var id := Field(b, "userId").value.s;
      var data := Spread(Field(b, "updateData"));
      var (users', r) := Complete(users, body, failure);
      && id in users.docs
      && users'.ids == users.ids
      && users'.docs[id]["isCompleted"] == Bool(true)
      && (forall k :: k in data && k != "isCompleted" ==> users'.docs[id][k] == data[k])
      && (forall k :: k in users.docs[id] && k !in data && k != "isCompleted" ==> users'.docs[id][k] == users.docs[id][k])
      && (forall other :: other in users.docs && other != id ==> users'.docs[other] == users.docs[other])
      && r.body == UserUpdated(true, Document(id, users'.docs[id]))
  {
    var b := body.value;
    var id := Field(b, "userId").value.s;
    var payload := CompletionPayload(Field(b, "updateData"));
    var (users', r) := Complete(users, body, failure);
    assert users' == Patch(users, id, payload);
    assert users'.docs[id] == Merge(users.docs[id], payload);
  }

  /** Once the route has completed a user's onboarding, no later call of the
      route (whatever its body, whatever fails) turns the flag back; and the
      user collection's `isOnboardingCompleted` then reports true. */
  lemma {:induction false} CompletionNeverReverts(users: Table, body: Option<Value>, body2: Option<Value>,
                                                  failure2: Option<Fault>)
    requires Complete(users, body, None).1.status == 200
    ensures var id := Field(body.value, "userId").value.s;
      var users1 := Complete(users, body, None).0;
      var users2 := Complete(users1, body2, failure2).0;
      && Users.IsOnboardingCompleted(users1, id, None) == Some(Bool(true))
      && id in users2.docs && users2.docs[id]["isCompleted"] == Bool(true)
      && Users.IsOnboardingCompleted(users2, id, None) == Some(Bool(true))
  {
    SuccessForcesCompletion(users, body, None);
    var id := Field(body.value, "userId").value.s;
    var users1 := Complete(users, body, None).0;
    var (users2, r2) := Complete(users1, body2, failure2);
    if r2.status == 200 {
      SuccessForcesCompletion(users1, body2, failure2);
    } else {
      FailuresWriteNothing(users1, body2, failure2);
      if r2.status == 400 {
        MissingUserIdIs400(users1, body2, failure2);
      }
    }
  }
}

/** `POST /api/auth/callback`: after sign-in, find the user's document by
    email, or create it under the account id; report whether onboarding is
    still due. */
module AuthCallbackRoute {

  import opened Wrappers
  import opened Js
  import opened Store
  import opened Http

  /** The store calls of the handler, in order. */
  datatype Step = Lookup | Write

  const UserDataRequired := Response(400, ErrorBody(Text("User data required")))

  /** `!user || !user.email`. */
  predicate HasUser(b: Value)
  {
    TruthyField(Field(b, "user")) && TruthyField(Field(Field(b, "user").value, "email"))
  }

  function EmailQuery(b: Value): Query
    requires HasUser(b)
  {
    [("email", Field(Field(b, "user").value, "email").value)]
  }

  /** The fields of a new user document: email, name when the account has
      one (an undefined name is dropped by JSON serialisation), and
      `isCompleted: false`. */
  function NewUserFields(user: Value, email: Value): (d: Doc)
    ensures d.Keys == {"email", "isCompleted"} + (if Field(user, "name").Some? then {"name"} else {})
    ensures d["email"] == email && d["isCompleted"] == Bool(false)
    ensures Field(user, "name").Some? ==> d["name"] == Field(user, "name").value
  {
    var base := map["email" := email, "isCompleted" := Bool(false)];
    if Field(user, "name").Some? then base["name" := Field(user, "name").value] else base
  }

  /** `!userDoc.isCompleted`. */
  predicate NeedsOnboarding(d: Doc)
  {
    !Present(d, "isCompleted")
  }

  function Signed(doc: Document): Response
  {
    Response(200, Session(true, doc, NeedsOnboarding(doc.fields)))
  }

  /** The handler's effect on the users collection and its response. */
  function Callback(users: Table, body: Option<Value>, failure: Option<Failure<Step>>): (out: (Table, Response))
  {
    match ParseBody(body)
    case Err(e) => (users, ServerError(e))
    case Ok(b) =>
      if !HasUser(b) then (users, UserDataRequired)
      else
        var user := Field(b, "user").value;
        var email := Field(user, "email").value;
        match ListIn(users, [("email", email)], FaultAt(failure, Lookup))
        case Err(e) => (users, ServerError(e))
        case Ok(existing) =>
          if |existing| > 0 then (users, Signed(existing[0]))
          else
            var id := Field(user, "$id");
            if !(id.Some? && id.value.Str?) then (users, ServerError(StoreRejected(InvalidId)))
            else
              var (users', created) := CreateIn(users, id.value.s, NewUserFields(user, email), FaultAt(failure, Write));
              match created
              case Err(e) => (users', ServerError(e))
              case Ok(doc) => (users', Signed(doc))
  }

  method HandleCallback(users: Collection, body: Option<Value>, failure: Option<Failure<Step>>) returns (response: Response)
    requires users.Valid()
    modifies users
    ensures users.Valid()
    ensures (users.Contents(), response) == Callback(old(users.Contents()), body, failure)
  {
    var parsed := ParseBody(body);
    if parsed.Err? {
      return ServerError(parsed.error);
    }
    var user := Field(parsed.value, "user");
    if !TruthyField(user) || !TruthyField(Field(user.value, "email")) {
      return UserDataRequired;
    }
    var email := Field(user.value, "email").value;

    var existingUsers := ListIn(users.Contents(), [("email", email)], FaultAt(failure, Lookup));
    if existingUsers.Err? {
      return ServerError(existingUsers.error);
    }
    var userDoc: Document;
    if |existingUsers.value| == 0 {
      // the account id becomes the document id
      var id := Field(user.value, "$id");
      if !(id.Some? && id.value.Str?) {
        return ServerError(StoreRejected(InvalidId));
      }
      var created := users.Create(id.value.s, NewUserFields(user.value, email), FaultAt(failure, Write));
      if created.Err? {
        return ServerError(created.error);
      }
      userDoc := created.value;
    } else {
      userDoc := existingUsers.value[0];
    }
    response := Signed(userDoc);
  }

  // ---------------------------------------------------------------------
  // Properties
  // ---------------------------------------------------------------------

  /** A parsed body is answered 400 exactly when the user or their email is
      missing, and then nothing is written. */
  lemma MissingUserIs400(users: Table, body: Option<Value>, failure: Option<Failure<Step>>)
    requires body.Some? && body.value != Null
    ensures var (users', r) := Callback(users, body, failure);
      && (r.status == 400 <==> !HasUser(body.value))
      && (r.status == 400 ==> r == UserDataRequired && users' == users)
  {
  }

  /** A known email: nothing is written and the first document listed under
      it is returned, with `needsOnboarding` the negation of its
      `isCompleted`. */
  lemma ExistingUserIsReturned(users: Table, body: Option<Value>)
    requires ValidTable(users)
    requires body.Some? && body.value != Null && HasUser(body.value)
    requires exists id :: id in users.docs && Matches(users.docs[id], EmailQuery(body.value))
    ensures First(users, EmailQuery(body.value)).Some?
    ensures var (users', r) := Callback(users, body, None);
      var doc := First(users, EmailQuery(body.value)).value;
      && users' == users
      && r == Response(200, Session(true, doc, !Present(doc.fields, "isCompleted")))
  {
    WhereEmptyIff(users, EmailQuery(body.value));
  }

  /** An unknown email with a string account id: exactly one document is
      added, under that id, and the new user is told to complete onboarding. */
  lemma {:induction false} NewUserNeedsOnboarding(users: Table, body: Option<Value>)
    requires ValidTable(users)
    requires body.Some? && body.value != Null && HasUser(body.value)
    requires forall id :: id in users.docs ==> !Matches(users.docs[id], EmailQuery(body.value))
    requires var user := Field(body.value, "user").value;
      Field(user, "$id").Some? && Field(user, "$id").value.Str? && Field(user, "$id").value.s !in users.docs
    ensures var user := Field(body.value, "user").value;
      var id := Field(user, "$id").value.s;
      var (users', r) := Callback(users, body, None);
      && users'.ids == users.ids + [id]
      && users'.docs == users.docs[id := NewUserFields(user, Field(user, "email").value)]
      && users'.docs[id]["isCompleted"] == Bool(false)
      && r.status == 200 && r.body.user.id == id && r.body.needsOnboarding
  {
    WhereEmptyIff(users, EmailQuery(body.value));
  }

  /** An unknown email whose account id is already taken by another
      document: the create is refused, nothing is written and the response
      is 500. */
  lemma TakenIdIsServerError(users: Table, body: Option<Value>)
    requires ValidTable(users)
    requires body.Some? && body.value != Null && HasUser(body.value)
    requires forall id :: id in users.docs ==> !Matches(users.docs[id], EmailQuery(body.value))
    requires var user := Field(body.value, "user").value;
      Field(user, "$id").Some? && Field(user, "$id").value.Str? && Field(user, "$id").value.s in users.docs
    ensures Callback(users, body, None) == (users, ServerError(StoreRejected(DuplicateId)))
  {
    WhereEmptyIff(users, EmailQuery(body.value));
  }

  /** Signing in twice with the same account: the second call writes
      nothing, and once the first call has succeeded the second one answers
      exactly as the first did. So repeated sign-ins create at most one
      document. */
  lemma {:induction false} RepeatedCallbackIdempotent(users: Table, body: Option<Value>)
    requires ValidTable(users)
    ensures var (users1, r1) := Callback(users, body, None);
      var (users2, r2) := Callback(users1, body, None);
      && users2 == users1
      && (r1.status == 200 ==> r2 == r1)
      && |users1.ids| <= |users.ids| + 1
  {
    var (users1, r1) := Callback(users, body, None);
    if body.Some? && body.value != Null && HasUser(body.value) {
      var b := body.value;
      var user := Field(b, "user").value;
      var email := Field(user, "email").value;
      var q := EmailQuery(b);
      assert q == [("email", email)];
      if Where(users, q) == [] {
        var id := Field(user, "$id");
        if id.Some? && id.value.Str? && id.value.s !in users.docs {
          var d := NewUserFields(user, email);
          assert Matches(d, q);
          InsertedIsFirst(users, id.value.s, d, q);
        }
      }
    }
  }
}

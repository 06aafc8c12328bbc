/** The users collection helper (`userDB`): creation and update payloads,
    look-up by email, the onboarding flag and the academic-results update with
    its active-backlog count. */
module Users {

  import opened Wrappers
  import opened Js
  import opened Store

  // ---------------------------------------------------------------------
  // Active backlogs
  // ---------------------------------------------------------------------

  /** The scores `updateAcademicResults` receives; an absent score is None. */
  datatype AcademicResults = AcademicResults(
    tenth: Option<real>, twelfth: Option<real>,
    sem1: Option<real>, sem2: Option<real>, sem3: Option<real>,
    sem4: Option<real>, sem5: Option<real>, sem6: Option<real>)

  /** `[sem1, sem2, sem3, sem4, sem5, sem6]`. */
  function Semesters(r: AcademicResults): (s: seq<Option<real>>)
    ensures |s| == 6
  {
    [r.sem1, r.sem2, r.sem3, r.sem4, r.sem5, r.sem6]
  }

  /** `values.filter(v => v === 0).length`: absent values never count. */
  function CountExactZero(s: seq<Option<real>>): (n: nat)
    ensures n <= |s|
    ensures n == 0 <==> forall i :: 0 <= i < |s| ==> s[i] != Some(0.0)
    ensures n == |s| <==> forall i :: 0 <= i < |s| ==> s[i] == Some(0.0)
  {
    if s == [] then 0
    else (if s[0] == Some(0.0) then 1 else 0) + CountExactZero(s[1..])
  }

  /** Counting over a concatenation adds up the two counts. */
  lemma {:induction false} CountExactZeroAppend(a: seq<Option<real>>, b: seq<Option<real>>)
    ensures CountExactZero(a + b) == CountExactZero(a) + CountExactZero(b)
  {
    if a == [] {
      assert a + b == b;
    } else {
      assert (a + b)[1..] == a[1..] + b;
      CountExactZeroAppend(a[1..], b);
    }
  }

  /** Replacing one entry changes the count by the difference of the two
      entries' own counts. */
  lemma {:induction false} CountExactZeroUpdate(s: seq<Option<real>>, i: nat, v: Option<real>)
    requires i < |s|
    ensures CountExactZero(s[i := v]) + CountExactZero([s[i]]) == CountExactZero(s) + CountExactZero([v])
  {
    if i == 0 {
      assert s[i := v][1..] == s[1..];
    } else {
      assert s[i := v][1..] == s[1..][i - 1 := v];
      CountExactZeroUpdate(s[1..], i - 1, v);
    }
  }

  /** The active backlog count of a set of results: semesters whose score is
      exactly 0. */
  function ActiveBacklogs(r: AcademicResults): (n: nat)
    ensures n <= 6
    ensures n == 0 <==> forall i :: 0 <= i < 6 ==> Semesters(r)[i] != Some(0.0)
  {
    CountExactZero(Semesters(r))
  }

  /** The pre-university scores never affect the count. */
  lemma PreUniversityScoresIgnored(r: AcademicResults, tenth: Option<real>, twelfth: Option<real>)
    ensures ActiveBacklogs(r.(tenth := tenth, twelfth := twelfth)) == ActiveBacklogs(r)
  {
  }

  const ScoreKeys: set<string> := {"10th", "12th", "sem1", "sem2", "sem3", "sem4", "sem5", "sem6"}
  const SemesterKeys: seq<string> := ["sem1", "sem2", "sem3", "sem4", "sem5", "sem6"]

  /** The score stored under a field name of the users schema. */
  function ScoreOf(r: AcademicResults, k: string): Option<real>
  {
    match k
    case "10th" => r.tenth
    case "12th" => r.twelfth
    case "sem1" => r.sem1
    case "sem2" => r.sem2
    case "sem3" => r.sem3
    case "sem4" => r.sem4
    case "sem5" => r.sem5
    case "sem6" => r.sem6
    case _ => None
  }

  /** `{ ...results, active_backlog }`: the present scores as numbers, and the
      computed count. */
  function AcademicPayload(r: AcademicResults): (d: Doc)
    ensures d.Keys <= ScoreKeys + {"active_backlog"}
    ensures "active_backlog" in d && d["active_backlog"] == Num(ActiveBacklogs(r) as real)
    ensures forall k :: k in ScoreKeys ==> (k in d <==> ScoreOf(r, k).Some?)
    ensures forall k :: k in ScoreKeys && k in d ==> d[k] == Num(ScoreOf(r, k).value)
  {
    var scores := map k | k in ScoreKeys && ScoreOf(r, k).Some? :: Num(ScoreOf(r, k).value);
    scores["active_backlog" := Num(ActiveBacklogs(r) as real)]
  }

  /** A stored semester field read back as a score (a non-number is no score). */
  function StoredScore(d: Doc, k: string): Option<real>
  {
    if k in d && d[k].Num? then Some(d[k].n) else None
  }

  /** The six stored semester scores of a user document. */
  function StoredSemesters(d: Doc): (s: seq<Option<real>>)
    ensures |s| == 6
  {
    seq(6, i requires 0 <= i < 6 => StoredScore(d, SemesterKeys[i]))
  }

  /** The document invariant of the users collection: `active_backlog` equals
      the number of stored semesters whose score is exactly 0. */
  predicate BacklogConsistent(d: Doc)
  {
    "active_backlog" in d && d["active_backlog"] == Num(CountExactZero(StoredSemesters(d)) as real)
  }

  // ---------------------------------------------------------------------
  // Payloads
  // ---------------------------------------------------------------------

  /** `x ?? fallback` for a field that may be undefined. */
  function Coalesce(d: Doc, k: string, fallback: Value): (v: Value)
    ensures k in d && d[k] != Null ==> v == d[k]
    ensures !(k in d && d[k] != Null) ==> v == fallback
  {
    if k in d && d[k] != Null then d[k] else fallback
  }

  /** The fields `create` writes: `data`, with `isCompleted` defaulting to
      false and `invite` to `[]`, and a fresh `updatedAt`. */
  function CreatePayload(data: Doc, now: string): (d: Doc)
    ensures d.Keys == data.Keys + {"isCompleted", "invite", "updatedAt"}
    ensures forall k :: k in data && k !in {"isCompleted", "invite", "updatedAt"} ==> d[k] == data[k]
    ensures d["isCompleted"] == (if "isCompleted" in data && data["isCompleted"] != Null
                                 then data["isCompleted"] else Bool(false))
    ensures d["invite"] == (if "invite" in data && data["invite"] != Null
                            then data["invite"] else StrList([]))
    ensures d["updatedAt"] == Str(now)
  {
    Merge(data, map["isCompleted" := Coalesce(data, "isCompleted", Bool(false)),
                    "invite" := Coalesce(data, "invite", StrList([])),
                    "updatedAt" := Str(now)])
  }

  /** The fields `update` writes: `data` and a fresh `updatedAt`. */
  function UpdatePayload(data: Doc, now: string): (d: Doc)
    ensures d.Keys == data.Keys + {"updatedAt"}
    ensures forall k :: k in data && k != "updatedAt" ==> d[k] == data[k]
    ensures d["updatedAt"] == Str(now)
  {
    data["updatedAt" := Str(now)]
  }

  // ---------------------------------------------------------------------
  // The store operations
  // ---------------------------------------------------------------------

  /** `userDB.create` on a snapshot of the collection. */
  function CreateUser(t: Table, id: string, data: Doc, now: string, failure: Option<Fault>)
    : (out: (Table, Result<Document, Thrown>))
  {
    CreateIn(t, id, CreatePayload(data, now), failure)
  }

  /** `userDB.update` on a snapshot of the collection. */
  function UpdateUser(t: Table, id: string, data: Doc, now: string, failure: Option<Fault>)
    : (out: (Table, Result<Document, Thrown>))
  {
    UpdateIn(t, id, UpdatePayload(data, now), failure)
  }

  /** A created user carries the defaults unless the caller supplied values,
      and no other document changes. */
  lemma CreateUserDefaults(t: Table, id: string, data: Doc, now: string)
    requires id !in t.docs
    ensures var (t', r) := CreateUser(t, id, data, now, None);
      && r.Ok? && r.value.id == id
      && t'.ids == t.ids + [id]
      && (forall other :: other in t.docs ==> t'.docs[other] == t.docs[other])
      && ("isCompleted" !in data ==> t'.docs[id]["isCompleted"] == Bool(false))
      && ("invite" !in data ==> t'.docs[id]["invite"] == StrList([]))
      && ("isCompleted" in data && data["isCompleted"] != Null ==> t'.docs[id]["isCompleted"] == data["isCompleted"])
      && ("invite" in data && data["invite"] != Null ==> t'.docs[id]["invite"] == data["invite"])
  {
  }

  /** An update writes exactly the supplied fields plus `updatedAt`; every
      other stored field and every other document is untouched. */
  lemma UpdateUserFrame(t: Table, id: string, data: Doc, now: string)
    requires id in t.docs
    ensures var (t', r) := UpdateUser(t, id, data, now, None);
      && r.Ok? && t'.ids == t.ids
      && t'.docs[id].Keys == t.docs[id].Keys + data.Keys + {"updatedAt"}
      && (forall k :: k in data && k != "updatedAt" ==> t'.docs[id][k] == data[k])
      && (forall k :: k in t.docs[id] && k !in data && k != "updatedAt" ==> t'.docs[id][k] == t.docs[id][k])
      && t'.docs[id]["updatedAt"] == Str(now)
      && (forall other :: other in t.docs && other != id ==> t'.docs[other] == t.docs[other])
  {
  }

  method Create(users: Collection, id: string, data: Doc, now: string, failure: Option<Fault>)
    returns (r: Result<Document, Thrown>)
    requires users.Valid()
    modifies users
    ensures users.Valid()
    ensures (users.Contents(), r) == CreateUser(old(users.Contents()), id, data, now, failure)
  {
    var userData := CreatePayload(data, now);
    r := users.Create(id, userData, failure);
  }

  method Update(users: Collection, id: string, data: Doc, now: string, failure: Option<Fault>)
    returns (r: Result<Document, Thrown>)
    requires users.Valid()
    modifies users
    ensures users.Valid()
    ensures (users.Contents(), r) == UpdateUser(old(users.Contents()), id, data, now, failure)
  {
    var updateData := UpdatePayload(data, now);
    r := users.Update(id, updateData, failure);
  }

  method Delete(users: Collection, id: string, failure: Option<Fault>) returns (r: Result<(), Thrown>)
    requires users.Valid()
    modifies users
    ensures users.Valid()
    ensures (users.Contents(), r) == DeleteIn(old(users.Contents()), id, failure)
    ensures r.Ok? ==> id !in users.docs && users.docs == old(users.docs) - {id}
  {
    r := users.Delete(id, failure);
  }

  /** `userDB.getByEmail`: the first listed document whose email matches, or
      null; a failing listing is rethrown. */
  function GetByEmail(t: Table, email: string, failure: Option<Fault>): (r: Result<Option<Document>, Thrown>)
    requires ValidTable(t)
    ensures r.Err? <==> failure.Some?
    ensures r == Ok(None) <==> failure.None? && forall id :: id in t.docs ==> !Matches(t.docs[id], [("email", Str(email))])
    ensures r.Ok? && r.value.Some? ==>
              var d := r.value.value;
              && d.id in t.docs && d.fields == t.docs[d.id]
              && "email" in d.fields && d.fields["email"] == Str(email)
              && exists j :: Hit(t, [("email", Str(email))], j) && t.ids[j] == d.id
                             && forall j' :: 0 <= j' < j ==> !Hit(t, [("email", Str(email))], j')
  {
    WhereEmptyIff(t, [("email", Str(email))]);
    match ListIn(t, [("email", Str(email))], failure)
    case Err(e) => Err(e)
    case Ok(documents) =>
      if |documents| > 0 then
        var q := [("email", Str(email))];
        assert Matches(documents[0].fields, q);
        assert q[0].0 in documents[0].fields && documents[0].fields[q[0].0] == q[0].1;
        Ok(Some(documents[0]))
      else Ok(None)
  }

  /** `userDB.isOnboardingCompleted`: the stored `isCompleted` value (None
      when the document has no such field, i.e. undefined), and false when
      the look-up throws. */
  function IsOnboardingCompleted(t: Table, id: string, failure: Option<Fault>): (r: Option<Value>)
    ensures failure.Some? || id !in t.docs ==> r == Some(Bool(false))
    ensures failure.None? && id in t.docs ==>
              (r.Some? <==> "isCompleted" in t.docs[id]) &&
              (r.Some? ==> r.value == t.docs[id]["isCompleted"])
  {
    match GetIn(t, id, failure)
    case Err(_) => Some(Bool(false))
    case Ok(user) => if "isCompleted" in user.fields then Some(user.fields["isCompleted"]) else None
  }

  // ---------------------------------------------------------------------
  // updateAcademicResults
  // ---------------------------------------------------------------------

  /** `userDB.updateAcademicResults` as written: the count covers only the
      semesters passed in. */
  function UpdateAcademic(t: Table, id: string, r: AcademicResults, now: string, failure: Option<Fault>)
    : (out: (Table, Result<Document, Thrown>))
  {
    UpdateUser(t, id, AcademicPayload(r), now, failure)
  }

  method UpdateAcademicResults(users: Collection, id: string, results: AcademicResults, now: string,
                               failure: Option<Fault>)
    returns (r: Result<Document, Thrown>)
    requires users.Valid()
    modifies users
    ensures users.Valid()
    ensures (users.Contents(), r) == UpdateAcademic(old(users.Contents()), id, results, now, failure)
  {
    var activeBacklogs := CountExactZero(Semesters(results));
    var updateData := AcademicPayload(results);
    assert updateData["active_backlog"] == Num(activeBacklogs as real);
    r := Update(users, id, updateData, now, failure);
  }

  /** The stored semesters after an academic update: a supplied score wins,
      an omitted one keeps the stored value. */
  function EffectiveSemesters(stored: Doc, r: AcademicResults): (s: seq<Option<real>>)
    ensures |s| == 6
  {
    seq(6, i requires 0 <= i < 6 =>
      if Semesters(r)[i].Some? then Semesters(r)[i] else StoredScore(stored, SemesterKeys[i]))
  }

  /** The semester fields of an academic payload are the supplied semester
      scores. */
  predicate CarriesSemesters(payload: Doc, r: AcademicResults)
  {
    forall i :: 0 <= i < 6 ==>
      && (SemesterKeys[i] in payload <==> Semesters(r)[i].Some?)
      && (SemesterKeys[i] in payload ==> payload[SemesterKeys[i]] == Num(Semesters(r)[i].value))
  }

  lemma AcademicPayloadCarriesSemesters(r: AcademicResults)
    ensures CarriesSemesters(AcademicPayload(r), r)
  {
    var d := AcademicPayload(r);
    forall i | 0 <= i < 6
      ensures SemesterKeys[i] in d <==> Semesters(r)[i].Some?
      ensures SemesterKeys[i] in d ==> d[SemesterKeys[i]] == Num(Semesters(r)[i].value)
    {
      SemesterScore(r, i);
    }
  }

  /** The i-th semester key names the i-th semester score. */
  lemma SemesterScore(r: AcademicResults, i: int)
    requires 0 <= i < 6
    ensures SemesterKeys[i] in ScoreKeys && ScoreOf(r, SemesterKeys[i]) == Semesters(r)[i]
  {
    if i == 0 { assert SemesterKeys[i] == "sem1"; }
    else if i == 1 { assert SemesterKeys[i] == "sem2"; }
    else if i == 2 { assert SemesterKeys[i] == "sem3"; }
    else if i == 3 { assert SemesterKeys[i] == "sem4"; }
    else if i == 4 { assert SemesterKeys[i] == "sem5"; }
    else { assert SemesterKeys[i] == "sem6"; }
  }

  /** Merging a payload that carries the supplied semesters over a stored
      document yields the effective semesters. */
  lemma MergedSemesters(stored: Doc, payload: Doc, r: AcademicResults, now: string)
    requires CarriesSemesters(payload, r)
    ensures StoredSemesters(Merge(stored, UpdatePayload(payload, now))) == EffectiveSemesters(stored, r)
  {
    var merged := Merge(stored, UpdatePayload(payload, now));
    forall i | 0 <= i < 6
      ensures StoredSemesters(merged)[i] == EffectiveSemesters(stored, r)[i]
    {
      assert SemesterKeys[i] != "updatedAt";
    }
  }

  /** When every semester is supplied, the update as written leaves the
      stored document consistent. */
  lemma {:induction false} FullResultsKeepConsistent(t: Table, id: string, r: AcademicResults, now: string)
    requires id in t.docs
    requires forall i :: 0 <= i < 6 ==> Semesters(r)[i].Some?
    ensures var (t', res) := UpdateAcademic(t, id, r, now, None);
            res.Ok? && BacklogConsistent(t'.docs[id])
  {
    var payload := AcademicPayload(r);
    AcademicPayloadCarriesSemesters(r);
    MergedSemesters(t.docs[id], payload, r, now);
    assert "active_backlog" != "updatedAt";
    assert EffectiveSemesters(t.docs[id], r) == Semesters(r);
  }

  /** A stored zero that the call does not resend survives the merge while
      the recomputed count drops it: user `u` with `sem1 = 0` and
      `active_backlog = 1`, updated with `{ sem2: 8 }`. */
  lemma PartialResultsBreakConsistency()
    ensures var t := Table(["u"], map["u" := map["sem1" := Num(0.0), "active_backlog" := Num(1.0)]]);
            var r := AcademicResults(None, None, None, Some(8.0), None, None, None, None);
            var (t', res) := UpdateAcademic(t, "u", r, "now", None);
            && BacklogConsistent(t.docs["u"])
            && res.Ok? && !BacklogConsistent(t'.docs["u"])
  {
    var stored := map["sem1" := Num(0.0), "active_backlog" := Num(1.0)];
    var r := AcademicResults(None, None, None, Some(8.0), None, None, None, None);
    ExampleStoredConsistent(stored);
    ExampleMergeInconsistent(stored, r);
  }

  lemma ExampleStoredConsistent(stored: Doc)
    requires stored == map["sem1" := Num(0.0), "active_backlog" := Num(1.0)]
    ensures BacklogConsistent(stored)
  {
    assert StoredSemesters(stored) == [Some(0.0), None, None, None, None, None];
    assert CountExactZero(StoredSemesters(stored)) == 1;
  }

  lemma ExampleMergeInconsistent(stored: Doc, r: AcademicResults)
    requires stored == map["sem1" := Num(0.0), "active_backlog" := Num(1.0)]
    requires r == AcademicResults(None, None, None, Some(8.0), None, None, None, None)
    ensures !BacklogConsistent(Merge(stored, UpdatePayload(AcademicPayload(r), "now")))
  {
    assert Semesters(r) == [None, Some(8.0), None, None, None, None];
    var payload := AcademicPayload(r);
    AcademicPayloadCarriesSemesters(r);
    var merged := Merge(stored, UpdatePayload(payload, "now"));
    MergedSemesters(stored, payload, r, "now");
    var effective := EffectiveSemesters(stored, r);
    assert effective[0] == Some(0.0);
    assert CountExactZero(effective) != 0;
    assert merged["active_backlog"] == Num(0.0);
  }

  /** The payload the corrected update writes: the count covers the scores
      the document will hold after the merge. */
  function ConsistentAcademicPayload(stored: Doc, r: AcademicResults): (d: Doc)
    ensures CarriesSemesters(d, r)
    ensures d.Keys == AcademicPayload(r).Keys
    ensures forall k :: k in d && k != "active_backlog" ==> d[k] == AcademicPayload(r)[k]
    ensures d["active_backlog"] == Num(CountExactZero(EffectiveSemesters(stored, r)) as real)
  {
    AcademicPayloadCarriesSemesters(r);
    AcademicPayload(r)["active_backlog" := Num(CountExactZero(EffectiveSemesters(stored, r)) as real)]
  }

  /** `updateAcademicResults` corrected: read the stored document, then write
      the results with the count over the merged semesters. */
  function UpdateAcademicConsistent(t: Table, id: string, r: AcademicResults, now: string,
                                    readFailure: Option<Fault>, writeFailure: Option<Fault>)
    : (out: (Table, Result<Document, Thrown>))
  {
    match GetIn(t, id, readFailure)
    case Err(e) => (t, Err(e))
    case Ok(user) => UpdateUser(t, id, ConsistentAcademicPayload(user.fields, r), now, writeFailure)
  }

  /** Whatever was stored and whichever scores are supplied, a successful
      corrected update leaves the document consistent. */
  lemma {:induction false} CorrectedUpdateKeepsConsistent(t: Table, id: string, r: AcademicResults, now: string,
                                                          readFailure: Option<Fault>, writeFailure: Option<Fault>)
    ensures var (t', res) := UpdateAcademicConsistent(t, id, r, now, readFailure, writeFailure);
            res.Ok? ==> id in t'.docs && BacklogConsistent(t'.docs[id])
  {
    if readFailure.None? && writeFailure.None? && id in t.docs {
      var stored := t.docs[id];
      MergedSemesters(stored, ConsistentAcademicPayload(stored, r), r, now);
      assert "active_backlog" != "updatedAt";
    }
  }

  method UpdateAcademicResultsConsistent(users: Collection, id: string, results: AcademicResults, now: string,
                                         readFailure: Option<Fault>, writeFailure: Option<Fault>)
    returns (r: Result<Document, Thrown>)
    requires users.Valid()
    modifies users
    ensures users.Valid()
    ensures (users.Contents(), r) ==
            UpdateAcademicConsistent(old(users.Contents()), id, results, now, readFailure, writeFailure)
  {
    var user := GetIn(users.Contents(), id, readFailure);
    if user.Err? {
      r := Err(user.error);
      return;
    }
    var updateData := ConsistentAcademicPayload(user.value.fields, results);
    r := Update(users, id, updateData, now, writeFailure);
  }
}

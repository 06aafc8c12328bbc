/** The student onboarding wizard: four steps (personal info, academic
    details, resume, academic results) with per-step validation, the
    academic-file uploads and the final submission. Each handler is one
    atomic transition of the page state. */
module OnboardingPage {

  import opened Wrappers
  import opened Js
  import Users

  const TotalSteps: int := 4

  /** The initial `formData`; the fields it initialises to undefined are
      absent. */
  const InitialForm: Doc := map[
    "name" := Str(""), "course" := Str(""), "stream" := Str(""), "batch" := Str(""),
    "institute" := Str(""), "email" := Str(""), "phone" := Str(""), "address" := Str(""),
    "dob" := Str(""), "active_backlog" := Num(0.0), "isCompleted" := Bool(false), "invite" := StrList([])]

  /** `{ ...formData, [field]: value }`; an undefined value leaves the field
      absent. */
  function SetField(form: Doc, field: string, value: Option<Value>): (d: Doc)
    ensures value.Some? ==> field in d && d[field] == value.value
    ensures value.None? ==> field !in d
    ensures forall k :: k != field ==> (k in d <==> k in form) && (k in d ==> d[k] == form[k])
  {
    if value.Some? then form[field := value.value] else form - {field}
  }

  /** A text field of the form; the inputs only ever store strings there. */
  function TextField(form: Doc, k: string): string
  {
    if k in form && form[k].Str? then form[k].s else ""
  }

  // ---------------------------------------------------------------------
  // calculateActiveBacklogs and GPA input
  // ---------------------------------------------------------------------

  /** A semester of the form holds the number 0 (`gpa === 0`). */
  predicate ZeroAt(form: Doc, i: int)
    requires 0 <= i < 6
  {
    Users.SemesterKeys[i] in form && form[Users.SemesterKeys[i]] == Num(0.0)
  }

  /** `calculateActiveBacklogs`: the semesters of the form whose value is
      exactly 0; absent values and the 10th/12th scores do not count. */
  function CalculateActiveBacklogs(form: Doc): (n: nat)
    ensures n <= 6
    ensures n == 0 <==> forall i :: 0 <= i < 6 ==> !ZeroAt(form, i)
    ensures n == 6 <==> forall i :: 0 <= i < 6 ==> ZeroAt(form, i)
  {
    var s := Users.StoredSemesters(form);
    assert forall i :: 0 <= i < 6 ==> (s[i] == Some(0.0) <==> ZeroAt(form, i));
    Users.CountExactZero(s)
  }

  /** The page and the users collection count backlogs by the same rule:
      on a form holding a set of results, the page's count is the
      collection's. */
  lemma SameCountAsCollection(r: Users.AcademicResults)
    ensures CalculateActiveBacklogs(Users.AcademicPayload(r)) == Users.ActiveBacklogs(r)
  {
    Users.AcademicPayloadCarriesSemesters(r);
    assert Users.StoredSemesters(Users.AcademicPayload(r)) == Users.Semesters(r);
  }

  /** `parseFloat(text) || undefined`, where `parsed` is None when the text
      does not parse (NaN): 0 and NaN, both falsy, become undefined. */
  function GpaInput(parsed: Option<real>): (v: Option<Value>)
    ensures v != Some(Num(0.0))
    ensures v.Some? <==> parsed.Some? && parsed.value != 0.0
    ensures v.Some? ==> v.value == Num(parsed.value)
  {
    if parsed.Some? && parsed.value != 0.0 then Some(Num(parsed.value)) else None
  }

  /** Typing a GPA into a semester field can never raise the backlog count:
      that semester no longer counts, and the others are untouched. */
  lemma {:induction false} TypedGpaNeverAddsBacklog(form: Doc, i: nat, parsed: Option<real>)
    requires i < 6
    ensures var form' := SetField(form, Users.SemesterKeys[i], GpaInput(parsed));
      && !ZeroAt(form', i)
      && CalculateActiveBacklogs(form') <= CalculateActiveBacklogs(form)
      && CalculateActiveBacklogs(form') == CalculateActiveBacklogs(form) - (if ZeroAt(form, i) then 1 else 0)
  {
    var form' := SetField(form, Users.SemesterKeys[i], GpaInput(parsed));
    var s, s' := Users.StoredSemesters(form), Users.StoredSemesters(form');
    assert s' == s[i := s'[i]] by {
      forall j | 0 <= j < 6 && j != i
        ensures s'[j] == s[j]
      {
        assert Users.SemesterKeys[j] != Users.SemesterKeys[i];
      }
    }
    assert s'[i] != Some(0.0);
    Users.CountExactZeroUpdate(s, i, s'[i]);
  }

  /** Typed GPA entries, one semester index and one parse result each. */
  datatype GpaEntry = GpaEntry(semester: nat, parsed: Option<real>)

  function TypeAll(form: Doc, entries: seq<GpaEntry>): Doc
    decreases |entries|
  {
    if entries == [] then form
    else
      var e := entries[0];
      var form' := if e.semester < 6 then SetField(form, Users.SemesterKeys[e.semester], GpaInput(e.parsed)) else form;
      TypeAll(form', entries[1..])
  }

  /** Starting from the empty form, no sequence of typed GPAs ever records a
      backlog: only a GPA extracted from an uploaded file can. */
  lemma {:induction false} TypingAloneRecordsNoBacklog(form: Doc, entries: seq<GpaEntry>)
    requires CalculateActiveBacklogs(form) == 0
    ensures CalculateActiveBacklogs(TypeAll(form, entries)) == 0
    decreases |entries|
  {
    if entries != [] {
      var e := entries[0];
      if e.semester < 6 {
        TypedGpaNeverAddsBacklog(form, e.semester, e.parsed);
      }
      var form' := if e.semester < 6 then SetField(form, Users.SemesterKeys[e.semester], GpaInput(e.parsed)) else form;
      TypingAloneRecordsNoBacklog(form', entries[1..]);
    }
  }

  lemma InitialFormHasNoBacklog()
    ensures CalculateActiveBacklogs(InitialForm) == 0
  {
    assert forall i :: 0 <= i < 6 ==> Users.SemesterKeys[i] !in InitialForm;
  }

  // ---------------------------------------------------------------------
  // Validation
  // ---------------------------------------------------------------------

  /** `s[lo..hi]` is non-empty and holds no white space (a match of `\S+`). */
  predicate NonSpaceRun(s: string, lo: int, hi: int)
  {
    0 <= lo < hi <= |s| && forall m :: lo <= m < hi ==> !IsSpace(s[m])
  }

  /** `s[a..e]` matches `\S+@\S+\.\S+`, with the `@` at `at` and the `.` at
      `dot`. */
  predicate MatchAt(s: string, a: int, at: int, dot: int, e: int)
  {
    && NonSpaceRun(s, a, at)
    && 0 <= at < |s| && s[at] == '@'
    && NonSpaceRun(s, at + 1, dot)
    && 0 <= dot < |s| && s[dot] == '.'
    && NonSpaceRun(s, dot + 1, e)
  }

  /** `/\S+@\S+\.\S+/.test(s)`: the pattern is not anchored, so it may match
      anywhere in the string. */
  predicate EmailPattern(s: string)
  {
    exists a, at, dot, e | 0 <= a < at < dot < e <= |s| :: MatchAt(s, a, at, dot, e)
  }

  /** The same condition, read locally: an `@` with a non-space character
      before it, then one or more non-space characters, then a `.` with a
      non-space character after it. */
  predicate ShapeAt(s: string, at: int, dot: int)
  {
    && 0 < at < dot < |s| - 1
    && s[at] == '@' && s[dot] == '.'
    && !IsSpace(s[at - 1]) && NonSpaceRun(s, at + 1, dot) && !IsSpace(s[dot + 1])
  }

  predicate EmailShape(s: string)
  {
    exists at, dot | 0 < at < dot < |s| - 1 :: ShapeAt(s, at, dot)
  }

  lemma EmailPatternIffShape(s: string)
    ensures EmailPattern(s) <==> EmailShape(s)
  {
    if EmailPattern(s) {
      var a, at, dot, e :| 0 <= a < at < dot < e <= |s| && MatchAt(s, a, at, dot, e);
      assert NonSpaceRun(s, a, at) && NonSpaceRun(s, dot + 1, e);
      assert !IsSpace(s[at - 1]) && !IsSpace(s[dot + 1]);
      assert ShapeAt(s, at, dot);
    }
    if EmailShape(s) {
      var at, dot :| 0 < at < dot < |s| - 1 && ShapeAt(s, at, dot);
      assert NonSpaceRun(s, at - 1, at) && NonSpaceRun(s, dot + 1, dot + 2);
      assert MatchAt(s, at - 1, at, dot, dot + 2);
    }
  }

  /** The message for the name field of step 1, if any: a name made only
      of white space is missing. */
  function NameError(name: string): Option<string>
  {
    if Blank(name) then Some("Name is required") else None
  }

  /** The message for the email field of step 1, if any: an empty email is
      reported as missing before its shape is looked at. */
  function EmailError(email: string): Option<string>
  {
    if Blank(email) then Some("Email is required")
    else if !EmailShape(email) then Some("Invalid email format")
    else None
  }

  function Entry(k: string, e: Option<string>): map<string, string>
  {
    if e.Some? then map[k := e.value] else map[]
  }

  /** Two entries under different keys, side by side. */
  lemma EntryUnion(k1: string, e1: Option<string>, k2: string, e2: Option<string>)
    requires k1 != k2
    ensures var m := Entry(k1, e1) + Entry(k2, e2);
      && m.Keys <= {k1, k2}
      && (k1 in m <==> e1.Some?) && (k1 in m ==> m[k1] == e1.value)
      && (k2 in m <==> e2.Some?) && (k2 in m ==> m[k2] == e2.value)
  {
  }

  /** The errors `validateCurrentStep` records for a step. */
  function StepErrors(step: int, form: Doc): (errs: map<string, string>)
    ensures errs.Keys <= if step == 1 then {"name", "email"} else if step == 3 then {"resume_file_id"} else {}
    ensures step == 3 ==> ("resume_file_id" in errs <==> !Present(form, "resume_file_id"))
    ensures forall k :: k in errs ==> errs[k] != ""
  {
    if step == 1 then Entry("name", NameError(TextField(form, "name"))) + Entry("email", EmailError(TextField(form, "email")))
    else if step == 3 then
      if !Present(form, "resume_file_id") then map["resume_file_id" := "Resume is required"] else map[]
    else map[]
  }

  /** Step 1 reports a blank name, and a blank or malformed email, each
      under its field. */
  lemma StepOneErrors(form: Doc)
    ensures var errs := StepErrors(1, form);
      var name, email := TextField(form, "name"), TextField(form, "email");
      && errs.Keys <= {"name", "email"}
      && ("name" in errs <==> Blank(name))
      && ("name" in errs ==> errs["name"] == "Name is required")
      && ("email" in errs <==> Blank(email) || !EmailShape(email))
      && ("email" in errs ==> errs["email"] == (if Blank(email) then "Email is required" else "Invalid email format"))
  {
    var name, email := TextField(form, "name"), TextField(form, "email");
    EntryUnion("name", NameError(name), "email", EmailError(email));
  }

  /** What each step demands of the form. */
  predicate StepValid(step: int, form: Doc)
  {
    && (step == 1 ==> !Blank(TextField(form, "name")) && !Blank(TextField(form, "email"))
                      && EmailShape(TextField(form, "email")))
    && (step == 3 ==> Present(form, "resume_file_id"))
  }

  /** `validateCurrentStep` returns true exactly when the step's demands are
      met; steps 2 and 4 always validate. */
  lemma StepErrorsEmptyIffValid(step: int, form: Doc)
    ensures StepErrors(step, form) == map[] <==> StepValid(step, form)
  {
    if step == 1 {
      StepOneErrors(form);
      var errs := StepErrors(step, form);
      var name, email := TextField(form, "name"), TextField(form, "email");
      if errs == map[] {
        assert "name" !in errs && "email" !in errs;
        assert !Blank(name) && !Blank(email) && EmailShape(email);
      } else {
        var k :| k in errs;
        if k == "name" {
          assert Blank(name);
        } else {
          assert k == "email";
          assert Blank(email) || !EmailShape(email);
        }
      }
    } else if step == 3 && !Present(form, "resume_file_id") {
      assert "resume_file_id" in StepErrors(step, form);
    }
  }

  // ---------------------------------------------------------------------
  // Step navigation
  // ---------------------------------------------------------------------

  /** The step after `nextStep`. */
  function NextStepOf(step: int, form: Doc): (s: int)
    requires 1 <= step <= TotalSteps
    ensures 1 <= s <= TotalSteps
    ensures s == step + 1 <==> step < TotalSteps && StepValid(step, form)
    ensures s != step + 1 ==> s == step
  {
    StepErrorsEmptyIffValid(step, form);
    if StepErrors(step, form) == map[] && step < TotalSteps then step + 1 else step
  }

  /** The step after `prevStep`. */
  function PrevStepOf(step: int): (s: int)
    requires 1 <= step <= TotalSteps
    ensures 1 <= s <= TotalSteps
    ensures s == step - 1 <==> step > 1
    ensures s != step - 1 ==> s == step
  {
    if step > 1 then step - 1 else step
  }

  datatype Nav = Next | Prev

  function Navigate(step: int, form: Doc, navs: seq<Nav>): (s: int)
    requires 1 <= step <= TotalSteps
    ensures 1 <= s <= TotalSteps
    decreases |navs|
  {
    if navs == [] then step
    else Navigate(if navs[0] == Next then NextStepOf(step, form) else PrevStepOf(step), form, navs[1..])
  }

  /** Moving past step 1 or step 3 requires that step's demands: whatever
      the clicks, the wizard leaves a step upward only through `nextStep` on
      a valid form. */
  lemma {:induction false} PassingAStepRequiresItValid(step: int, form: Doc, navs: seq<Nav>, k: int)
    requires 1 <= step <= TotalSteps
    requires step <= k < Navigate(step, form, navs)
    ensures StepValid(k, form)
    decreases |navs|
  {
    if navs != [] {
      var step' := if navs[0] == Next then NextStepOf(step, form) else PrevStepOf(step);
      if step' <= k {
        PassingAStepRequiresItValid(step', form, navs[1..], k);
      }
    }
  }

  // ---------------------------------------------------------------------
  // Academic file uploads
  // ---------------------------------------------------------------------

  const AcademicKeys: seq<string> := ["10th", "12th", "sem1", "sem2", "sem3", "sem4", "sem5", "sem6"]

  /** An entry of `uploadedFiles`: whether it holds a file, and the stored
      file id once uploaded. */
  datatype Upload = Upload(hasFile: bool, fileId: Option<string>)

  /** `fileData && fileData.file && !fileData.fileId`. */
  predicate Pending(files: map<string, Upload>, key: string)
  {
    key in files && files[key].hasFile && !(files[key].fileId.Some? && files[key].fileId.value != "")
  }

  /** What the upload endpoint answers for one file: the `fileId` of its
      JSON reply (possibly undefined), or a failure, which throws. */
  datatype UploadReply = Stored(fileId: Option<string>) | UploadFailed

  /** The loop of `uploadAllAcademicFiles` over `keys` from position `i`
      on; `replies[j]` is the answer to an upload of `keys[j]`. */
  function UploadFrom(files: map<string, Upload>, keys: seq<string>, replies: seq<UploadReply>, i: nat)
    : (out: (map<string, Upload>, bool))
    requires |replies| == |keys| && i <= |keys|
    decreases |keys| - i
  {
    if i == |keys| then (files, true)
    else
      var key := keys[i];
      if !Pending(files, key) then UploadFrom(files, keys, replies, i + 1)
      else match replies[i]
        case UploadFailed => (files, false)
        case Stored(id) => UploadFrom(files[key := files[key].(fileId := id)], keys, replies, i + 1)
  }

  predicate Distinct(keys: seq<string>)
  {
    forall a, b :: 0 <= a < b < |keys| ==> keys[a] != keys[b]
  }

  lemma AcademicKeysDistinct()
    ensures Distinct(AcademicKeys)
  {
  }

  /** No pending key among positions `lo` to `hi` (exclusive) has a failed
      upload. */
  predicate AllStored(files: map<string, Upload>, keys: seq<string>, replies: seq<UploadReply>, lo: nat, hi: nat)
    requires |replies| == |keys| && hi <= |keys|
  {
    forall m :: lo <= m < hi && Pending(files, keys[m]) ==> replies[m].Stored?
  }

  /** The uploads from position `i` on: the result is true exactly when no
      pending key's upload fails; only pending keys change, and when all
      succeed each keeps its file and takes the returned id. */
  lemma {:induction false} UploadFromSpec(files: map<string, Upload>, keys: seq<string>, replies: seq<UploadReply>,
                                          i: nat)
    requires |replies| == |keys| && i <= |keys| && Distinct(keys)
    decreases |keys| - i
    ensures var (files', ok) := UploadFrom(files, keys, replies, i);
      && (ok <==> forall j :: i <= j < |keys| && Pending(files, keys[j]) ==> replies[j].Stored?)
      && files'.Keys == files.Keys
      && (forall k :: k in files && !Pending(files, k) ==> files'[k] == files[k])
      && (forall k :: k in files && k !in keys[i..] ==> files'[k] == files[k])
      && (ok ==> forall j :: i <= j < |keys| && Pending(files, keys[j]) ==>
                   files'[keys[j]] == files[keys[j]].(fileId := replies[j].fileId))
  {
    if i < |keys| {
      var key := keys[i];
      assert keys[i..] == [key] + keys[i + 1..];
      if !Pending(files, key) {
        UploadFromSpec(files, keys, replies, i + 1);
      } else if replies[i].Stored? {
        var next := files[key := files[key].(fileId := replies[i].fileId)];
        assert forall j :: i < j < |keys| ==> keys[j] != key && (Pending(next, keys[j]) <==> Pending(files, keys[j]));
        UploadFromSpec(next, keys, replies, i + 1);
      }
    }
  }

  /** Each pending key reached before the first failed upload, that one
      excluded, keeps its file and takes the returned id even when a later
      upload fails (`setUploadedFiles` runs before the throw); the failing
      key and every pending key after it are left as they were. */
  lemma {:induction false} UploadFromKeepsStoredPrefix(files: map<string, Upload>, keys: seq<string>,
                                                       replies: seq<UploadReply>, i: nat)
    requires |replies| == |keys| && i <= |keys| && Distinct(keys)
    decreases |keys| - i
    ensures var files' := UploadFrom(files, keys, replies, i).0;
      forall j :: i <= j < |keys| && Pending(files, keys[j]) ==>
        && keys[j] in files'
        && files'[keys[j]] == if AllStored(files, keys, replies, i, j + 1)
                              then files[keys[j]].(fileId := replies[j].fileId) else files[keys[j]]
  {
    if i < |keys| {
      var key := keys[i];
      if !Pending(files, key) {
        UploadFromKeepsStoredPrefix(files, keys, replies, i + 1);
      } else if replies[i].Stored? {
        var next := files[key := files[key].(fileId := replies[i].fileId)];
        assert forall j :: i < j < |keys| ==> keys[j] != key && (Pending(next, keys[j]) <==> Pending(files, keys[j]));
        UploadFromKeepsStoredPrefix(next, keys, replies, i + 1);
        UploadFromSpec(next, keys, replies, i + 1);
        assert key !in keys[i + 1..];
      }
    }
  }

  // ---------------------------------------------------------------------
  // Final submission
  // ---------------------------------------------------------------------

  /** `finalFormData`: the form with the computed backlog count, the
      completion flag and a time stamp, overriding the form's own values. */
  function FinalPayload(form: Doc, now: string): (d: Doc)
    ensures d.Keys == form.Keys + {"active_backlog", "isCompleted", "updatedAt"}
    ensures d["active_backlog"] == Num(CalculateActiveBacklogs(form) as real)
    ensures d["isCompleted"] == Bool(true) && d["updatedAt"] == Str(now)
    ensures forall k :: k in form && k !in {"active_backlog", "isCompleted", "updatedAt"} ==> d[k] == form[k]
  {
    Merge(form, map["active_backlog" := Num(CalculateActiveBacklogs(form) as real),
                    "isCompleted" := Bool(true), "updatedAt" := Str(now)])
  }

  /** The part of `OnboardingSchema.parse` the model keeps: `name` a string
      of at least two characters, `email` a string that zod's e-mail check
      (`emailAccepted`) admits, and `gender`, when present, one of the three
      enum values (the page's select can also store ""). */
  predicate SchemaAccepts(payload: Doc, emailAccepted: bool)
  {
    && "name" in payload && payload["name"].Str? && |payload["name"].s| >= 2
    && "email" in payload && payload["email"].Str? && emailAccepted
    && ("gender" in payload ==> payload["gender"] in {Str("MALE"), Str("FEMALE"), Str("OTHER")})
  }

  /** The page's error banner: a message, or the validation error zod
      throws. */
  datatype FormError = Message(text: string) | SchemaRejected

  /** The answer to the final request: the HTTP outcome with the body's
      `error`, or a thrown fetch with its message. */
  datatype SubmitReply = Answered(ok: bool, error: Option<string>) | NetworkFailure(message: string)

  /** The page state touched by the handlers. */
  datatype Snapshot = Snapshot(
    step: int,
    form: Doc,
    errors: map<string, string>,
    files: map<string, Upload>,
    error: Option<FormError>,
    loading: bool,
    submitted: Option<Doc>,     // the validated data sent to `/api/onboarding`
    navigated: bool)            // `router.push("/home/student")`

  /** `handleFinalSubmit` as one transition; `uid` is the `uid` search
      parameter. `loading` is set while the uploads and the request run and
      cleared at the end, whatever happened. */
  function Submit(s: Snapshot, uid: Option<string>, replies: seq<UploadReply>, now: string, emailAccepted: bool,
                  reply: SubmitReply): (r: Snapshot)
    requires |replies| == |AcademicKeys|
  {
    if !(uid.Some? && uid.value != "") then s.(error := Some(Message("User ID is missing")))
    else
      var (files, uploaded) := UploadFrom(s.files, AcademicKeys, replies, 0);
      AfterUploads(s.(files := files, error := None, loading := true), uploaded, now, emailAccepted, reply)
        .(loading := false)
  }

  /** The part of `handleFinalSubmit` after the uploads: a failed upload
      stops with a message, otherwise the payload is validated and sent. */
  function AfterUploads(s: Snapshot, uploaded: bool, now: string, emailAccepted: bool, reply: SubmitReply): Snapshot
  {
    if !uploaded then s.(error := Some(Message("Academic files upload failed. Please try again.")))
    else Send(s, now, emailAccepted, reply)
  }

  /** The rest of `handleFinalSubmit` once the uploads succeeded: schema
      validation, then the request. */
  function Send(s: Snapshot, now: string, emailAccepted: bool, reply: SubmitReply): (r: Snapshot)
  {
    var payload := FinalPayload(s.form, now);
    if !SchemaAccepts(payload, emailAccepted) then s.(error := Some(SchemaRejected))
    else Respond(s.(submitted := Some(payload)), reply)
  }

  /** The reaction to the answer of the request. */
  function Respond(s: Snapshot, reply: SubmitReply): (r: Snapshot)
  {
    match reply
    case NetworkFailure(m) => s.(error := Some(Message(if m != "" then m else "Something went wrong")))
    case Answered(ok, e) =>
      if ok then s.(navigated := true)
      else s.(error := Some(Message(if e.Some? && e.value != "" then e.value else "Failed to update profile")))
  }

  /** Without a user id the handler only shows "User ID is missing": no
      upload, no request, and `loading` is never set. */
  lemma MissingUidSendsNothing(s: Snapshot, uid: Option<string>, replies: seq<UploadReply>, now: string,
                               emailAccepted: bool, reply: SubmitReply)
    requires |replies| == |AcademicKeys|
    requires uid.None? || uid == Some("")
    ensures Submit(s, uid, replies, now, emailAccepted, reply) == s.(error := Some(Message("User ID is missing")))
  {
  }

  /** A request is sent only after every pending upload succeeded and the
      schema accepted the payload, and what is sent carries the form's
      backlog count and `isCompleted: true`. */
  lemma {:induction false} SubmitSendsOnlyValidatedPayload(s: Snapshot, uid: Option<string>,
                                                           replies: seq<UploadReply>, now: string,
                                                           emailAccepted: bool, reply: SubmitReply)
    requires |replies| == |AcademicKeys|
    requires Submit(s, uid, replies, now, emailAccepted, reply).submitted != s.submitted
    ensures uid.Some? && uid.value != ""
    ensures forall j :: 0 <= j < |AcademicKeys| && Pending(s.files, AcademicKeys[j]) ==> replies[j].Stored?
    ensures var sent := Submit(s, uid, replies, now, emailAccepted, reply).submitted;
      && sent == Some(FinalPayload(s.form, now))
      && sent.value["active_backlog"] == Num(CalculateActiveBacklogs(s.form) as real)
      && sent.value["isCompleted"] == Bool(true)
      && SchemaAccepts(sent.value, emailAccepted)
  {
    AcademicKeysDistinct();
    UploadFromSpec(s.files, AcademicKeys, replies, 0);
    var (files, uploaded) := UploadFrom(s.files, AcademicKeys, replies, 0);
    var s1 := s.(files := files, error := None, loading := true);
    if uploaded {
      SendSubmitsValidated(s1, now, emailAccepted, reply);
    }
  }

  /** The converse: with a user id, every pending upload stored and the
      schema accepting the final payload, that payload is sent, and an ok
      answer moves the page on. */
  lemma SubmitSendsWhenValidated(s: Snapshot, uid: Option<string>, replies: seq<UploadReply>, now: string,
                                 emailAccepted: bool, reply: SubmitReply)
    requires |replies| == |AcademicKeys|
    requires uid.Some? && uid.value != ""
    requires forall j :: 0 <= j < |AcademicKeys| && Pending(s.files, AcademicKeys[j]) ==> replies[j].Stored?
    requires SchemaAccepts(FinalPayload(s.form, now), emailAccepted)
    ensures var r := Submit(s, uid, replies, now, emailAccepted, reply);
      && r.submitted == Some(FinalPayload(s.form, now))
      && (reply.Answered? && reply.ok ==> r.navigated)
  {
    AcademicKeysDistinct();
    UploadFromSpec(s.files, AcademicKeys, replies, 0);
    var (files, uploaded) := UploadFrom(s.files, AcademicKeys, replies, 0);
    var s1 := s.(files := files, error := None, loading := true);
    RespondKeepsRequest(s1.(submitted := Some(FinalPayload(s.form, now))), reply);
  }

  /** Both directions at once: starting on a page that has not moved on,
      the final submit moves it on exactly when there is a user id, every
      pending upload is stored, the schema accepts the payload and the
      answer is ok. */
  lemma NavigatesIffEverythingSucceeds(s: Snapshot, uid: Option<string>, replies: seq<UploadReply>, now: string,
                                       emailAccepted: bool, reply: SubmitReply)
    requires |replies| == |AcademicKeys|
    requires !s.navigated
    ensures Submit(s, uid, replies, now, emailAccepted, reply).navigated <==>
      && uid.Some? && uid.value != ""
      && (forall j :: 0 <= j < |AcademicKeys| && Pending(s.files, AcademicKeys[j]) ==> replies[j].Stored?)
      && SchemaAccepts(FinalPayload(s.form, now), emailAccepted)
      && reply.Answered? && reply.ok
  {
    if uid.Some? && uid.value != "" {
      AcademicKeysDistinct();
      UploadFromSpec(s.files, AcademicKeys, replies, 0);
      var (files, uploaded) := UploadFrom(s.files, AcademicKeys, replies, 0);
      AfterUploadsNavigatesIff(s.(files := files, error := None, loading := true), uploaded, now, emailAccepted, reply);
    }
  }

  /** The gender select's empty option stores "", which the schema's enum
      refuses: the page then shows the validation error and stays. */
  lemma EmptyGenderStopsSubmit(s: Snapshot, uid: Option<string>, replies: seq<UploadReply>, now: string,
                               emailAccepted: bool, reply: SubmitReply)
    requires |replies| == |AcademicKeys|
    requires !s.navigated
    requires "gender" in s.form && s.form["gender"] == Str("")
    ensures !Submit(s, uid, replies, now, emailAccepted, reply).navigated
  {
    NavigatesIffEverythingSucceeds(s, uid, replies, now, emailAccepted, reply);
    assert FinalPayload(s.form, now)["gender"] == Str("");
  }

  lemma AfterUploadsNavigatesIff(s: Snapshot, uploaded: bool, now: string, emailAccepted: bool, reply: SubmitReply)
    requires !s.navigated
    ensures AfterUploads(s, uploaded, now, emailAccepted, reply).navigated <==>
      uploaded && SchemaAccepts(FinalPayload(s.form, now), emailAccepted) && reply.Answered? && reply.ok
  {
  }

  /** Only the request changes `submitted`, and it sends the accepted final
      payload. */
  lemma SendSubmitsValidated(s: Snapshot, now: string, emailAccepted: bool, reply: SubmitReply)
    ensures var r := Send(s, now, emailAccepted, reply);
      r.submitted != s.submitted ==>
        r.submitted == Some(FinalPayload(s.form, now)) && SchemaAccepts(FinalPayload(s.form, now), emailAccepted)
  {
    var payload := FinalPayload(s.form, now);
    if SchemaAccepts(payload, emailAccepted) {
      RespondKeepsRequest(s.(submitted := Some(payload)), reply);
    }
  }

  /** The reaction to the answer leaves the request, the step and the form
      alone. */
  lemma RespondKeepsRequest(s: Snapshot, reply: SubmitReply)
    ensures var r := Respond(s, reply);
      r.submitted == s.submitted && r.step == s.step && r.form == s.form
  {
  }

  /** The page moves on only after sending the request and receiving an ok
      answer; the step and the form are never touched; and every error
      banner has a non-empty text. */
  lemma SubmitNavigatesOnlyOnSuccess(s: Snapshot, uid: Option<string>, replies: seq<UploadReply>, now: string,
                                     emailAccepted: bool, reply: SubmitReply)
    requires |replies| == |AcademicKeys|
    ensures var r := Submit(s, uid, replies, now, emailAccepted, reply);
      && (r.navigated != s.navigated ==> r.submitted == Some(FinalPayload(s.form, now)) && reply.Answered? && reply.ok)
      && (r.error.Some? && r.error.value.Message? ==> r.error.value.text != "")
      && r.step == s.step && r.form == s.form
  {
    if uid.Some? && uid.value != "" {
      var (files, uploaded) := UploadFrom(s.files, AcademicKeys, replies, 0);
      AfterUploadsNavigatesOnlyOnSuccess(s.(files := files, error := None, loading := true), uploaded, now,
                                         emailAccepted, reply);
    }
  }

  lemma AfterUploadsNavigatesOnlyOnSuccess(s: Snapshot, uploaded: bool, now: string, emailAccepted: bool,
                                           reply: SubmitReply)
    requires s.error == None
    ensures var r := AfterUploads(s, uploaded, now, emailAccepted, reply);
      && (r.navigated != s.navigated ==> r.submitted == Some(FinalPayload(s.form, now)) && reply.Answered? && reply.ok)
      && (r.error.Some? && r.error.value.Message? ==> r.error.value.text != "")
      && r.step == s.step && r.form == s.form
  {
    if uploaded {
      SendNavigatesOnlyOnSuccess(s, now, emailAccepted, reply);
    }
  }

  lemma SendNavigatesOnlyOnSuccess(s: Snapshot, now: string, emailAccepted: bool, reply: SubmitReply)
    requires s.error == None
    ensures var r := Send(s, now, emailAccepted, reply);
      && (r.navigated != s.navigated ==> r.submitted == Some(FinalPayload(s.form, now)) && reply.Answered? && reply.ok)
      && (r.error.Some? && r.error.value.Message? ==> r.error.value.text != "")
      && r.step == s.step && r.form == s.form
  {
    var payload := FinalPayload(s.form, now);
    if SchemaAccepts(payload, emailAccepted) {
      RespondKeepsRequest(s.(submitted := Some(payload)), reply);
      RespondNavigatesOnlyOnOk(s.(submitted := Some(payload)), reply);
    }
  }

  /** Only an ok answer moves the page on; any other answer leaves a
      non-empty message. */
  lemma RespondNavigatesOnlyOnOk(s: Snapshot, reply: SubmitReply)
    requires s.error == None
    ensures var r := Respond(s, reply);
      && (r.navigated != s.navigated ==> reply.Answered? && reply.ok)
      && (r.error.Some? ==> r.error.value.Message? && r.error.value.text != "")
  {
  }

  // ---------------------------------------------------------------------
  // The page
  // ---------------------------------------------------------------------

  /** `handleInputChange`'s effect on `errors`: a recorded message for the
      field is blanked. */
  function ClearError(errors: map<string, string>, field: string): (e: map<string, string>)
    ensures e.Keys == errors.Keys
    ensures field in errors && errors[field] != "" ==> e[field] == ""
    ensures forall k :: k in errors && (k != field || errors[k] == "") ==> e[k] == errors[k]
  {
    if field in errors && errors[field] != "" then errors[field := ""] else errors
  }

  class Wizard {
    var step: int
    var form: Doc
    var errors: map<string, string>
    var files: map<string, Upload>
    var error: Option<FormError>
    var loading: bool
    var submitted: Option<Doc>
    var navigated: bool
    const uid: Option<string>

    ghost predicate Valid()
      reads this
    {
      1 <= step <= TotalSteps
    }

    function State(): Snapshot
      reads this
    {
      Snapshot(step, form, errors, files, error, loading, submitted, navigated)
    }

    constructor (uid: Option<string>)
      ensures Valid() && this.uid == uid
      ensures State() == Snapshot(1, InitialForm, map[], map[], None, false, None, false)
    {
      this.uid := uid;
      step, form, errors, files := 1, InitialForm, map[], map[];
      error, loading, submitted, navigated := None, false, None, false;
    }

    method HandleInputChange(field: string, value: Option<Value>)
      requires Valid()
      modifies this`form, this`errors
      ensures Valid()
      ensures form == SetField(old(form), field, value)
      ensures errors == ClearError(old(errors), field)
    {
      form := SetField(form, field, value);
      if field in errors && errors[field] != "" {
        errors := errors[field := ""];
      }
    }

    method ValidateCurrentStep() returns (ok: bool)
      requires Valid()
      modifies this`errors
      ensures errors == StepErrors(step, form)
      ensures ok <==> StepValid(step, form)
    {
      var newErrors: map<string, string> := map[];
      if step == 1 {
        newErrors := PersonalInfoErrors(TextField(form, "name"), TextField(form, "email"));
      } else if step == 3 {
        if !Present(form, "resume_file_id") {
          newErrors := map["resume_file_id" := "Resume is required"];
        }
      }
      errors := newErrors;
      StepErrorsEmptyIffValid(step, form);
      ok := |errors.Keys| == 0;
      assert ok <==> errors == map[];
    }

    /** The checks of step 1. */
    static method PersonalInfoErrors(name: string, email: string) returns (newErrors: map<string, string>)
      ensures newErrors == Entry("name", NameError(name)) + Entry("email", EmailError(email))
    {
      var nameErrors := NameErrors(name);
      var emailErrors := EmailErrors(email);
      newErrors := nameErrors + emailErrors;
    }

    static method NameErrors(name: string) returns (nameErrors: map<string, string>)
      ensures nameErrors == Entry("name", NameError(name))
    {
      TrimEmptyIffBlank(name);
      nameErrors := map[];
      if Trim(name) == "" {
        nameErrors := map["name" := "Name is required"];
      }
    }

    static method EmailErrors(email: string) returns (emailErrors: map<string, string>)
      ensures emailErrors == Entry("email", EmailError(email))
    {
      TrimEmptyIffBlank(email);
      EmailPatternIffShape(email);
      emailErrors := map[];
      if Trim(email) == "" {
        emailErrors := map["email" := "Email is required"];
      } else if !EmailPattern(email) {
        emailErrors := map["email" := "Invalid email format"];
      }
    }

    method NextStep()
      requires Valid()
      modifies this`errors, this`step
      ensures Valid()
      ensures errors == StepErrors(old(step), form)
      ensures step == NextStepOf(old(step), form)
    {
      var ok := ValidateCurrentStep();
      if ok && step < TotalSteps {
        step := step + 1;
      }
    }

    method PrevStep()
      requires Valid()
      modifies this`step
      ensures Valid()
      ensures step == PrevStepOf(old(step))
    {
      if step > 1 {
        step := step - 1;
      }
    }

    method UploadAllAcademicFiles(replies: seq<UploadReply>) returns (ok: bool)
      requires |replies| == |AcademicKeys|
      modifies this`files
      ensures (files, ok) == UploadFrom(old(files), AcademicKeys, replies, 0)
    {
      var i := 0;
      while i < |AcademicKeys|
        invariant 0 <= i <= |AcademicKeys|
        invariant UploadFrom(files, AcademicKeys, replies, i) == UploadFrom(old(files), AcademicKeys, replies, 0)
      {
        var key := AcademicKeys[i];
        if Pending(files, key) {
          if replies[i].UploadFailed? {
            return false;
          }
          files := files[key := files[key].(fileId := replies[i].fileId)];
        }
        i := i + 1;
      }
      return true;
    }

    method HandleFinalSubmit(replies: seq<UploadReply>, now: string, emailAccepted: bool, reply: SubmitReply)
      requires Valid() && |replies| == |AcademicKeys|
      modifies this`files, this`error, this`loading, this`submitted, this`navigated
      ensures Valid()
      ensures State() == Submit(old(State()), uid, replies, now, emailAccepted, reply)
    {
      if !(uid.Some? && uid.value != "") {
        error := Some(Message("User ID is missing"));
        return;
      }
      loading := true;
      error := None;

      var uploaded := UploadAllAcademicFiles(replies);
      ghost var uploadedState := State();
      assert uploadedState == old(State()).(files := files, error := None, loading := true);
      if !uploaded {
        error := Some(Message("Academic files upload failed. Please try again."));
      } else {
        SendFinalData(now, emailAccepted, reply);
      }
      ghost var s2 := State();
      assert s2 == AfterUploads(uploadedState, uploaded, now, emailAccepted, reply);
      loading := false;
      assert State() == s2.(loading := false);
    }

    /** The request part of `handleFinalSubmit`, after the uploads. */
    method SendFinalData(now: string, emailAccepted: bool, reply: SubmitReply)
      requires Valid()
      modifies this`error, this`submitted, this`navigated
      ensures Valid()
      ensures State() == Send(old(State()), now, emailAccepted, reply)
    {
      var finalFormData := FinalPayload(form, now);
      if !SchemaAccepts(finalFormData, emailAccepted) {
        error := Some(SchemaRejected);
        return;
      }
      submitted := Some(finalFormData);
      HandleReply(reply);
    }

    /** The end of the `try` block and its `catch`: navigate on an ok answer,
        otherwise show the error. */
    method HandleReply(reply: SubmitReply)
      requires Valid()
      modifies this`error, this`navigated
      ensures Valid()
      ensures State() == Respond(old(State()), reply)
    {
      match reply
      case NetworkFailure(m) =>
        error := Some(Message(if m != "" then m else "Something went wrong"));
      case Answered(ok, e) =>
        if ok {
          navigated := true;
        } else {
          error := Some(Message(if e.Some? && e.value != "" then e.value else "Failed to update profile"));
        }
    }
  }
}

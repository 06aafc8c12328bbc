/** The student dashboard (`home/student/page.tsx`): fetching the post
    list, the invite handlers, which of the three sections is on screen,
    and the post-type labels. */
module StudentDashboard {

  import opened Wrappers
  import opened Js
  import opened Membership

  const FetchFailed := "Failed to fetch posts"

  /** How `fetch("/api/post")` ends: a response that is not ok, a parsed body
      whose `documents` field is a list of posts or is missing or falsy
      (None), or a thrown value carrying an `Error` message (None when what
      was thrown is not an `Error`). */
  datatype FetchReply =
    | NotOk
    | Documents(docs: Option<seq<Doc>>)
    | Threw(message: Option<string>)

  /** The message the catch block shows. */
  function ErrorText(reply: FetchReply): (m: string)
  {
    match reply
    case Threw(Some(message)) => message
    case _ => FetchFailed
  }

  /** `posts` and `error` after `fetchPosts`. */
  function Fetch(reply: FetchReply): (r: (seq<Doc>, Option<string>))
    ensures r.1.None? <==> reply.Documents?
    ensures reply.Documents? && reply.docs.Some? ==> r.0 == reply.docs.value
    ensures !(reply.Documents? && reply.docs.Some?) ==> r.0 == []
    ensures reply.NotOk? ==> r.1 == Some(FetchFailed)
  {
    match reply
    case Documents(docs) => (if docs.Some? then docs.value else [], None)
    case _ => ([], Some(ErrorText(reply)))
  }

  /** `error && (...)`: the error box with its Retry button. */
  predicate ErrorBoxShown(error: Option<string>)
  {
    error.Some? && error.value != ""
  }

  /** `posts.length === 0 && !error`: the "No Posts Available" card. */
  predicate NoPostsShown(posts: seq<Doc>, error: Option<string>)
  {
    |posts| == 0 && !ErrorBoxShown(error)
  }

  /** After a fetch the "No Posts Available" card is on screen exactly when
      the server answered without posts, or the failure carried an empty
      message; a failure never leaves posts on screen beside its error box. */
  lemma FetchOutcomeShown(reply: FetchReply)
    ensures var (posts, error) := Fetch(reply);
      && (NoPostsShown(posts, error) <==>
            (reply.Documents? && (reply.docs.None? || reply.docs.value == []))
            || reply == Threw(Some("")))
      && (ErrorBoxShown(error) ==> posts == [])
  {
  }

  /** Scenario 1: the invite card. */
  predicate InviteCardShown(st: Option<OrgStatus>)
  {
    st.Some? && st.value.hasActiveInvite && st.value.activeInvite.Some?
  }

  /** Scenario 2: the posts section. */
  predicate PostsSectionShown(st: Option<OrgStatus>)
  {
    st.Some? && st.value.isPartOfOrg && !st.value.hasActiveInvite
  }

  /** Scenario 3: "No Organization Access"; a status that has not loaded
      (null) reads as neither a member nor invited. */
  predicate NoOrganizationShown(st: Option<OrgStatus>)
  {
    !(st.Some? && st.value.isPartOfOrg) && !(st.Some? && st.value.hasActiveInvite)
  }

  /** The three sections exclude each other, and when the invite flag is
      backed by an invite exactly one of them is on screen. */
  lemma SectionsExclusive(st: Option<OrgStatus>)
    ensures !(PostsSectionShown(st) && NoOrganizationShown(st))
    ensures !(InviteCardShown(st) && PostsSectionShown(st))
    ensures !(InviteCardShown(st) && NoOrganizationShown(st))
    ensures Coherent(st) ==> InviteCardShown(st) || PostsSectionShown(st) || NoOrganizationShown(st)
  {
  }

  /** Accepting an invite shown on screen replaces the invite card with the
      posts section; declining always lands on the empty state. */
  lemma InviteHandlersSwitchSection(st: Option<OrgStatus>, today: string)
    ensures InviteCardShown(st) ==> PostsSectionShown(Accept(st, today))
    ensures NoOrganizationShown(Decline(st)) && !InviteCardShown(Decline(st))
  {
  }

  /** The post types the page knows, in the order the label chain tests them. */
  const KnownTypes: seq<string> := ["OPPORTUNITY", "ANNOUNCEMENT", "UPDATE", "DEADLINE", "INTERNSHIP", "JOB"]

  /** The label shown for `post.type`; `===` matches only a string. */
  function TypeLabel(t: Option<Value>): (l: string)
    ensures l == "Post" <==> !(t.Some? && t.value.Str? && t.value.s in KnownTypes)
  {
    if t == Some(Str("OPPORTUNITY")) then "Job Opportunity"
    else if t == Some(Str("ANNOUNCEMENT")) then "Announcement"
    else if t == Some(Str("UPDATE")) then "Update"
    else if t == Some(Str("DEADLINE")) then "Deadline"
    else if t == Some(Str("INTERNSHIP")) then "Internship"
    else if t == Some(Str("JOB")) then "Full-time Job"
    else "Post"
  }

  /** Different known types never share a label. */
  lemma LabelsDistinct(i: nat, j: nat)
    requires i < j < |KnownTypes|
    ensures TypeLabel(Some(Str(KnownTypes[i]))) != TypeLabel(Some(Str(KnownTypes[j])))
  {
  }

  /** The badge classes of one palette colour, as `getPostTypeColor` spells
      them out: `bg-<c>-500/20 text-<c>-400 border-<c>-500/30`. */
  function Badge(colour: string): (b: string)
    ensures |b| == 3 * |colour| + 35
    ensures colour != [] ==> b[3] == colour[0]
  {
    "bg-" + colour + "-500/20 text-" + colour + "-400 border-" + colour + "-500/30"
  }

  const DefaultColor := Badge("gray")

  /** The colours of the known types all differ from the default's gray. */
  lemma KnownColorsAreNotDefault()
    ensures Badge("green") != DefaultColor && Badge("blue") != DefaultColor
    ensures Badge("red") != DefaultColor && Badge("purple") != DefaultColor
    ensures Badge("orange") != DefaultColor && Badge("indigo") != DefaultColor
  {
    assert Badge("blue")[3] == 'b' && DefaultColor[3] == 'g';
  }

  /** `getPostTypeColor`: the badge classes for a post type. */
  function TypeColor(t: Option<Value>): (c: string)
    ensures c == DefaultColor <==> !(t.Some? && t.value.Str? && t.value.s in KnownTypes)
  {
    KnownColorsAreNotDefault();
    if t == Some(Str("OPPORTUNITY")) then Badge("green")
    else if t == Some(Str("ANNOUNCEMENT")) then Badge("blue")
    else if t == Some(Str("DEADLINE")) then Badge("red")
    else if t == Some(Str("UPDATE")) then Badge("purple")
    else if t == Some(Str("INTERNSHIP")) then Badge("orange")
    else if t == Some(Str("JOB")) then Badge("indigo")
    else DefaultColor
  }

  class Dashboard {
    var orgStatus: Option<OrgStatus>
    var posts: seq<Doc>
    var isProcessingInvite: bool
    var error: Option<string>

    constructor ()
      ensures orgStatus == None && posts == [] && !isProcessingInvite && error == None
    {
      orgStatus, posts, isProcessingInvite, error := None, [], false, None;
    }

    method FetchPosts(reply: FetchReply)
      modifies this`posts, this`error
      ensures (posts, error) == Fetch(reply)
    {
      error := None;
      if reply.NotOk? {
        error, posts := Some(FetchFailed), [];
      } else if reply.Threw? {
        error, posts := Some(if reply.message.Some? then reply.message.value else FetchFailed), [];
      } else {
        posts := if reply.docs.Some? then reply.docs.value else [];
      }
    }

    method HandleAcceptInvite(today: string)
      modifies this`orgStatus, this`isProcessingInvite
      ensures orgStatus == Accept(old(orgStatus), today)
      ensures isProcessingInvite == (if HasInvite(old(orgStatus)) then false else old(isProcessingInvite))
    {
      if !(orgStatus.Some? && orgStatus.value.activeInvite.Some?) {
        return;
      }
      isProcessingInvite := true;
      var organization := orgStatus.value.activeInvite.value.organization.(memberSince := today);
      orgStatus := Some(OrgStatus(true, Some(organization), false, None));
      isProcessingInvite := false;
    }

    method HandleDeclineInvite()
      modifies this`orgStatus, this`isProcessingInvite
      ensures orgStatus == Decline(old(orgStatus))
      ensures !isProcessingInvite
    {
      isProcessingInvite := true;
      orgStatus := Some(OrgStatus(false, None, false, None));
      isProcessingInvite := false;
    }
  }
}

/** The admin dashboard (`home/page.tsx`): post creation and the invite
    handlers. */
module AdminDashboard {

  import opened Wrappers
  import opened Js
  import opened Membership

  datatype PostType = Announcement | Opportunity | Update | Deadline

  datatype Post = Post(
    id: string, title: string, content: string, authorName: string, authorRole: string,
    timestamp: string, kind: PostType)

  /** `createPostForm`. */
  datatype PostForm = PostForm(title: string, content: string, kind: PostType)

  const EmptyForm := PostForm("", "", Announcement)
  const MissingFieldsAlert := "Please fill in required fields"

  /** The form passes the check of `handleCreatePost`: neither title nor
      content is only white space. */
  predicate Fillable(form: PostForm)
  {
    !Blank(form.title) && !Blank(form.content)
  }

  /** The check of `handleCreatePost`: title or content empty once trimmed. */
  method CheckMissingFields(form: PostForm) returns (missing: bool)
    ensures missing <==> !Fillable(form)
  {
    TrimEmptyIffBlank(form.title);
    TrimEmptyIffBlank(form.content);
    missing := Trim(form.title) == "" || Trim(form.content) == "";
  }

  /** `userStats?.name || "Admin"`. */
  function AuthorName(userName: Option<string>): (n: string)
    ensures n != ""
    ensures userName.Some? && userName.value != "" ==> n == userName.value
  {
    if userName.Some? && userName.value != "" then userName.value else "Admin"
  }

  /** The post `handleCreatePost` builds from the form. */
  function NewPost(form: PostForm, userName: Option<string>, nowMillis: nat): Post
  {
    Post("post-" + DecimalString(nowMillis), form.title, form.content, AuthorName(userName), "Admin",
         "Just now", form.kind)
  }

  /** The post list after `handleCreatePost` on a form; `nowMillis` is
      `Date.now()`. */
  function AddPost(posts: seq<Post>, form: PostForm, userName: Option<string>, nowMillis: nat): (r: seq<Post>)
    ensures !Fillable(form) ==> r == posts
    ensures Fillable(form) ==>
      && |r| == |posts| + 1 && r[1..] == posts
      && r[0].id == "post-" + DecimalString(nowMillis)
      && r[0].title == form.title && r[0].content == form.content && r[0].kind == form.kind
      && r[0].authorName == AuthorName(userName) && r[0].authorRole == "Admin"
      && r[0].timestamp == "Just now"
  {
    if !Fillable(form) then posts
    else [NewPost(form, userName, nowMillis)] + posts
  }

  /** Posts created at different times get different ids. */
  lemma {:induction false} PostIdsDistinct(t1: nat, t2: nat)
    requires t1 != t2
    ensures "post-" + DecimalString(t1) != "post-" + DecimalString(t2)
  {
    DecimalRoundTrip(t1);
    DecimalRoundTrip(t2);
    var p1, p2 := "post-" + DecimalString(t1), "post-" + DecimalString(t2);
    assert p1[5..] == DecimalString(t1);
    assert p2[5..] == DecimalString(t2);
  }

  /** Posts created one after another appear newest first, each earlier list
      kept whole behind the new post. */
  lemma {:induction false} NewestFirst(posts: seq<Post>, f1: PostForm, f2: PostForm, userName: Option<string>,
                                       t1: nat, t2: nat)
    requires Fillable(f1) && Fillable(f2)
    ensures var r := AddPost(AddPost(posts, f1, userName, t1), f2, userName, t2);
      |r| == |posts| + 2 && r[0].title == f2.title && r[1].title == f1.title && r[2..] == posts
  {
    var r1 := AddPost(posts, f1, userName, t1);
    var r := AddPost(r1, f2, userName, t2);
    assert r[2..] == r1[1..];
  }

  class Dashboard {
    var userName: Option<string>
    var orgStatus: Option<OrgStatus>
    var posts: seq<Post>
    var isProcessingInvite: bool
    var showCreatePost: bool
    var form: PostForm
    var alerts: seq<string>    // messages shown with `alert`

    constructor ()
      ensures userName == None && orgStatus == None && posts == []
      ensures !isProcessingInvite && !showCreatePost && form == EmptyForm && alerts == []
    {
      userName, orgStatus, posts := None, None, [];
      isProcessingInvite, showCreatePost, form, alerts := false, false, EmptyForm, [];
    }

    method HandleCreatePost(nowMillis: nat)
      modifies this`posts, this`form, this`showCreatePost, this`alerts
      ensures posts == AddPost(old(posts), old(form), userName, nowMillis)
      ensures !Fillable(old(form)) ==>
        form == old(form) && showCreatePost == old(showCreatePost) && alerts == old(alerts) + [MissingFieldsAlert]
      ensures Fillable(old(form)) ==> form == EmptyForm && !showCreatePost && alerts == old(alerts)
    {
      var f := form;
      var missing := CheckMissingFields(f);
      if missing {
        alerts := alerts + [MissingFieldsAlert];
        return;
      }
      var newPost := NewPost(f, userName, nowMillis);
      posts := [newPost] + posts;
      form := EmptyForm;
      showCreatePost := false;
    }

    method HandleAcceptInvite(today: string)
      modifies this`orgStatus, this`isProcessingInvite
      ensures orgStatus == Accept(old(orgStatus), today)
      ensures isProcessingInvite == (if HasInvite(old(orgStatus)) then false else old(isProcessingInvite))
    {
      if !(orgStatus.Some? && orgStatus.value.activeInvite.Some?) {
        return;
      }
      isProcessingInvite := true;
      var organization := orgStatus.value.activeInvite.value.organization.(memberSince := today);
      orgStatus := Some(OrgStatus(true, Some(organization), false, None));
      isProcessingInvite := false;
    }

    method HandleDeclineInvite()
      modifies this`orgStatus, this`isProcessingInvite
      ensures orgStatus == Decline(old(orgStatus))
      ensures !isProcessingInvite
    {
      isProcessingInvite := true;
      orgStatus := Some(OrgStatus(false, None, false, None));
      isProcessingInvite := false;
    }
  }
}

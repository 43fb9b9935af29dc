/** The notifications page (src/app/notifications/page.tsx): the fetched list split into
    follow requests and everything else, accept/decline removing a request, the request
    badge, the message each notification type shows, and the two tabs' empty states. */
module NotificationsPage {
  import opened Common
  import Seqs

  datatype NotificationType = Follow | Like | CommentNotice | Mention | Tag | FollowRequest

  datatype PostThumb = PostThumb(id: string, image: string)

  datatype Notification = Notification(
    id: string,
    kind: NotificationType,
    user: UserRef,
    createdAt: int,
    read: bool,
    post: Option<PostThumb>,
    comment: Option<string>)

  predicate IsFollowRequest(n: Notification)
  {
    n.kind == FollowRequest
  }

  predicate IsOther(n: Notification)
  {
    n.kind != FollowRequest
  }

  /** `followRequests`. */
  function FollowRequests(ns: seq<Notification>): (r: seq<Notification>)
    ensures forall n :: n in r <==> n in ns && n.kind == FollowRequest
  {
    Seqs.Filter(ns, IsFollowRequest)
  }

  /** `otherNotifications`. */
  function OtherNotifications(ns: seq<Notification>): (r: seq<Notification>)
    ensures forall n :: n in r <==> n in ns && n.kind != FollowRequest
  {
    Seqs.Filter(ns, IsOther)
  }

  /** The two tabs partition the list: together they hold every notification exactly as
      often as the list does, and each keeps the list's order (splitting a concatenation
      splits each tab the same way). */
  lemma TabsPartition(ns: seq<Notification>, more: seq<Notification>)
    ensures |FollowRequests(ns)| + |OtherNotifications(ns)| == |ns|
    ensures multiset(FollowRequests(ns)) + multiset(OtherNotifications(ns)) == multiset(ns)
    ensures FollowRequests(ns + more) == FollowRequests(ns) + FollowRequests(more)
    ensures OtherNotifications(ns + more) == OtherNotifications(ns) + OtherNotifications(more)
  {
    Seqs.FilterPartition(ns, IsFollowRequest, IsOther);
    Seqs.FilterAppend(ns, more, IsFollowRequest);
    Seqs.FilterAppend(ns, more, IsOther);
  }

  datatype Action = Accept | Decline

  /** Keeps the notifications whose id is not `id`. */
  function NotId(id: string): Notification -> bool
  {
    (n: Notification) => n.id != id
  }

  /** `handleFollowRequest(id, action)` once its request settled: on success every entry with
      that id leaves the list; on failure the list is unchanged. Accept and decline update
      the list the same way. */
  function HandleFollowRequest(ns: seq<Notification>, id: string, action: Action, ok: bool): (r: seq<Notification>)
    ensures !ok ==> r == ns
    ensures ok ==> forall n :: n in r <==> n in ns && n.id != id
    ensures ok ==> |r| <= |ns|
  {
    if ok then Seqs.Filter(ns, NotId(id)) else ns
  }

  /** Removing one id leaves every other part of the list as it was, in order: filtering the
      result by any test that already rejects that id gives the same as filtering the
      original. */
  lemma {:induction false} RemovalKeepsTheRest(ns: seq<Notification>, id: string, action: Action, keep: Notification -> bool)
    requires forall n :: keep(n) ==> n.id != id
    ensures Seqs.Filter(HandleFollowRequest(ns, id, action, true), keep) == Seqs.Filter(ns, keep)
  {
    Seqs.FilterFilter(ns, NotId(id), keep, keep);
  }

  /** When no entry has that id, a successful accept or decline changes nothing. */
  lemma RemovalOfAbsentId(ns: seq<Notification>, id: string, action: Action)
    requires forall i :: 0 <= i < |ns| ==> ns[i].id != id
    ensures HandleFollowRequest(ns, id, action, true) == ns
  {
    Seqs.FilterAll(ns, NotId(id));
  }

  /** The count shown on the Follow Requests tab; `None` when no badge is shown. */
  function Badge(ns: seq<Notification>): (b: Option<nat>)
    ensures b.Some? <==> exists n :: n in ns && n.kind == FollowRequest
    ensures b.Some? ==> b.value == |FollowRequests(ns)| && b.value > 0
  {
    var requests := FollowRequests(ns);
    if |requests| > 0 then
      assert requests[0] in requests;
      Some(|requests|)
    else None
  }

  /** The text after the username in the All tab. A follow request matches none of the
      five cases and renders no text; a comment notification without a comment prints the
      template literal's `undefined`. */
  function Message(n: Notification): (text: string)
    ensures n.kind == FollowRequest <==> text == ""
  {
    match n.kind
    case Follow => "started following you"
    case Like => "liked your post"
    case CommentNotice => "commented: " + (match n.comment case Some(c) => c case None => "undefined")
    case Mention => "mentioned you in a comment"
    case Tag => "tagged you in a post"
    case FollowRequest => ""
  }

  /** The type a reader can tell from the text alone: each of the five texts starts with its
      own letter, and a follow request has no text. */
  function KindOfMessage(text: string): Option<NotificationType>
  {
    if |text| == 0 then Some(FollowRequest)
    else if text[0] == 's' then Some(Follow)
    else if text[0] == 'l' then Some(Like)
    else if text[0] == 'c' then Some(CommentNotice)
    else if text[0] == 'm' then Some(Mention)
    else if text[0] == 't' then Some(Tag)
    else None
  }

  /** The message determines the notification's type, so two notifications with the same
      text are of the same type. */
  lemma MessageReadsBack(n: Notification, other: Notification)
    ensures KindOfMessage(Message(n)) == Some(n.kind)
    ensures Message(n) == Message(other) ==> n.kind == other.kind
  {
    assert KindOfMessage(Message(other)) == Some(other.kind);
  }

  datatype Tab = All | Requests

  /** The rows a tab lists. The All tab never lists a follow request, and the Requests tab
      lists only them. */
  function TabRows(ns: seq<Notification>, tab: Tab): (rows: seq<Notification>)
    ensures tab == All ==> forall i :: 0 <= i < |rows| ==> rows[i].kind != FollowRequest && Message(rows[i]) != ""
    ensures tab == Requests ==> forall i :: 0 <= i < |rows| ==> rows[i].kind == FollowRequest
    ensures |rows| <= |ns|
  {
    if tab == All then OtherNotifications(ns) else FollowRequests(ns)
  }

  /** The tab's empty-state text ("No notifications yet" / "No follow requests") is shown
      exactly when it lists nothing. */
  function EmptyText(ns: seq<Notification>, tab: Tab): (text: Option<string>)
    ensures text.Some? <==> |TabRows(ns, tab)| == 0
    ensures text.Some? ==> text.value == (if tab == All then "No notifications yet" else "No follow requests")
  {
    if |TabRows(ns, tab)| == 0 then
      Some(if tab == All then "No notifications yet" else "No follow requests")
    else None
  }

  /** What the page renders. */
  datatype Screen = Nothing | Spinner | Page(tab: Tab, rows: seq<Notification>, badge: Option<nat>, empty: Option<string>)

  function Render(session: Session, loading: bool, ns: seq<Notification>, tab: Tab): (s: Screen)
    ensures session.None? <==> s == Nothing
    ensures session.Some? && loading <==> s == Spinner
    ensures s.Page? <==> session.Some? && !loading
    ensures s.Page? ==> s.tab == tab && s.rows == TabRows(ns, tab) && s.badge == Badge(ns) && s.empty == EmptyText(ns, tab)
  {
    if session.None? then Nothing
    else if loading then Spinner
    else Page(tab, TabRows(ns, tab), Badge(ns), EmptyText(ns, tab))
  }

  /** The page's state: the list, whether the first fetch is pending, and the open tab. */
  datatype State = State(notifications: seq<Notification>, loading: bool, tab: Tab)

  function Mounted(): (s: State)
    ensures s.notifications == [] && s.loading && s.tab == All
  {
    State([], true, All)
  }

  /** The notifications fetch settled: `Some(ns)` carries `data.notifications`, `None` a
      thrown error, which keeps the list. Loading ends either way. */
  function FetchSettled(s: State, body: Option<seq<Notification>>): (r: State)
    ensures !r.loading && r.tab == s.tab
    ensures body.Some? ==> r.notifications == body.value
    ensures body.None? ==> r.notifications == s.notifications
  {
    match body
    case Some(ns) => s.(notifications := ns, loading := false)
    case None => s.(loading := false)
  }

  /** Once the fetch has settled the spinner is gone for good: a failed fetch shows the
      open tab's empty state. */
  lemma SettledShowsTab(user: UserId, body: Option<seq<Notification>>)
    ensures var s := FetchSettled(Mounted(), body);
      Render(Some(user), s.loading, s.notifications, s.tab).Page?
    ensures body.None? ==>
      var s := FetchSettled(Mounted(), body);
      Render(Some(user), s.loading, s.notifications, s.tab) == Page(All, [], None, Some("No notifications yet"))
  {
  }
}

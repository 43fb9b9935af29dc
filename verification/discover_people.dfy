/** The discover-people grid (src/components/DiscoverPeople.tsx): suggestions minus the
    ones dismissed in this session, the follow button's update of one card, and the
    "Followed by …" line under each card. */
module DiscoverPeople {
  import opened Common
  import Seqs
  import Text

  datatype MutualFollower = MutualFollower(username: string, image: Option<string>)

  datatype User = User(
    id: UserId,
    username: string,
    name: Option<string>,
    isFollowing: bool,
    followersCount: int,
    followingCount: int,
    postsCount: int,
    mutualFollowersCount: int,
    mutualFollowers: seq<MutualFollower>)

  /** The component's state: the fetched suggestions and the ids dismissed so far, oldest
      first. */
  datatype Grid = Grid(suggestions: seq<User>, dismissed: seq<UserId>, loading: bool)

  /** At most this many mutual-follower avatars are drawn. */
  const MaxAvatars := 3

  /** Keeps the users whose id has not been dismissed. */
  function NotDismissed(dismissed: seq<UserId>): User -> bool
  {
    (u: User) => u.id !in dismissed
  }

  /** `visibleSuggestions`: the suggestions whose id was not dismissed, in fetched order. */
  function Visible(g: Grid): (r: seq<User>)
    ensures forall u :: u in r <==> u in g.suggestions && u.id !in g.dismissed
    ensures |r| <= |g.suggestions|
  {
    Seqs.Filter(g.suggestions, NotDismissed(g.dismissed))
  }

  /** The visible list keeps the fetched order: filtering it by any test that already
      rejects the dismissed ids gives the same as filtering the suggestions; with nothing
      dismissed it is the suggestions themselves. */
  lemma {:induction false} VisibleKeepsOrder(g: Grid, keep: User -> bool)
    requires forall u :: keep(u) ==> u.id !in g.dismissed
    ensures Seqs.Filter(Visible(g), keep) == Seqs.Filter(g.suggestions, keep)
    ensures g.dismissed == [] ==> Visible(g) == g.suggestions
  {
    Seqs.FilterFilter(g.suggestions, NotDismissed(g.dismissed), keep, keep);
    if g.dismissed == [] {
      Seqs.FilterAll(g.suggestions, NotDismissed(g.dismissed));
    }
  }

  /** The suggestions fetch settled: `Some(users)` carries `data.users`, `None` a thrown
      error, which keeps the list. Loading ends either way. */
  function FetchSettled(g: Grid, users: Option<seq<User>>): (r: Grid)
    ensures !r.loading && r.dismissed == g.dismissed
    ensures users.Some? ==> r.suggestions == users.value
    ensures users.None? ==> r.suggestions == g.suggestions
  {
    match users
    case Some(us) => g.(suggestions := us, loading := false)
    case None => g.(loading := false)
  }

  /** `handleDismiss`: the id joins the dismissed list. */
  function HandleDismiss(g: Grid, id: UserId): (r: Grid)
    ensures id in r.dismissed
    ensures forall d :: d in g.dismissed ==> d in r.dismissed
    ensures r.suggestions == g.suggestions && r.loading == g.loading
  {
    g.(dismissed := g.dismissed + [id])
  }

  /** Keeps the users with an id other than `id`. */
  function NotId(id: UserId): User -> bool
  {
    (u: User) => u.id != id
  }

  /** Dismissing removes exactly that user from the visible list: the new visible list is the
      old one without `id`, order kept. */
  lemma DismissHidesOnlyThatUser(g: Grid, id: UserId)
    ensures Visible(HandleDismiss(g, id)) == Seqs.Filter(Visible(g), NotId(id))
  {
    Seqs.FilterFilter(g.suggestions, NotDismissed(g.dismissed), NotId(id), NotDismissed(g.dismissed + [id]));
  }

  /** Dismissal is monotone: once dismissed, a user stays hidden whatever else is
      dismissed later; and dismissing the same user twice shows the same grid as once. */
  lemma DismissMonotone(g: Grid, id: UserId, later: seq<UserId>)
    ensures forall u :: u in Visible(HandleDismiss(g, id).(dismissed := g.dismissed + [id] + later)) ==> u.id != id
    ensures Visible(HandleDismiss(HandleDismiss(g, id), id)) == Visible(HandleDismiss(g, id))
  {
    var once := HandleDismiss(g, id);
    var twice := HandleDismiss(once, id);
    Seqs.FilterFilter(g.suggestions, NotDismissed(once.dismissed), NotDismissed(once.dismissed), NotDismissed(twice.dismissed));
    Seqs.FilterFilter(g.suggestions, NotDismissed(once.dismissed), NotDismissed(once.dismissed), NotDismissed(once.dismissed));
  }

  /** `handleFollow(id)` once its request settled: on success the card with that id shows
      Following; every other card and every other field is unchanged. Signed out or on
      failure nothing changes. */
  function HandleFollow(g: Grid, session: Session, id: UserId, ok: bool): (r: Grid)
    ensures session.None? || !ok ==> r == g
    ensures |r.suggestions| == |g.suggestions|
    ensures forall i :: 0 <= i < |g.suggestions| && g.suggestions[i].id != id ==> r.suggestions[i] == g.suggestions[i]
    ensures session.Some? && ok ==> forall i :: 0 <= i < |g.suggestions| && g.suggestions[i].id == id ==>
      r.suggestions[i] == g.suggestions[i].(isFollowing := true)
    ensures r.dismissed == g.dismissed && r.loading == g.loading
  {
    if session.None? || !ok then g
    else g.(suggestions := Seqs.Map(g.suggestions, MarkFollowing(id)))
  }

  function MarkFollowing(id: UserId): User -> User
  {
    (u: User) => if u.id == id then u.(isFollowing := true) else u
  }

  /** Following is idempotent: a second successful follow of the same user changes nothing. */
  lemma FollowIdempotent(g: Grid, user: UserId, id: UserId)
    ensures HandleFollow(HandleFollow(g, Some(user), id, true), Some(user), id, true) == HandleFollow(g, Some(user), id, true)
  {
    var once := HandleFollow(g, Some(user), id, true);
    var twice := HandleFollow(once, Some(user), id, true);
    assert twice.suggestions == once.suggestions;
  }

  /** The avatars drawn next to the label: the first three mutual followers. */
  function Avatars(u: User): (r: seq<MutualFollower>)
    ensures |r| <= MaxAvatars && |r| <= |u.mutualFollowers|
    ensures r == u.mutualFollowers[..|r|]
    ensures |u.mutualFollowers| >= MaxAvatars ==> |r| == MaxAvatars
    ensures |u.mutualFollowers| < MaxAvatars ==> r == u.mutualFollowers
  {
    Seqs.Take(u.mutualFollowers, MaxAvatars)
  }

  /** The mutual-follower line of a card. `Crashed` is the TypeError that reading
      `mutualFollowers[0].username` raises when the count is positive but the list is empty. */
  datatype Label = NoLabel | Text(text: string) | Crashed

  function MutualLabel(u: User): (l: Label)
    ensures u.mutualFollowersCount <= 0 <==> l == NoLabel
    ensures l == Crashed <==> u.mutualFollowersCount > 0 && |u.mutualFollowers| == 0
    ensures l.Text? ==> l.text == "Followed by " + u.mutualFollowers[0].username + Suffix(u.mutualFollowersCount)
  {
    if u.mutualFollowersCount <= 0 then NoLabel
    else if |u.mutualFollowers| == 0 then Crashed
    else Text("Followed by " + u.mutualFollowers[0].username + Suffix(u.mutualFollowersCount))
  }

  /** " and {count - 1} others" when the count is above one, nothing otherwise. */
  function Suffix(count: int): (s: string)
    ensures count <= 1 <==> s == ""
    ensures count > 1 ==> s == " and " + Text.NatToString(count - 1) + " others"
  {
    if count > 1 then " and " + Text.NatToString(count - 1) + " others" else ""
  }

  /** The number printed in the suffix reads back as the count of other mutual followers. */
  lemma SuffixCountReadsBack(count: int)
    requires count > 1
    ensures var s := Suffix(count);
      var digits := s[|" and "|..|s| - |" others"|];
      Text.ParseNat(digits) == count - 1
  {
    var s := Suffix(count);
    assert s[|" and "|..|s| - |" others"|] == Text.NatToString(count - 1);
    Text.NatRoundTrip(count - 1);
  }

  /** The grid renders nothing signed out, while loading, or with no visible suggestion. */
  predicate RendersNothing(g: Grid, session: Session)
  {
    session.None? || g.loading || |Visible(g)| == 0
  }

  /** Dismissing every suggested user empties the grid, so it disappears. */
  lemma DismissAllHidesGrid(g: Grid, session: Session)
    requires forall i :: 0 <= i < |g.suggestions| ==> g.suggestions[i].id in g.dismissed
    ensures RendersNothing(g, session)
  {
    Seqs.FilterNone(g.suggestions, NotDismissed(g.dismissed));
  }
}

/** `GET /api/users/activity` (src/app/api/users/activity/route.ts): the ten newest likes and
    ten newest comments others left on the user's posts and the ten newest follows of the
    user, tagged and merged into one list sorted newest first. The three database queries
    are modelled as filters over tables given in the database's `createdAt`-descending
    order, followed by `take: 10`. */
module ActivityRoute {
  import opened Common
  import Seqs
  import Text

  /** Each query's `take`. */
  const PerSource := 10

  /** A post as the queries select it: its id and at most its first image URL. */
  datatype PostRef = PostRef(id: string, images: seq<string>)

  datatype LikeRow = LikeRow(id: string, createdAt: int, user: UserRef, postOwner: UserId, post: PostRef)
  datatype CommentRow = CommentRow(id: string, content: string, createdAt: int, user: UserRef, postOwner: UserId, post: PostRef)
  datatype FollowRow = FollowRow(createdAt: int, follower: UserRef, followingId: UserId)

  datatype Kind = LikeActivity | CommentActivity | FollowActivity

  /** One element of the response; `post` is absent on follows and `content` is present
      only on comments. */
  datatype Activity = Activity(kind: Kind, id: string, createdAt: int, user: UserRef, post: Option<PostRef>, content: Option<string>)

  datatype Response = Unauthorized | Json(activities: seq<Activity>)

  // The three queries.

  function LikeMatches(me: UserId): LikeRow -> bool
  {
    (l: LikeRow) => l.postOwner == me && l.user.id != me
  }

  function CommentMatches(me: UserId): CommentRow -> bool
  {
    (c: CommentRow) => c.postOwner == me && c.user.id != me
  }

  function FollowMatches(me: UserId): FollowRow -> bool
  {
    (f: FollowRow) => f.followingId == me
  }

  /** Likes on the user's posts by someone else, newest ten. */
  function RecentLikes(table: seq<LikeRow>, me: UserId): (r: seq<LikeRow>)
    ensures |r| <= PerSource
    ensures forall i :: 0 <= i < |r| ==> r[i].postOwner == me && r[i].user.id != me
    ensures |r| <= |Seqs.Filter(table, LikeMatches(me))| && r == Seqs.Filter(table, LikeMatches(me))[..|r|]
    ensures var matching := Seqs.Filter(table, LikeMatches(me));
      |r| == if |matching| <= PerSource then |matching| else PerSource
  {
    Seqs.Take(Seqs.Filter(table, LikeMatches(me)), PerSource)
  }

  /** Comments on the user's posts by someone else, newest ten. */
  function RecentComments(table: seq<CommentRow>, me: UserId): (r: seq<CommentRow>)
    ensures |r| <= PerSource
    ensures forall i :: 0 <= i < |r| ==> r[i].postOwner == me && r[i].user.id != me
    ensures |r| <= |Seqs.Filter(table, CommentMatches(me))| && r == Seqs.Filter(table, CommentMatches(me))[..|r|]
    ensures var matching := Seqs.Filter(table, CommentMatches(me));
      |r| == if |matching| <= PerSource then |matching| else PerSource
  {
    Seqs.Take(Seqs.Filter(table, CommentMatches(me)), PerSource)
  }

  /** Follows of the user, newest ten. */
  function RecentFollows(table: seq<FollowRow>, me: UserId): (r: seq<FollowRow>)
    ensures |r| <= PerSource
    ensures forall i :: 0 <= i < |r| ==> r[i].followingId == me
    ensures |r| <= |Seqs.Filter(table, FollowMatches(me))| && r == Seqs.Filter(table, FollowMatches(me))[..|r|]
    ensures var matching := Seqs.Filter(table, FollowMatches(me));
      |r| == if |matching| <= PerSource then |matching| else PerSource
  {
    Seqs.Take(Seqs.Filter(table, FollowMatches(me)), PerSource)
  }

  // Tagging.

  function FromLike(l: LikeRow): (a: Activity)
    ensures a.kind == LikeActivity && a.id == l.id && a.createdAt == l.createdAt && a.user == l.user
    ensures a.post == Some(l.post) && a.content.None?
  {
    Activity(LikeActivity, l.id, l.createdAt, l.user, Some(l.post), None)
  }

  function FromComment(c: CommentRow): (a: Activity)
    ensures a.kind == CommentActivity && a.id == c.id && a.createdAt == c.createdAt && a.user == c.user
    ensures a.post == Some(c.post) && a.content == Some(c.content)
  {
    Activity(CommentActivity, c.id, c.createdAt, c.user, Some(c.post), Some(c.content))
  }

  /** The follow's id joins the follower's id and the follow's time in milliseconds. */
  function FollowId(f: FollowRow): string
  {
    f.follower.id + "-" + Text.IntToString(f.createdAt)
  }

  function FromFollow(f: FollowRow): (a: Activity)
    ensures a.kind == FollowActivity && a.createdAt == f.createdAt && a.user == f.follower
    ensures a.post.None? && a.content.None?
    ensures a.id == FollowId(f)
  {
    Activity(FollowActivity, FollowId(f), f.createdAt, f.follower, None, None)
  }

  /** A follow activity's id starts with the follower's id and a dash, and what follows
      the dash reads back as the follow's time; two follows by the same follower at
      different times get different ids. */
  lemma FollowIdReadsBack(f: FollowRow, g: FollowRow)
    ensures var id := FollowId(f);
      && |f.follower.id| + 1 <= |id|
      && id[..|f.follower.id|] == f.follower.id && id[|f.follower.id|] == '-'
      && Text.ParseInt(id[|f.follower.id| + 1..]) == f.createdAt
    ensures f.follower.id == g.follower.id && f.createdAt != g.createdAt ==> FollowId(f) != FollowId(g)
  {
    assert FollowId(f)[|f.follower.id| + 1..] == Text.IntToString(f.createdAt);
    assert FollowId(g)[|g.follower.id| + 1..] == Text.IntToString(g.createdAt);
    Text.IntRoundTrip(f.createdAt);
    Text.IntRoundTrip(g.createdAt);
  }

  /** The three tagged lists in the order the route spreads them. */
  function Tagged(likes: seq<LikeRow>, comments: seq<CommentRow>, follows: seq<FollowRow>): (r: seq<Activity>)
    ensures |r| == |likes| + |comments| + |follows|
    ensures forall i :: 0 <= i < |likes| ==> r[i] == FromLike(likes[i])
    ensures forall i :: 0 <= i < |comments| ==> r[|likes| + i] == FromComment(comments[i])
    ensures forall i :: 0 <= i < |follows| ==> r[|likes| + |comments| + i] == FromFollow(follows[i])
  {
    Seqs.Map(likes, FromLike) + Seqs.Map(comments, FromComment) + Seqs.Map(follows, FromFollow)
  }

  // The sort: `b.createdAt - a.createdAt` with the stable `Array.prototype.sort`.

  /** Newest first: no activity precedes a strictly newer one. */
  predicate NewestFirst(s: seq<Activity>)
  {
    forall i, j :: 0 <= i < j < |s| ==> s[i].createdAt >= s[j].createdAt
  }

  /** Places `x` before the first element that is not newer than it, so `x` precedes the
      elements of its own time already in `s`. */
  function Insert(x: Activity, s: seq<Activity>): (r: seq<Activity>)
    ensures |r| == |s| + 1
    ensures multiset(r) == multiset(s) + multiset{x}
  {
    if |s| == 0 || x.createdAt >= s[0].createdAt then [x] + s
    else
      assert s == [s[0]] + s[1..];
      [s[0]] + Insert(x, s[1..])
  }

  /** Inserting into a newest-first list keeps it newest first. */
  lemma {:induction false} InsertKeepsOrder(x: Activity, s: seq<Activity>)
    requires NewestFirst(s)
    ensures NewestFirst(Insert(x, s))
    decreases |s|
  {
    if |s| > 0 && x.createdAt < s[0].createdAt {
      var tail := Insert(x, s[1..]);
      InsertKeepsOrder(x, s[1..]);
      assert s == [s[0]] + s[1..];
      forall y | y in tail ensures y.createdAt <= s[0].createdAt {
        assert y in multiset(tail);
      }
      assert forall j :: 0 <= j < |tail| ==> tail[j] in tail;
    }
  }

  /** The sorted list: the input reordered newest first. */
  function Sort(s: seq<Activity>): (r: seq<Activity>)
    ensures multiset(r) == multiset(s)
    ensures NewestFirst(r)
    ensures |r| == |s|
  {
    if |s| == 0 then []
    else
      assert s == [s[0]] + s[1..];
      InsertKeepsOrder(s[0], Sort(s[1..]));
      Insert(s[0], Sort(s[1..]))
  }

  function AtTime(t: int): Activity -> bool
  {
    (a: Activity) => a.createdAt == t
  }

  /** Inserting `x` into a newest-first list puts it ahead of every element of its own time
      and leaves the other times' elements as they were. */
  lemma {:induction false} InsertAtTime(x: Activity, s: seq<Activity>, t: int)
    requires NewestFirst(s)
    ensures x.createdAt == t ==> Seqs.Filter(Insert(x, s), AtTime(t)) == [x] + Seqs.Filter(s, AtTime(t))
    ensures x.createdAt != t ==> Seqs.Filter(Insert(x, s), AtTime(t)) == Seqs.Filter(s, AtTime(t))
    decreases |s|
  {
    if |s| == 0 || x.createdAt >= s[0].createdAt {
      assert ([x] + s)[1..] == s;
    } else {
      InsertAtTime(x, s[1..], t);
      var tail := Insert(x, s[1..]);
      assert ([s[0]] + tail)[1..] == tail;
      assert s == [s[0]] + s[1..];
      if x.createdAt == t {
        assert s[0].createdAt > t;
      }
    }
  }

  /** The sort is stable: activities with equal times keep the order in which the route
      concatenated them. */
  lemma {:induction false} SortIsStable(s: seq<Activity>, t: int)
    ensures Seqs.Filter(Sort(s), AtTime(t)) == Seqs.Filter(s, AtTime(t))
    decreases |s|
  {
    if |s| > 0 {
      SortIsStable(s[1..], t);
      InsertAtTime(s[0], Sort(s[1..]), t);
      assert s == [s[0]] + s[1..];
    }
  }

  /** The whole route for the session's user (`None` when signed out). */
  function Get(session: Session, likes: seq<LikeRow>, comments: seq<CommentRow>, follows: seq<FollowRow>): (r: Response)
    ensures session.None? <==> r == Unauthorized
    ensures r.Json? ==> var me := session.value;
      && multiset(r.activities) == multiset(Tagged(RecentLikes(likes, me), RecentComments(comments, me), RecentFollows(follows, me)))
      && NewestFirst(r.activities)
      && |r.activities| <= 3 * PerSource
  {
    match session
    case None => Unauthorized
    case Some(me) => Json(Sort(Tagged(RecentLikes(likes, me), RecentComments(comments, me), RecentFollows(follows, me))))
  }

  /** Tagging keeps who each activity is about: likes and comments not by the user stay
      so, and a follow's user is the follower of a follow of the user. */
  lemma TaggedAboutOthers(me: UserId, ls: seq<LikeRow>, cs: seq<CommentRow>, fs: seq<FollowRow>, follows: seq<FollowRow>)
    requires forall i :: 0 <= i < |ls| ==> ls[i].user.id != me
    requires forall i :: 0 <= i < |cs| ==> cs[i].user.id != me
    requires forall i :: 0 <= i < |fs| ==> fs[i] in follows && fs[i].followingId == me
    ensures forall a :: a in Tagged(ls, cs, fs) ==> AboutOther(a, me, follows)
  {
    var tagged := Tagged(ls, cs, fs);
    forall k | 0 <= k < |tagged| ensures AboutOther(tagged[k], me, follows) {
      if k < |ls| {
        assert tagged[k] == FromLike(ls[k]);
      } else if k < |ls| + |cs| {
        var j := k - |ls|;
        assert tagged[|ls| + j] == FromComment(cs[j]);
      } else {
        var j := k - |ls| - |cs|;
        assert tagged[|ls| + |cs| + j] == FromFollow(fs[j]);
      }
    }
  }

  predicate AboutOther(a: Activity, me: UserId, follows: seq<FollowRow>)
  {
    && (a.kind != FollowActivity ==> a.user.id != me)
    && (a.kind == FollowActivity ==> exists f :: f in follows && f.followingId == me && a.user == f.follower)
  }

  /** The response carries the same activities, so the same holds for it. */
  lemma NothingBySelf(me: UserId, likes: seq<LikeRow>, comments: seq<CommentRow>, follows: seq<FollowRow>)
    ensures forall a :: a in Get(Some(me), likes, comments, follows).activities ==> AboutOther(a, me, follows)
  {
    var fs := RecentFollows(follows, me);
    var tagged := Tagged(RecentLikes(likes, me), RecentComments(comments, me), fs);
    forall i | 0 <= i < |fs| ensures fs[i] in follows {
      assert fs[i] in Seqs.Filter(follows, FollowMatches(me));
    }
    TaggedAboutOthers(me, RecentLikes(likes, me), RecentComments(comments, me), fs, follows);
    var r := Get(Some(me), likes, comments, follows).activities;
    forall a | a in r ensures AboutOther(a, me, follows) {
      assert a in multiset(r);
      assert a in tagged;
    }
  }
}

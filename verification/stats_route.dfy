/** `GET /api/users/stats` (src/app/api/users/stats/route.ts): the user's totals, the
    engagement rate, and a 30-entry chart with one entry per UTC day ending today. Times are
    milliseconds since the epoch; one `now` stands for the route's `Date.now()` calls. A
    calendar date (`toISOString().split("T")[0]`) is identified by its UTC day number. */
module StatsRoute {
  import opened Common
  import Seqs

  const DayMs := 86_400_000

  /** Entries in the chart, and the days the post query looks back. */
  const ChartDays := 30

  /** The UTC day a time falls on (floor division, also before 1970). */
  function UtcDay(ms: int): int
  {
    ms / DayMs
  }

  /** Going back `k` whole days from any moment lands `k` calendar days earlier. */
  lemma DaysBack(now: int, k: int)
    ensures UtcDay(now - k * DayMs) == UtcDay(now) - k
  {
    var q := now / DayMs;
    var r := now % DayMs;
    assert now == q * DayMs + r && 0 <= r < DayMs;
    assert now - k * DayMs == (q - k) * DayMs + r;
  }

  /** A post row as the recent-activity query selects it, with its owner for the `where`. */
  datatype PostRow = PostRow(userId: UserId, createdAt: int, likes: nat, comments: nat)

  function Mine(me: UserId): PostRow -> bool
  {
    (p: PostRow) => p.userId == me
  }

  function Since(me: UserId, from: int): PostRow -> bool
  {
    (p: PostRow) => p.userId == me && p.createdAt >= from
  }

  /** The recent-activity query: the user's posts created no earlier than 30 days before
      `now`. */
  function RecentPosts(table: seq<PostRow>, me: UserId, now: int): (r: seq<PostRow>)
    ensures forall p :: p in r <==> p in table && p.userId == me && p.createdAt >= now - ChartDays * DayMs
  {
    Seqs.Filter(table, Since(me, now - ChartDays * DayMs))
  }

  /** One chart entry. */
  datatype Entry = Entry(day: int, posts: nat, likes: int, comments: int)

  function OnDay(day: int): PostRow -> bool
  {
    (p: PostRow) => UtcDay(p.createdAt) == day
  }

  function Likes(p: PostRow): int { p.likes }
  function Comments(p: PostRow): int { p.comments }

  /** The entry for `day`: how many of `recent` fall on it and their like and comment
      totals. */
  function EntryOn(recent: seq<PostRow>, day: int): (e: Entry)
    ensures e.day == day
  {
    var dayPosts := Seqs.Filter(recent, OnDay(day));
    Entry(day, |dayPosts|, Seqs.Sum(dayPosts, Likes), Seqs.Sum(dayPosts, Comments))
  }

  /** The day of the chart's entry `i`: the day of `now - (29 - i)` days. */
  function ChartDay(now: int, i: int): int
  {
    UtcDay(now - (ChartDays - 1 - i) * DayMs)
  }

  /** `activityData`: one entry per chart day, oldest first. */
  function ActivityData(recent: seq<PostRow>, now: int): (data: seq<Entry>)
    ensures |data| == ChartDays
    ensures forall i :: 0 <= i < ChartDays ==> data[i] == EntryOn(recent, ChartDay(now, i))
  {
    seq(ChartDays, i => EntryOn(recent, ChartDay(now, i)))
  }

  /** The chart covers 30 consecutive days, oldest first, ending with today. */
  lemma ChartDaysConsecutive(recent: seq<PostRow>, now: int)
    ensures forall i :: 0 <= i < ChartDays ==> ActivityData(recent, now)[i].day == UtcDay(now) - (ChartDays - 1) + i
    ensures ActivityData(recent, now)[ChartDays - 1].day == UtcDay(now)
  {
    forall i | 0 <= i < ChartDays ensures ActivityData(recent, now)[i].day == UtcDay(now) - (ChartDays - 1) + i {
      DaysBack(now, ChartDays - 1 - i);
    }
  }

  /** Posts whose day lies in `[lo, hi)`. */
  function DayIn(lo: int, hi: int): PostRow -> bool
  {
    (p: PostRow) => lo <= UtcDay(p.createdAt) < hi
  }

  function PostsOf(data: seq<Entry>): int
  {
    if |data| == 0 then 0 else PostsOf(data[..|data| - 1]) + data[|data| - 1].posts
  }

  function LikesOf(data: seq<Entry>): int
  {
    if |data| == 0 then 0 else LikesOf(data[..|data| - 1]) + data[|data| - 1].likes
  }

  function CommentsOf(data: seq<Entry>): int
  {
    if |data| == 0 then 0 else CommentsOf(data[..|data| - 1]) + data[|data| - 1].comments
  }

  /** Entries for consecutive days from `lo` together count exactly the posts of those
      days: the days are distinct, so no post is counted twice. */
  lemma {:induction false} ConsecutivePosts(recent: seq<PostRow>, lo: int, data: seq<Entry>)
    requires forall i :: 0 <= i < |data| ==> data[i].posts == Seqs.Count(recent, OnDay(lo + i))
    ensures PostsOf(data) == Seqs.Count(recent, DayIn(lo, lo + |data|))
    decreases |data|
  {
    if |data| == 0 {
      Seqs.FilterNone(recent, DayIn(lo, lo));
    } else {
      var day := lo + |data| - 1;
      ConsecutivePosts(recent, lo, data[..|data| - 1]);
      Seqs.CountDisjointUnion(recent, DayIn(lo, day), OnDay(day), DayIn(lo, day + 1));
    }
  }

  /** The same for the like and comment totals, given per entry as the total over the
      posts of its day. */
  lemma {:induction false} ConsecutiveSums(recent: seq<PostRow>, lo: int, data: seq<Entry>)
    requires forall i :: 0 <= i < |data| ==> data[i].likes == Seqs.SumWhere(recent, OnDay(lo + i), Likes)
    requires forall i :: 0 <= i < |data| ==> data[i].comments == Seqs.SumWhere(recent, OnDay(lo + i), Comments)
    ensures LikesOf(data) == Seqs.SumWhere(recent, DayIn(lo, lo + |data|), Likes)
    ensures CommentsOf(data) == Seqs.SumWhere(recent, DayIn(lo, lo + |data|), Comments)
    decreases |data|
  {
    if |data| == 0 {
      Seqs.SumWhereNone(recent, DayIn(lo, lo), Likes);
      Seqs.SumWhereNone(recent, DayIn(lo, lo), Comments);
    } else {
      var day := lo + |data| - 1;
      ConsecutiveSums(recent, lo, data[..|data| - 1]);
      Seqs.SumWhereDisjointUnion(recent, DayIn(lo, day), OnDay(day), DayIn(lo, day + 1), Likes);
      Seqs.SumWhereDisjointUnion(recent, DayIn(lo, day), OnDay(day), DayIn(lo, day + 1), Comments);
    }
  }

  /** The chart's entries are those of the 30 consecutive days ending today. */
  lemma ChartIsConsecutive(recent: seq<PostRow>, now: int)
    ensures var lo := UtcDay(now) - (ChartDays - 1);
      forall i :: 0 <= i < ChartDays ==> ActivityData(recent, now)[i] == EntryOn(recent, lo + i)
  {
    var data := ActivityData(recent, now);
    forall i | 0 <= i < ChartDays ensures data[i] == EntryOn(recent, UtcDay(now) - (ChartDays - 1) + i) {
      assert data[i] == EntryOn(recent, ChartDay(now, i));
      DaysBack(now, ChartDays - 1 - i);
      assert ChartDay(now, i) == UtcDay(now) - (ChartDays - 1) + i;
    }
  }

  /** Summed over the chart, the entries never count more posts than were fetched, nor more
      than the user's total posts. */
  lemma {:induction false} ChartTotals(table: seq<PostRow>, me: UserId, now: int)
    ensures var recent := RecentPosts(table, me, now);
      var data := ActivityData(recent, now);
      PostsOf(data) <= |recent|
      && PostsOf(data) <= Seqs.Count(table, Mine(me))
  {
    var recent := RecentPosts(table, me, now);
    var window := DayIn(UtcDay(now) - (ChartDays - 1), UtcDay(now) + 1);
    ChartPosts(recent, now);
    assert Seqs.Count(recent, window) <= |recent|;
    Seqs.FilterFilter(table, Since(me, now - ChartDays * DayMs), window, Both(me, now));
    Seqs.CountMonotone(table, Both(me, now), Mine(me));
  }

  /** Summed over the chart, the entries count exactly the fetched posts that fall on one
      of its 30 days. */
  lemma ChartPosts(recent: seq<PostRow>, now: int)
    ensures PostsOf(ActivityData(recent, now)) == Seqs.Count(recent, DayIn(UtcDay(now) - (ChartDays - 1), UtcDay(now) + 1))
  {
    ChartIsConsecutive(recent, now);
    ConsecutivePosts(recent, UtcDay(now) - (ChartDays - 1), ActivityData(recent, now));
  }

  /** Likewise the chart's like and comment entries add up to the totals over exactly
      the fetched posts on its 30 days. */
  lemma ChartSums(recent: seq<PostRow>, now: int)
    ensures var lo := UtcDay(now) - (ChartDays - 1);
      var data := ActivityData(recent, now);
      && LikesOf(data) == Seqs.SumWhere(recent, DayIn(lo, UtcDay(now) + 1), Likes)
      && CommentsOf(data) == Seqs.SumWhere(recent, DayIn(lo, UtcDay(now) + 1), Comments)
  {
    var lo := UtcDay(now) - (ChartDays - 1);
    var data := ActivityData(recent, now);
    ChartIsConsecutive(recent, now);
    forall i | 0 <= i < |data|
      ensures data[i].likes == Seqs.SumWhere(recent, OnDay(lo + i), Likes)
      ensures data[i].comments == Seqs.SumWhere(recent, OnDay(lo + i), Comments)
    {
      Seqs.SumOfFilter(recent, OnDay(lo + i), Likes);
      Seqs.SumOfFilter(recent, OnDay(lo + i), Comments);
    }
    ConsecutiveSums(recent, lo, data);
  }

  function Both(me: UserId, now: int): PostRow -> bool
  {
    (p: PostRow) => Since(me, now - ChartDays * DayMs)(p) && DayIn(UtcDay(now) - (ChartDays - 1), UtcDay(now) + 1)(p)
  }

  /** The query reaches back exactly 30 days but the chart only 29 days before today: a post
      created exactly 30 days ago is fetched and falls on no entry's day. */
  lemma ThirtyDaysAgoIsDropped(table: seq<PostRow>, me: UserId, now: int, p: PostRow)
    requires p in table && p.userId == me && p.createdAt == now - ChartDays * DayMs
    ensures p in RecentPosts(table, me, now)
    ensures forall i :: 0 <= i < ChartDays ==> ActivityData(RecentPosts(table, me, now), now)[i].day != UtcDay(p.createdAt)
  {
    DaysBack(now, ChartDays);
    ChartDaysConsecutive(RecentPosts(table, me, now), now);
  }

  /** A JavaScript number as the rate can produce it. */
  datatype Rate = Finite(value: real) | PosInfinity | NaN

  /** `totalPosts > 0 ? ((totalLikes + totalComments) / totalPosts / totalFollowers) * 100 : 0`,
      with exact real arithmetic for the finite case. Zero followers divide a positive
      average into Infinity and a zero average into NaN. */
  function EngagementRate(totalPosts: nat, totalLikes: nat, totalComments: nat, totalFollowers: nat): (r: Rate)
    ensures totalPosts == 0 ==> r == Finite(0.0)
    ensures totalPosts > 0 && totalFollowers > 0 ==>
      r.Finite? && r.value * (totalPosts as real) * (totalFollowers as real) == ((totalLikes + totalComments) as real) * 100.0
    ensures !r.Finite? <==> totalPosts > 0 && totalFollowers == 0
    ensures r == NaN <==> totalPosts > 0 && totalFollowers == 0 && totalLikes + totalComments == 0
    ensures r.Finite? ==> r.value >= 0.0
  {
    if totalPosts == 0 then Finite(0.0)
    else
      var average := (totalLikes + totalComments) as real / totalPosts as real;
      if totalFollowers == 0 then (if average == 0.0 then NaN else PosInfinity)
      else Finite(average / totalFollowers as real * 100.0)
  }

  /** `NextResponse.json` writes a non-finite number as `null` (`None`). */
  function RateJson(r: Rate): (json: Option<real>)
    ensures json.Some? <==> r.Finite?
    ensures json.Some? ==> json.value == r.value
  {
    if r.Finite? then Some(r.value) else None
  }

  datatype Stats = Stats(
    totalPosts: nat,
    totalLikes: nat,
    totalComments: nat,
    totalFollowers: nat,
    totalFollowing: nat,
    engagementRate: Option<real>,
    activityData: seq<Entry>)

  datatype Response = Unauthorized | Json(stats: Stats)

  /** The other four totals come from count queries outside this model. */
  datatype Counts = Counts(likes: nat, comments: nat, followers: nat, following: nat)

  /** The chart the route returns adds up to exactly the user's posts created on one of its
      30 days since the query's cut-off, with their likes and comments. */
  lemma ResponseChart(me: UserId, posts: seq<PostRow>, counts: Counts, now: int)
    ensures var data := Get(Some(me), posts, counts, now).stats.activityData;
      var recent := RecentPosts(posts, me, now);
      var window := DayIn(UtcDay(now) - (ChartDays - 1), UtcDay(now) + 1);
      && PostsOf(data) == Seqs.Count(recent, window)
      && LikesOf(data) == Seqs.SumWhere(recent, window, Likes)
      && CommentsOf(data) == Seqs.SumWhere(recent, window, Comments)
  {
    ChartPosts(RecentPosts(posts, me, now), now);
    ChartSums(RecentPosts(posts, me, now), now);
  }

  /** The whole route for the session's user (`None` when signed out). */
  function Get(session: Session, posts: seq<PostRow>, counts: Counts, now: int): (r: Response)
    ensures session.None? <==> r == Unauthorized
    ensures r.Json? ==> && r.stats.totalPosts == Seqs.Count(posts, Mine(session.value))
                        && |r.stats.activityData| == ChartDays
                        && (r.stats.totalPosts == 0 ==> r.stats.engagementRate == Some(0.0))
                        && (r.stats.engagementRate.None? <==> r.stats.totalPosts > 0 && counts.followers == 0)
    ensures r.Json? ==> && r.stats.totalLikes == counts.likes && r.stats.totalComments == counts.comments
                        && r.stats.totalFollowers == counts.followers && r.stats.totalFollowing == counts.following
                        && r.stats.engagementRate == RateJson(EngagementRate(r.stats.totalPosts, counts.likes, counts.comments, counts.followers))
                        && r.stats.activityData == ActivityData(RecentPosts(posts, session.value, now), now)
  {
    match session
    case None => Unauthorized
    case Some(me) =>
      var totalPosts := Seqs.Count(posts, Mine(me));
      var rate := EngagementRate(totalPosts, counts.likes, counts.comments, counts.followers);
      Json(Stats(totalPosts, counts.likes, counts.comments, counts.followers, counts.following,
                 RateJson(rate), ActivityData(RecentPosts(posts, me, now), now)))
  }
}

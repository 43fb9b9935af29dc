/** A post in the home feed (src/components/FeedPost.tsx): the like and save toggles with
    their optimistic counter, the double-tap shortcut, the two-comment "recent" window and
    the image carousel. Each fetch is an input saying whether the response was ok. */
module FeedPost {
  import opened Common
  import Seqs
  import Text

  datatype Comment = Comment(id: string, content: string, createdAt: int, user: UserRef)

  /** The parts of a post the component reads. */
  datatype Post = Post(
    id: string,
    imageUrls: seq<string>,
    likerIds: seq<UserId>,
    comments: seq<Comment>,
    likeTotal: int)

  /** The component's state. */
  datatype View = View(
    isLiked: bool,
    isSaved: bool,
    likeCount: int,
    currentImageIndex: int,
    showLikeAnimation: bool,
    draft: string,
    recentComments: seq<Comment>,
    lastTapTime: int)

  /** Two taps closer together than this many milliseconds are a double tap. */
  const DoubleTapDelay := 300

  /** How many of the post's comments the card shows. */
  const RecentWindow := 2

  /** The state a post card mounts with: liked when the viewer is among the likers, the
      server's like total, the first image, and the last two comments. */
  function Init(post: Post, session: Session): (v: View)
    ensures v.isLiked <==> session.Some? && session.value in post.likerIds
    ensures v.likeCount == post.likeTotal && v.currentImageIndex == 0 && !v.isSaved
    ensures |v.recentComments| <= RecentWindow && |v.recentComments| <= |post.comments|
    ensures post.comments == post.comments[..|post.comments| - |v.recentComments|] + v.recentComments
    ensures |post.comments| >= RecentWindow ==> |v.recentComments| == RecentWindow
    ensures |post.comments| < RecentWindow ==> v.recentComments == post.comments
    ensures v.draft == "" && !v.showLikeAnimation && v.lastTapTime == 0
  {
    View(
      session.Some? && session.value in post.likerIds,
      false,
      post.likeTotal,
      0,
      false,
      "",
      Seqs.LastN(post.comments, RecentWindow),
      0)
  }

  datatype HttpMethod = PostMethod | DeleteMethod

  /** The request `handleLike` sends: DELETE when liked, POST when not, nothing signed out. */
  function LikeRequest(v: View, session: Session): (m: Option<HttpMethod>)
    ensures m.None? <==> session.None?
    ensures m.Some? ==> (m.value == DeleteMethod <==> v.isLiked)
  {
    if session.None? then None else Some(if v.isLiked then DeleteMethod else PostMethod)
  }

  /** `handleLike` after its request settled with `ok`. A successful toggle flips `isLiked`
      and moves `likeCount` one step in the same direction; signed out or failed, nothing
      changes. */
  function HandleLike(v: View, session: Session, ok: bool): (r: View)
    ensures session.None? || !ok ==> r == v
    ensures session.Some? && ok ==> r.isLiked == !v.isLiked
    ensures session.Some? && ok ==> r.likeCount == v.likeCount + (if r.isLiked then 1 else -1)
    ensures r.(isLiked := v.isLiked, likeCount := v.likeCount) == v
  {
    if session.None? || !ok then v
    else v.(isLiked := !v.isLiked, likeCount := if v.isLiked then v.likeCount - 1 else v.likeCount + 1)
  }

  /** `handleSave` after its request settled: flips `isSaved` on success. */
  function HandleSave(v: View, session: Session, ok: bool): (r: View)
    ensures r.isSaved != v.isSaved <==> session.Some? && ok
    ensures r.(isSaved := v.isSaved) == v
  {
    if session.None? || !ok then v else v.(isSaved := !v.isSaved)
  }

  /** Two successful like toggles restore both the flag and the count. */
  lemma LikeTwiceRestores(v: View, user: UserId)
    ensures HandleLike(HandleLike(v, Some(user), true), Some(user), true) == v
  {
  }

  /** Two successful save toggles restore the flag. */
  lemma SaveTwiceRestores(v: View, user: UserId)
    ensures HandleSave(HandleSave(v, Some(user), true), Some(user), true) == v
  {
  }

  /** The like counter stays the server total plus one exactly when this viewer's like
      state differs from the one the card mounted with. */
  predicate CountTracksLike(v: View, mountedLiked: bool, mountedCount: int)
  {
    v.likeCount == mountedCount + (if v.isLiked == mountedLiked then 0 else if v.isLiked then 1 else -1)
  }

  lemma HandleLikeTracksCount(v: View, session: Session, ok: bool, mountedLiked: bool, mountedCount: int)
    requires CountTracksLike(v, mountedLiked, mountedCount)
    ensures CountTracksLike(HandleLike(v, session, ok), mountedLiked, mountedCount)
  {
  }

  /** `handleDoubleTap` at time `now` (ms): when the previous tap was less than 300 ms ago
      and the post is not liked, the heart animation starts and a like is attempted;
      the tap time is recorded in every case. A double tap never unlikes. */
  function HandleDoubleTap(v: View, now: int, session: Session, ok: bool): (r: View)
    ensures r.lastTapTime == now
    ensures v.isLiked ==> r.isLiked && r.likeCount == v.likeCount
    ensures r.likeCount == v.likeCount + (if r.isLiked != v.isLiked then 1 else 0)
    ensures r.isLiked != v.isLiked <==> now - v.lastTapTime < DoubleTapDelay && !v.isLiked && session.Some? && ok
    ensures r.showLikeAnimation <==> v.showLikeAnimation || (now - v.lastTapTime < DoubleTapDelay && !v.isLiked)
    ensures r.(lastTapTime := v.lastTapTime, showLikeAnimation := v.showLikeAnimation,
               isLiked := v.isLiked, likeCount := v.likeCount) == v
  {
    var liking := now - v.lastTapTime < DoubleTapDelay && !v.isLiked;
    var afterLike := if liking then HandleLike(v.(showLikeAnimation := true), session, ok) else v;
    afterLike.(lastTapTime := now)
  }

  /** A double tap keeps the like counter in step with the like state, as the like button
      does. */
  lemma DoubleTapTracksCount(v: View, now: int, session: Session, ok: bool, mountedLiked: bool, mountedCount: int)
    requires CountTracksLike(v, mountedLiked, mountedCount)
    ensures CountTracksLike(HandleDoubleTap(v, now, session, ok), mountedLiked, mountedCount)
  {
  }

  /** The one-second timer that hides the heart. */
  function AnimationEnded(v: View): (r: View)
    ensures !r.showLikeAnimation && r.(showLikeAnimation := v.showLikeAnimation) == v
  {
    v.(showLikeAnimation := false)
  }

  /** The carousel's → button: forward one image, but never past the last. */
  function NextImage(v: View, imageCount: nat): (r: View)
    ensures v.currentImageIndex < imageCount - 1 ==> r.currentImageIndex == v.currentImageIndex + 1
    ensures v.currentImageIndex >= imageCount - 1 ==> r == v
    ensures r.(currentImageIndex := v.currentImageIndex) == v
  {
    if v.currentImageIndex < imageCount - 1 then v.(currentImageIndex := v.currentImageIndex + 1) else v
  }

  /** The carousel's ← button: back one image, but never before the first. */
  function PreviousImage(v: View): (r: View)
    ensures v.currentImageIndex > 0 ==> r.currentImageIndex == v.currentImageIndex - 1
    ensures v.currentImageIndex <= 0 ==> r == v
    ensures r.(currentImageIndex := v.currentImageIndex) == v
  {
    if v.currentImageIndex > 0 then v.(currentImageIndex := v.currentImageIndex - 1) else v
  }

  /** The carousel index names an image of a post that has at least one. */
  predicate IndexInRange(v: View, imageCount: nat)
  {
    0 <= v.currentImageIndex < imageCount
  }

  /** Both carousel buttons keep the index on an image, and moving forward then back from
      any image but the last returns to it. */
  lemma CarouselStaysInRange(v: View, imageCount: nat)
    requires IndexInRange(v, imageCount)
    ensures IndexInRange(NextImage(v, imageCount), imageCount)
    ensures IndexInRange(PreviousImage(v), imageCount)
    ensures v.currentImageIndex < imageCount - 1 ==> PreviousImage(NextImage(v, imageCount)) == v
    ensures v.currentImageIndex > 0 ==> NextImage(PreviousImage(v), imageCount) == v
  {
  }

  /** The body `handleComment` posts, or nothing when signed out or the draft is blank. */
  function CommentRequest(v: View, session: Session): (body: Option<string>)
    ensures body.None? <==> session.None? || Text.IsBlank(v.draft)
    ensures body.Some? ==> body.value == v.draft
  {
    Text.TrimEmptyIffBlank(v.draft);
    if session.None? || Text.Trim(v.draft) == "" then None else Some(v.draft)
  }

  /** `handleComment` once its request settled; `created` is the comment the server
      returned, `None` when the request failed. On success the window keeps the previous
      last comment and adds the new one, and the draft is cleared. */
  function HandleComment(v: View, session: Session, created: Option<Comment>): (r: View)
    ensures session.None? || Text.IsBlank(v.draft) || created.None? ==> r == v
    ensures session.Some? && !Text.IsBlank(v.draft) && created.Some? ==>
      r.recentComments == Seqs.LastN(v.recentComments, 1) + [created.value] && r.draft == ""
    ensures |v.recentComments| <= RecentWindow ==> |r.recentComments| <= RecentWindow
    ensures r.(recentComments := v.recentComments, draft := v.draft) == v
  {
    if CommentRequest(v, session).None? then v
    else match created
      case None => v
      case Some(c) => v.(recentComments := Seqs.LastN(v.recentComments, 1) + [c], draft := "")
  }

  /** A card mounts with its window equal to the last two of the post's comments, which is
      where CommentWindowIsLastTwo takes over. */
  lemma MountedWindowIsLastTwo(post: Post, session: Session)
    ensures Init(post, session).recentComments == Seqs.LastN(post.comments, RecentWindow)
  {
    var w := Init(post, session).recentComments;
    var last := Seqs.LastN(post.comments, RecentWindow);
    assert post.comments[|post.comments| - |w|..] == w;
    assert post.comments[|post.comments| - |last|..] == last;
  }

  /** The recent-comment window is always the last two of every comment the card knows of:
      the post's own comments followed by those added through it. */
  lemma {:induction false} CommentWindowIsLastTwo(v: View, all: seq<Comment>, session: Session, c: Comment)
    requires v.recentComments == Seqs.LastN(all, RecentWindow)
    requires CommentRequest(v, session).Some?
    ensures HandleComment(v, session, Some(c)).recentComments == Seqs.LastN(all + [c], RecentWindow)
  {
    Seqs.LastTwoWindow(all, c);
  }
}

/** The archive grid (src/components/ArchivedPosts.tsx): unarchive and delete remove a post
    once the server agrees, delete asks for confirmation first, and each post's "…" button
    opens its options while closing any other. */
module ArchivedPosts {
  import opened Common
  import Seqs

  datatype PostImage = PostImage(id: string, url: string)

  datatype Post = Post(
    id: string,
    images: seq<PostImage>,
    caption: Option<string>,
    createdAt: int,
    archivedAt: int,
    likes: int,
    comments: int)

  /** The component's state; `openOptions` is `showPostOptions`, the id whose dropdown is
      open. */
  datatype Archive = Archive(posts: seq<Post>, loading: bool, openOptions: Option<string>)

  function Mounted(): (a: Archive)
    ensures a.posts == [] && a.loading && a.openOptions.None?
  {
    Archive([], true, None)
  }

  /** The archived-posts fetch settled: `Some(posts)` carries `data.posts`, `None` a thrown
      error. Loading ends either way. */
  function FetchSettled(a: Archive, posts: Option<seq<Post>>): (r: Archive)
    ensures !r.loading && r.openOptions == a.openOptions
    ensures posts.Some? ==> r.posts == posts.value
    ensures posts.None? ==> r.posts == a.posts
  {
    match posts
    case Some(ps) => a.(posts := ps, loading := false)
    case None => a.(loading := false)
  }

  function NotId(id: string): Post -> bool
  {
    (p: Post) => p.id != id
  }

  /** The list after the server accepted removing `id`. */
  function Without(posts: seq<Post>, id: string): (r: seq<Post>)
    ensures forall p :: p in r <==> p in posts && p.id != id
    ensures forall i :: 0 <= i < |r| ==> r[i].id != id
    ensures |r| <= |posts|
  {
    Seqs.Filter(posts, NotId(id))
  }

  /** `handleUnarchive(id)` once the request settled: success removes the post with that id,
      failure changes nothing. The open dropdown id is left as it was. */
  function HandleUnarchive(a: Archive, id: string, ok: bool): (r: Archive)
    ensures !ok ==> r == a
    ensures ok ==> r.posts == Without(a.posts, id)
    ensures r.(posts := a.posts) == a
  {
    if ok then a.(posts := Without(a.posts, id)) else a
  }

  /** `handleDelete(id)`: `confirmed` is the answer to the `confirm` dialog; without it no
      request is made and nothing changes. */
  function HandleDelete(a: Archive, id: string, confirmed: bool, ok: bool): (r: Archive)
    ensures !confirmed || !ok ==> r == a
    ensures confirmed && ok ==> r.posts == Without(a.posts, id)
    ensures r.(posts := a.posts) == a
  {
    if !confirmed then a
    else if ok then a.(posts := Without(a.posts, id)) else a
  }

  /** Removal keeps the rest of the grid in order: filtering the new grid by any test that
      already rejects the removed id gives the same as filtering the old one. */
  lemma {:induction false} RemovalKeepsOthers(a: Archive, id: string, keep: Post -> bool)
    requires forall p :: keep(p) ==> p.id != id
    ensures Seqs.Filter(HandleUnarchive(a, id, true).posts, keep) == Seqs.Filter(a.posts, keep)
    ensures Seqs.Filter(HandleDelete(a, id, true, true).posts, keep) == Seqs.Filter(a.posts, keep)
  {
    Seqs.FilterFilter(a.posts, NotId(id), keep, keep);
  }

  /** Removal works post by post: on a split grid it removes from each part and keeps the
      parts in order, and a single post goes exactly when it has the id. */
  lemma {:induction false} WithoutSplits(before: seq<Post>, after: seq<Post>, id: string)
    ensures Without(before + after, id) == Without(before, id) + Without(after, id)
    ensures |before| == 1 ==> Without(before, id) == if before[0].id == id then [] else before
  {
    Seqs.FilterAppend(before, after, NotId(id));
    if |before| == 1 {
      assert before[1..] == [];
    }
  }

  /** Removing an id that is not in the grid changes nothing; removing twice is removing
      once. */
  lemma RemovalIdempotent(a: Archive, id: string)
    ensures HandleUnarchive(HandleUnarchive(a, id, true), id, true) == HandleUnarchive(a, id, true)
    ensures (forall i :: 0 <= i < |a.posts| ==> a.posts[i].id != id) ==> HandleUnarchive(a, id, true) == a
  {
    Seqs.FilterAll(Without(a.posts, id), NotId(id));
    if forall i :: 0 <= i < |a.posts| ==> a.posts[i].id != id {
      Seqs.FilterAll(a.posts, NotId(id));
    }
  }

  /** A post's "…" button: closes its dropdown when open, otherwise opens it in place of any
      other. */
  function ToggleOptions(a: Archive, id: string): (r: Archive)
    ensures a.openOptions == Some(id) ==> r.openOptions.None?
    ensures a.openOptions != Some(id) ==> r.openOptions == Some(id)
    ensures r.(openOptions := a.openOptions) == a
  {
    a.(openOptions := if a.openOptions == Some(id) then None else Some(id))
  }

  /** Pressing the same button twice restores whichever dropdown was open, provided it was
      that post's or none. */
  lemma ToggleTwice(a: Archive, id: string)
    requires a.openOptions.None? || a.openOptions == Some(id)
    ensures ToggleOptions(ToggleOptions(a, id), id) == a
  {
  }

  /** The posts whose dropdown is drawn. */
  function ShowingOptions(a: Archive): (r: seq<Post>)
    ensures forall p :: p in r <==> p in a.posts && a.openOptions == Some(p.id)
  {
    Seqs.Filter(a.posts, IsOpen(a.openOptions))
  }

  function IsOpen(open: Option<string>): Post -> bool
  {
    (p: Post) => open == Some(p.id)
  }

  predicate DistinctIds(posts: seq<Post>)
  {
    forall i, j :: 0 <= i < j < |posts| ==> posts[i].id != posts[j].id
  }

  /** With distinct post ids at most one dropdown is drawn, whatever was clicked. */
  lemma {:induction false} AtMostOneDropdown(posts: seq<Post>, open: Option<string>)
    requires DistinctIds(posts)
    ensures |Seqs.Filter(posts, IsOpen(open))| <= 1
    ensures open.None? ==> Seqs.Filter(posts, IsOpen(open)) == []
    decreases |posts|
  {
    if |posts| > 0 {
      AtMostOneDropdown(posts[1..], open);
      if IsOpen(open)(posts[0]) {
        assert forall i :: 0 <= i < |posts[1..]| ==> posts[1..][i].id != posts[0].id;
        Seqs.FilterNone(posts[1..], IsOpen(open));
      }
    }
  }

  /** After the open post is unarchived its dropdown is no longer drawn, though its id stays
      in `showPostOptions`. */
  lemma RemovedPostShowsNoDropdown(a: Archive, id: string)
    requires a.openOptions == Some(id)
    ensures HandleUnarchive(a, id, true).openOptions == Some(id)
    ensures ShowingOptions(HandleUnarchive(a, id, true)) == []
  {
    Seqs.FilterNone(HandleUnarchive(a, id, true).posts, IsOpen(a.openOptions));
  }

  /** The grid's thumbnail: the first image's URL, or the grid icon placeholder. */
  function Thumbnail(p: Post): (url: Option<string>)
    ensures url.Some? <==> |p.images| > 0
    ensures url.Some? ==> url.value == p.images[0].url
  {
    if |p.images| > 0 then Some(p.images[0].url) else None
  }

  datatype Screen = Nothing | Spinner | NoArchivedPosts | Grid(posts: seq<Post>)

  function Render(a: Archive, session: Session): (s: Screen)
    ensures session.None? <==> s == Nothing
    ensures session.Some? && a.loading <==> s == Spinner
    ensures s == NoArchivedPosts <==> session.Some? && !a.loading && |a.posts| == 0
    ensures s.Grid? ==> s.posts == a.posts && |s.posts| > 0
  {
    if session.None? then Nothing
    else if a.loading then Spinner
    else if |a.posts| == 0 then NoArchivedPosts
    else Grid(a.posts)
  }
}

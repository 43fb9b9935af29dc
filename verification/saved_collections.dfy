/** The saved-collections page (src/components/SavedCollections.tsx): the "New collection"
    modal and its submit, which appends the server's new collection and resets the form,
    and the cover shown for each collection. */
module SavedCollections {
  import opened Common
  import Text

  datatype PostImage = PostImage(id: string, url: string)
  datatype SavedPost = SavedPost(id: string, images: seq<PostImage>)

  datatype Collection = Collection(
    id: string,
    name: string,
    description: Option<string>,
    isPrivate: bool,
    coverImage: Option<string>,
    postCount: int,
    posts: seq<SavedPost>)

  /** The page's state: the list and the create modal with its three fields. */
  datatype Page = Page(
    collections: seq<Collection>,
    loading: bool,
    showCreateModal: bool,
    name: string,
    description: string,
    isPrivate: bool)

  function Mounted(): (p: Page)
    ensures p.collections == [] && p.loading && !p.showCreateModal
    ensures p.name == "" && p.description == "" && !p.isPrivate
  {
    Page([], true, false, "", "", false)
  }

  /** The collections fetch settled: `Some(cs)` carries `data.collections`, `None` a thrown
      error. Loading ends either way; the modal is untouched. */
  function FetchSettled(p: Page, cs: Option<seq<Collection>>): (r: Page)
    ensures !r.loading
    ensures cs.Some? ==> r.collections == cs.value
    ensures cs.None? ==> r.collections == p.collections
    ensures r.(collections := p.collections, loading := p.loading) == p
  {
    match cs
    case Some(c) => p.(collections := c, loading := false)
    case None => p.(loading := false)
  }

  /** "New collection" opens the modal; Cancel closes it and keeps whatever was typed. */
  function OpenModal(p: Page): (r: Page)
    ensures r.showCreateModal && r.(showCreateModal := p.showCreateModal) == p
  {
    p.(showCreateModal := true)
  }

  function CancelModal(p: Page): (r: Page)
    ensures !r.showCreateModal && r.(showCreateModal := p.showCreateModal) == p
  {
    p.(showCreateModal := false)
  }

  /** The name input's and the description textarea's `maxLength`. */
  const MaxName := 50
  const MaxDescription := 500

  /** Typing into the three fields; the inputs never deliver a value longer than their
      `maxLength`. */
  function EditFields(p: Page, name: string, description: string, isPrivate: bool): (r: Page)
    requires |name| <= MaxName && |description| <= MaxDescription
    ensures r.name == name && r.description == description && r.isPrivate == isPrivate
    ensures r.collections == p.collections && r.showCreateModal == p.showCreateModal && r.loading == p.loading
  {
    p.(name := name, description := description, isPrivate := isPrivate)
  }

  /** The Create button is disabled while the name is blank. */
  predicate CreateDisabled(p: Page)
  {
    Text.Trim(p.name) == ""
  }

  /** The JSON body `handleCreateCollection` posts. The name goes untrimmed. */
  datatype CreateBody = CreateBody(name: string, description: string, isPrivate: bool)

  /** The request the submit sends: none signed out or with a blank name. */
  function CreateRequest(p: Page, session: Session): (b: Option<CreateBody>)
    ensures b.None? <==> session.None? || Text.IsBlank(p.name)
    ensures b.Some? ==> b.value == CreateBody(p.name, p.description, p.isPrivate)
  {
    Text.TrimEmptyIffBlank(p.name);
    if session.None? || Text.Trim(p.name) == "" then None
    else Some(CreateBody(p.name, p.description, p.isPrivate))
  }

  /** The submit once the request (if any) settled: `created` is the new collection from an
      ok response, `None` a failure. Success appends it after the existing ones, closes the
      modal and clears the form; failure, like no request at all, changes nothing. */
  function HandleCreateCollection(p: Page, session: Session, created: Option<Collection>): (r: Page)
    ensures CreateRequest(p, session).None? || created.None? ==> r == p
    ensures CreateRequest(p, session).Some? && created.Some? ==>
      && r.collections == p.collections + [created.value]
      && !r.showCreateModal && r.name == "" && r.description == "" && !r.isPrivate
      && r.loading == p.loading
  {
    if CreateRequest(p, session).None? then p
    else match created
      case None => p
      case Some(c) => p.(collections := p.collections + [c], showCreateModal := false, name := "", description := "", isPrivate := false)
  }

  /** After a successful create, the existing collections keep their positions and the
      reopened modal starts blank, so its Create button is disabled. */
  lemma CreateThenReopen(p: Page, user: UserId, c: Collection)
    requires CreateRequest(p, Some(user)).Some?
    ensures var r := HandleCreateCollection(p, Some(user), Some(c));
      && |r.collections| == |p.collections| + 1
      && r.collections[..|p.collections|] == p.collections
      && r.collections[|p.collections|] == c
      && CreateDisabled(OpenModal(r))
  {
    assert Text.IsBlank("");
    Text.TrimEmptyIffBlank("");
  }

  /** Cancelling keeps the draft, so reopening shows the same fields and a submit from
      there sends the same body. */
  lemma CancelKeepsDraft(p: Page, session: Session)
    ensures CreateRequest(OpenModal(CancelModal(p)), session) == CreateRequest(p, session)
    ensures OpenModal(CancelModal(p)) == p.(showCreateModal := true)
  {
  }

  /** JavaScript truthiness of an optional string: present and non-empty. */
  predicate Truthy(s: Option<string>)
  {
    s.Some? && s.value != ""
  }

  /** The first image URL of the first post, when every step of
      `posts[0]?.images[0]?.url` exists. */
  function FirstPostImage(c: Collection): (url: Option<string>)
    ensures url.Some? <==> |c.posts| > 0 && |c.posts[0].images| > 0
    ensures url.Some? ==> url.value == c.posts[0].images[0].url
  {
    if |c.posts| > 0 && |c.posts[0].images| > 0 then Some(c.posts[0].images[0].url) else None
  }

  /** The tile's cover: `None` is the grid-icon placeholder. */
  function Cover(c: Collection): (url: Option<string>)
    ensures Truthy(c.coverImage) ==> url == c.coverImage
    ensures !Truthy(c.coverImage) && Truthy(FirstPostImage(c)) ==> url == FirstPostImage(c)
    ensures url.None? <==> !Truthy(c.coverImage) && !Truthy(FirstPostImage(c))
    ensures url.Some? ==> url.value != ""
  {
    if Truthy(c.coverImage) then c.coverImage
    else if Truthy(FirstPostImage(c)) then FirstPostImage(c)
    else None
  }

  /** The cover never comes from anywhere but the two sources, and an empty collection
      without a cover image always shows the placeholder. */
  lemma CoverSources(c: Collection)
    ensures Cover(c) == None || Cover(c) == c.coverImage || Cover(c) == FirstPostImage(c)
    ensures |c.posts| == 0 && !Truthy(c.coverImage) ==> Cover(c) == None
  {
  }

  datatype Screen = Nothing | Spinner | Grid(collections: seq<Collection>, modal: bool)

  function Render(p: Page, session: Session): (s: Screen)
    ensures session.None? <==> s == Nothing
    ensures session.Some? && p.loading <==> s == Spinner
    ensures s.Grid? ==> s.collections == p.collections && s.modal == p.showCreateModal
  {
    if session.None? then Nothing
    else if p.loading then Spinner
    else Grid(p.collections, p.showCreateModal)
  }
}

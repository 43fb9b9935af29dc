/** The story strip on the home page (src/components/StoryList.tsx): clicking a story opens
    the inner viewer at that index, the viewer's arrows and its five-second timer move
    through the list, and closing clears the selection. */
module StoryList {
  import opened Common

  datatype Story = Story(id: string, user: UserRef, image: string, createdAt: int, seen: bool)

  /** The list with the open story (`None` when the viewer is closed) and its index. */
  datatype Viewer = Viewer(stories: seq<Story>, selected: Option<Story>, index: int)

  /** The strip once the stories have been fetched: nothing open, index 0. */
  function Loaded(stories: seq<Story>): (v: Viewer)
    ensures v.stories == stories && v.selected.None? && v.index == 0
  {
    Viewer(stories, None, 0)
  }

  /** The viewer shows a → button and may auto-advance. */
  predicate HasNext(v: Viewer)
  {
    v.index < |v.stories| - 1
  }

  /** The viewer shows a ← button. */
  predicate HasPrevious(v: Viewer)
  {
    v.index > 0
  }

  /** `handleStoryClick(story, i)`: the strip renders story `i` with index `i`. */
  function HandleStoryClick(v: Viewer, story: Story, i: int): (r: Viewer)
    requires 0 <= i < |v.stories| && v.stories[i] == story
    ensures r.selected == Some(story) && r.index == i && r.stories == v.stories
  {
    v.(selected := Some(story), index := i)
  }

  /** `handleNext`: the following story, unless the open one is the last. */
  function HandleNext(v: Viewer): (r: Viewer)
    requires 0 <= v.index
    ensures HasNext(v) ==> r.index == v.index + 1 && r.selected == Some(v.stories[v.index + 1])
    ensures !HasNext(v) ==> r == v
    ensures r.stories == v.stories
  {
    if v.index < |v.stories| - 1 then v.(selected := Some(v.stories[v.index + 1]), index := v.index + 1) else v
  }

  /** `handlePrevious`: the preceding story, unless the open one is the first. */
  function HandlePrevious(v: Viewer): (r: Viewer)
    requires v.index <= |v.stories|
    ensures HasPrevious(v) ==> r.index == v.index - 1 && r.selected == Some(v.stories[v.index - 1])
    ensures !HasPrevious(v) ==> r == v
    ensures r.stories == v.stories
  {
    if v.index > 0 then v.(selected := Some(v.stories[v.index - 1]), index := v.index - 1) else v
  }

  /** `onClose`: the viewer disappears; the index is kept. */
  function Close(v: Viewer): (r: Viewer)
    ensures r.selected.None? && r.index == v.index && r.stories == v.stories
  {
    v.(selected := None)
  }

  /** The inner viewer's five-second timer: advance when there is a next story, close when
      there is not. */
  function TimerFired(v: Viewer): (r: Viewer)
    requires 0 <= v.index
    ensures HasNext(v) ==> r == HandleNext(v)
    ensures !HasNext(v) ==> r == Close(v)
    ensures r.stories == v.stories
  {
    if HasNext(v) then HandleNext(v) else Close(v)
  }

  /** What the user and the timer can do while the strip is shown. */
  datatype Event = Click(index: int) | NextStory | PreviousStory | CloseViewer | Timer

  /** The open story, if any, is the one at `index`, and `index` names a story whenever
      there is one. */
  predicate Consistent(v: Viewer)
  {
    && 0 <= v.index
    && (|v.stories| > 0 ==> v.index < |v.stories|)
    && (v.selected.Some? ==> v.index < |v.stories| && v.selected.value == v.stories[v.index])
  }

  /** One event. The arrows and the timer exist only while a story is open, and only
      rendered stories can be clicked; any other event leaves the state alone. */
  function Apply(v: Viewer, e: Event): (r: Viewer)
    requires Consistent(v)
    ensures Consistent(r)
    ensures r.stories == v.stories
  {
    match e
    case Click(i) => if 0 <= i < |v.stories| then HandleStoryClick(v, v.stories[i], i) else v
    case NextStory => if v.selected.Some? then HandleNext(v) else v
    case PreviousStory => if v.selected.Some? then HandlePrevious(v) else v
    case CloseViewer => Close(v)
    case Timer => if v.selected.Some? then TimerFired(v) else v
  }

  function Run(v: Viewer, events: seq<Event>): Viewer
    requires Consistent(v)
    decreases |events|
  {
    if |events| == 0 then v else Run(Apply(v, events[0]), events[1..])
  }

  /** From the freshly loaded strip, every sequence of events keeps the open story equal to
      `stories[index]` and the index inside the list. */
  lemma {:induction false} RunConsistent(v: Viewer, events: seq<Event>)
    requires Consistent(v)
    ensures Consistent(Run(v, events))
    decreases |events|
  {
    if |events| > 0 {
      RunConsistent(Apply(v, events[0]), events[1..]);
    }
  }

  /** Next then Previous from a story that has a successor returns to the same story. */
  lemma NextThenPrevious(v: Viewer)
    requires Consistent(v) && v.selected.Some? && HasNext(v)
    ensures HandlePrevious(HandleNext(v)) == v
  {
  }

  /** Previous then Next from a story that has a predecessor returns to the same story. */
  lemma PreviousThenNext(v: Viewer)
    requires Consistent(v) && v.selected.Some? && HasPrevious(v)
    ensures HandleNext(HandlePrevious(v)) == v
  {
  }
}

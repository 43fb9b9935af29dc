/** The full-screen story viewer for one user (src/components/StoryModal.tsx): a 30 ms
    interval fills a progress bar from 0 to 100, then moves to the user's next story or
    closes after the last; the arrows move by hand and reset the bar. */
module StoryModal {

  /** The viewer's state. `count` is `user.stories.length`; `closed` records that
      `onClose` was called. */
  datatype Modal = Modal(count: nat, index: int, progress: int, closed: bool)

  /** The bar is full at this value. */
  const Full := 100

  /** The viewer as it opens: first story, empty bar. */
  function Open(count: nat): (m: Modal)
    ensures m.index == 0 && m.progress == 0 && !m.closed && m.count == count
  {
    Modal(count, 0, 0, false)
  }

  /** One firing of the interval (the `setProgress` updater). */
  function Tick(m: Modal): (r: Modal)
    ensures m.progress < Full ==> r == m.(progress := m.progress + 1)
    ensures m.progress >= Full && m.index < m.count - 1 ==> r == m.(index := m.index + 1, progress := 0)
    ensures m.progress >= Full && m.index >= m.count - 1 ==> r == m.(closed := true)
  {
    if m.progress >= Full then
      if m.index < m.count - 1 then m.(index := m.index + 1, progress := 0)
      else m.(closed := true)
    else m.(progress := m.progress + 1)
  }

  /** The ← button: back one story with an empty bar, or nothing on the first story. */
  function HandlePrevious(m: Modal): (r: Modal)
    ensures m.index <= 0 ==> r == m
    ensures m.index > 0 ==> r.index == m.index - 1 && r.progress == 0
    ensures r.(index := m.index, progress := m.progress) == m
  {
    if m.index > 0 then m.(index := m.index - 1, progress := 0) else m
  }

  /** The → button: on to the next story with an empty bar, or close on the last. */
  function HandleNext(m: Modal): (r: Modal)
    ensures m.index < m.count - 1 ==> r == m.(index := m.index + 1, progress := 0)
    ensures m.index >= m.count - 1 ==> r == m.(closed := true)
  {
    if m.index < m.count - 1 then m.(index := m.index + 1, progress := 0) else m.(closed := true)
  }

  /** The bar stays within [0, 100] and the index names one of the user's stories. */
  predicate Valid(m: Modal)
  {
    0 <= m.progress <= Full && 0 <= m.index && (m.count > 0 ==> m.index < m.count)
  }

  datatype Event = IntervalTick | PreviousClicked | NextClicked

  function Apply(m: Modal, e: Event): Modal
  {
    match e
    case IntervalTick => Tick(m)
    case PreviousClicked => HandlePrevious(m)
    case NextClicked => HandleNext(m)
  }

  function Run(m: Modal, events: seq<Event>): Modal
    decreases |events|
  {
    if |events| == 0 then m else Run(Apply(m, events[0]), events[1..])
  }

  /** Every event keeps the viewer valid and never moves the index backwards except by ←. */
  lemma ApplyKeepsValid(m: Modal, e: Event)
    requires Valid(m)
    ensures Valid(Apply(m, e))
    ensures e != PreviousClicked ==> Apply(m, e).index >= m.index
  {
  }

  /** From an opened viewer, no sequence of ticks and clicks takes the bar outside
      [0, 100] or the index past the last story. */
  lemma {:induction false} RunKeepsValid(m: Modal, events: seq<Event>)
    requires Valid(m)
    ensures Valid(Run(m, events))
    decreases |events|
  {
    if |events| > 0 {
      ApplyKeepsValid(m, events[0]);
      RunKeepsValid(Apply(m, events[0]), events[1..]);
    }
  }

  /** `n` interval firings in a row. */
  function Ticks(m: Modal, n: nat): Modal
    decreases n
  {
    if n == 0 then m else Ticks(Tick(m), n - 1)
  }

  /** Below a full bar, `n` ticks that do not reach the top only fill the bar. */
  lemma {:induction false} TicksFill(m: Modal, n: nat)
    requires 0 <= m.progress && m.progress + n <= Full
    ensures Ticks(m, n) == m.(progress := m.progress + n)
    decreases n
  {
    if n > 0 {
      TicksFill(Tick(m), n - 1);
    }
  }

  /** A story is shown for exactly 101 ticks: 100 to fill the bar from empty and one more to
      move on (or to close after the last story). */
  lemma StoryLasts101Ticks(m: Modal)
    requires m.progress == 0
    ensures Ticks(m, Full) == m.(progress := Full)
    ensures m.index < m.count - 1 ==> Ticks(m, Full + 1) == m.(index := m.index + 1)
    ensures m.index >= m.count - 1 ==> Ticks(m, Full + 1) == m.(progress := Full, closed := true)
  {
    TicksFill(m, Full);
    assert Ticks(m, Full + 1) == Tick(Ticks(m, Full)) by {
      TicksSplit(m, Full);
    }
  }

  lemma {:induction false} TicksSplit(m: Modal, n: nat)
    ensures Ticks(m, n + 1) == Tick(Ticks(m, n))
    decreases n
  {
    if n > 0 {
      TicksSplit(Tick(m), n - 1);
    }
  }
}

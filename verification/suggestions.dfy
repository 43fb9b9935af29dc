/** The home page's side panel (src/components/Suggestions.tsx): the fetched suggestions and
    the line under each suggested user naming a mutual follower. */
module Suggestions {
  import opened Common
  import Text

  datatype Suggestion = Suggestion(id: UserId, username: string, name: Option<string>, image: Option<string>, mutualFollowers: seq<string>)

  datatype Panel = Panel(suggestions: seq<Suggestion>, loading: bool)

  /** The panel as it mounts: no suggestions, loading. */
  function Mounted(): (p: Panel)
    ensures p.loading && p.suggestions == []
  {
    Panel([], true)
  }

  /** How the suggestions request ended: a non-ok status (which the component throws on), a
      body, or a network or parse error. */
  datatype FetchResult = NotOk | Body(data: seq<Suggestion>) | Failed

  /** The fetch settled: only an ok body replaces the list; loading ends in every case. */
  function FetchSettled(p: Panel, res: FetchResult): (r: Panel)
    ensures !r.loading
    ensures res.Body? ==> r.suggestions == res.data
    ensures !res.Body? ==> r.suggestions == p.suggestions
  {
    match res
    case Body(data) => Panel(data, false)
    case _ => p.(loading := false)
  }

  /** The line under a suggested user: the first mutual follower, then " + {n - 1} more"
      when there are several, or "Suggested for you" when there is none. */
  function Label(s: Suggestion): (text: string)
    ensures |s.mutualFollowers| == 0 <==> text == "Suggested for you"
    ensures |s.mutualFollowers| > 0 ==> |"Followed by "| <= |text| && text[..|"Followed by "|] == "Followed by "
    ensures |s.mutualFollowers| == 1 ==> text == "Followed by " + s.mutualFollowers[0]
    ensures |s.mutualFollowers| > 1 ==>
      text == "Followed by " + s.mutualFollowers[0] + " + " + Text.NatToString(|s.mutualFollowers| - 1) + " more"
  {
    var n := |s.mutualFollowers|;
    if n == 0 then "Suggested for you"
    else
      var text := "Followed by " + s.mutualFollowers[0] + (if n > 1 then " + " + Text.NatToString(n - 1) + " more" else "");
      assert text[0] == 'F' != "Suggested for you"[0];
      text
  }

  /** With several mutual followers the label names the first one, and the slot between
      " + " and " more" holds only digits that read back as the number of mutual followers
      beyond the one named. */
  lemma LabelCountReadsBack(s: Suggestion)
    requires |s.mutualFollowers| > 1
    ensures var text := Label(s);
      var start := |"Followed by "| + |s.mutualFollowers[0]| + |" + "|;
      start <= |text| - |" more"| &&
      text[..|"Followed by "| + |s.mutualFollowers[0]|] == "Followed by " + s.mutualFollowers[0] &&
      (forall i :: start <= i < |text| - |" more"| ==> Text.IsDigit(text[i])) &&
      Text.ParseNat(text[start..|text| - |" more"|]) == |s.mutualFollowers| - 1
  {
    var n := |s.mutualFollowers|;
    var digits := Text.NatToString(n - 1);
    var text := Label(s);
    var head := "Followed by " + s.mutualFollowers[0];
    assert text == head + " + " + digits + " more";
    var start := |head| + |" + "|;
    assert text[start..|text| - |" more"|] == digits;
    assert text[..|head|] == head;
    Text.NatRoundTrip(n - 1);
  }

  /** What the suggestions block shows. */
  datatype Screen = Nothing | Loading | List(rows: seq<string>) | NoSuggestions

  function Labels(ss: seq<Suggestion>): (rows: seq<string>)
    ensures |rows| == |ss|
    ensures forall i :: 0 <= i < |ss| ==> rows[i] == Label(ss[i])
  {
    if |ss| == 0 then [] else [Label(ss[0])] + Labels(ss[1..])
  }

  function Render(p: Panel, session: Session): (s: Screen)
    ensures session.None? <==> s == Nothing
    ensures session.Some? && p.loading <==> s == Loading
    ensures s == NoSuggestions <==> session.Some? && !p.loading && |p.suggestions| == 0
    ensures s.List? <==> session.Some? && !p.loading && |p.suggestions| > 0
    ensures s.List? ==> s.rows == Labels(p.suggestions)
  {
    if session.None? then Nothing
    else if p.loading then Loading
    else if |p.suggestions| > 0 then List(Labels(p.suggestions))
    else NoSuggestions
  }

  /** Once signed in, a failed fetch on mount leaves "No suggestions" and never a spinner. */
  lemma FailedFetchShowsEmpty(user: UserId, res: FetchResult)
    requires !res.Body?
    ensures Render(FetchSettled(Mounted(), res), Some(user)) == NoSuggestions
  {
  }
}

/** Sequences of inbound events applied to the session one at a time, in
    the order the server's single event loop dispatches them, and what
    holds across such runs. */
module Runs {
  import Slides
  import opened Teams
  import opened Session

  /** Every inbound event that can change the session. `Reload` carries
      what the slides directory holds at the moment of the reload. */
  datatype Event =
    | Next
    | Prev
    | GoTo(index: int)
    | Reload(source: Slides.Listing)
    | AddScore(team: string, change: int)
    | ResetAll
    | Rename(team1Name: Option<string>, team2Name: Option<string>)
    | ShowScoreboard(visible: bool)
    | Configure(teams: TeamsField)

  predicate Allowed(s: State, e: Event) {
    e.Rename? ==> RenameAllowed(s, e.team1Name, e.team2Name)
  }

  function Step(s: State, e: Event): Transition
    requires Allowed(s, e)
  {
    match e
    case Next => NextSlide(s)
    case Prev => PrevSlide(s)
    case GoTo(i) => GoToSlide(s, i)
    case Reload(source) => ReloadSlides(s, source)
    case AddScore(team, change) => UpdateScore(s, team, change)
    case ResetAll => ResetScores(s)
    case Rename(n1, n2) => UpdateTeamNames(s, n1, n2)
    case ShowScoreboard(v) => ToggleScoreboard(s, v)
    case Configure(teams) => ConfigureTeams(s, teams).transition
  }

  /** Every event of the run is allowed in the state it meets. */
  predicate Runnable(s: State, events: seq<Event>)
    decreases |events|
  {
    |events| == 0 || (Allowed(s, events[0]) && Runnable(Step(s, events[0]).state, events[1..]))
  }

  function Run(s: State, events: seq<Event>): State
    requires Runnable(s, events)
    decreases |events|
  {
    if |events| == 0 then s else Run(Step(s, events[0]).state, events[1..])
  }

  /** No event breaks the index invariant. */
  lemma StepKeepsIndexInvariant(s: State, e: Event)
    requires IndexInvariant(s) && Allowed(s, e)
    ensures IndexInvariant(Step(s, e).state)
  {
  }

  /** Any run of events from a state that meets the index invariant keeps
      the index in [-1, len), apart from index 0 on an empty list. */
  lemma {:induction false} RunKeepsIndexInvariant(s: State, events: seq<Event>)
    requires IndexInvariant(s) && Runnable(s, events)
    ensures IndexInvariant(Run(s, events))
    decreases |events|
  {
    if |events| > 0 {
      StepKeepsIndexInvariant(s, events[0]);
      RunKeepsIndexInvariant(Step(s, events[0]).state, events[1..]);
    }
  }

  lemma ReachableKeepsIndexInvariant(source: Slides.Listing, events: seq<Event>)
    requires Runnable(Start(source), events)
    ensures IndexInvariant(Run(Start(source), events))
    ensures Run(Start(source), events).currentSlideIndex >= -1
  {
    RunKeepsIndexInvariant(Start(source), events);
  }

  predicate Navigation(e: Event) {
    e.Next? || e.Prev? || e.GoTo?
  }

  /** Navigation alone never leaves the slide list, never changes the list,
      the teams or the scoreboard flag. */
  lemma {:induction false} NavigationStaysOnSlides(s: State, events: seq<Event>)
    requires Showing(s)
    requires forall k :: 0 <= k < |events| ==> Navigation(events[k])
    ensures Runnable(s, events)
    ensures Showing(Run(s, events))
    ensures Run(s, events) == s.(currentSlideIndex := Run(s, events).currentSlideIndex)
    decreases |events|
  {
    if |events| > 0 {
      var s' := Step(s, events[0]).state;
      assert Showing(s');
      NavigationStaysOnSlides(s', events[1..]);
    }
  }

  /** The stuck index: once a reload finds no slide image (no directory,
      or no `.png` file in it) the index is -1, and later reloads keep it
      there even when slides come back. */
  lemma ReloadKeepsMinusOne(s: State, empty: Slides.Listing, refilled: Slides.Listing)
    requires IndexInvariant(s)
    requires empty.Directory? ==> forall k :: 0 <= k < |empty.names| ==> !Slides.IsPng(empty.names[k])
    ensures ReloadSlides(s, empty).state.slides == []
    ensures ReloadSlides(s, empty).state.currentSlideIndex == -1
    ensures ReloadSlides(ReloadSlides(s, empty).state, refilled).state.currentSlideIndex == -1
  {
  }

  /** Reloading the same directory twice is reloading it once. */
  lemma ReloadIdempotent(s: State, source: Slides.Listing)
    ensures ReloadSlides(ReloadSlides(s, source).state, source) == ReloadSlides(s, source)
  {
  }

  /** From the stuck index, `nextSlide` brings back the first slide (and
      `goToSlide` any slide), while `prevSlide` does nothing. */
  lemma MinusOneRecovery(s: State)
    requires s.currentSlideIndex == -1 && |s.slides| > 0
    ensures NextSlide(s).state.currentSlideIndex == 0 && Showing(NextSlide(s).state)
    ensures Ignored(s, PrevSlide(s))
  {
  }

  /** Advancing then stepping back returns to the same state, when the
      advance happened from a displayed slide. */
  lemma NextThenPrev(s: State)
    requires 0 <= s.currentSlideIndex < |s.slides| - 1
    ensures PrevSlide(NextSlide(s).state).state == s
  {
  }

  lemma PrevThenNext(s: State)
    requires IndexInvariant(s) && s.currentSlideIndex > 0
    ensures NextSlide(PrevSlide(s).state).state == s
  {
  }

  function Sum(deltas: seq<int>): int {
    if |deltas| == 0 then 0 else deltas[0] + Sum(deltas[1..])
  }

  function ScoreEvents(team: string, deltas: seq<int>): (r: seq<Event>)
    ensures |r| == |deltas|
    ensures forall k :: 0 <= k < |r| ==> r[k] == AddScore(team, deltas[k])
  {
    seq(|deltas|, k requires 0 <= k < |deltas| => AddScore(team, deltas[k]))
  }

  lemma ScoreEventsRunnable(s: State, team: string, deltas: seq<int>)
    ensures Runnable(s, ScoreEvents(team, deltas))
    decreases |deltas|
  {
    if |deltas| > 0 {
      assert ScoreEvents(team, deltas)[1..] == ScoreEvents(team, deltas[1..]);
      ScoreEventsRunnable(Step(s, AddScore(team, deltas[0])).state, team, deltas[1..]);
    }
  }

  /** Score changes accumulate: a run of `updateScore` events on one known
      team adds their sum to its score, with no floor, and touches nothing
      else. */
  lemma {:induction false} ScoresAccumulate(s: State, team: string, deltas: seq<int>)
    requires team in s.teamScores
    ensures Runnable(s, ScoreEvents(team, deltas))
    ensures Run(s, ScoreEvents(team, deltas)).teamScores.Keys == s.teamScores.Keys
    ensures Run(s, ScoreEvents(team, deltas)).teamScores[team]
      == Team(s.teamScores[team].name, s.teamScores[team].score + Sum(deltas))
    ensures forall id :: id in s.teamScores && id != team ==>
      Run(s, ScoreEvents(team, deltas)).teamScores[id] == s.teamScores[id]
    ensures Run(s, ScoreEvents(team, deltas)) == s.(teamScores := Run(s, ScoreEvents(team, deltas)).teamScores)
    decreases |deltas|
  {
    ScoreEventsRunnable(s, team, deltas);
    if |deltas| > 0 {
      var events := ScoreEvents(team, deltas);
      assert events[1..] == ScoreEvents(team, deltas[1..]);
      var s' := UpdateScore(s, team, deltas[0]).state;
      assert Run(s, events) == Run(s', events[1..]);
      ScoresAccumulate(s', team, deltas[1..]);
    }
  }

  /** Two score sequences applied to a zero score: +5, -3, +2 gives 4, and
      +2, -10 gives the negative score -8. */
  lemma ScoreExamples(s: State, team: string)
    requires team in s.teamScores && s.teamScores[team].score == 0
    ensures Runnable(s, ScoreEvents(team, [5, -3, 2]))
      && team in Run(s, ScoreEvents(team, [5, -3, 2])).teamScores
      && Run(s, ScoreEvents(team, [5, -3, 2])).teamScores[team].score == 4
    ensures Runnable(s, ScoreEvents(team, [2, -10]))
      && team in Run(s, ScoreEvents(team, [2, -10])).teamScores
      && Run(s, ScoreEvents(team, [2, -10])).teamScores[team].score == -8
  {
    ScoresAccumulate(s, team, [5, -3, 2]);
    ScoresAccumulate(s, team, [2, -10]);
  }

  /** A score change is undone by the opposite change. */
  lemma ScoreChangeUndone(s: State, team: string, change: int)
    ensures UpdateScore(UpdateScore(s, team, change).state, team, -change).state == s
  {
    if team in s.teamScores {
      var t := s.teamScores[team];
      assert s.teamScores[team := t] == s.teamScores;
    }
  }

  /** Resetting twice is resetting once, and a reset forgets every earlier
      score change. */
  lemma ResetIdempotent(s: State)
    ensures ResetScores(ResetScores(s).state) == ResetScores(s)
  {
    var once := ResetScores(s).state;
    assert ResetScores(once).state.teamScores == once.teamScores;
  }

  lemma ResetForgetsScoreChanges(s: State, team: string, change: int)
    ensures ResetScores(UpdateScore(s, team, change).state) == ResetScores(s)
  {
    var a := ResetScores(UpdateScore(s, team, change).state).state.teamScores;
    var b := ResetScores(s).state.teamScores;
    assert a == b;
  }

  /** Sending the same names twice is sending them once. */
  lemma RenameIdempotent(s: State, team1Name: Option<string>, team2Name: Option<string>)
    requires RenameAllowed(s, team1Name, team2Name)
    ensures RenameAllowed(UpdateTeamNames(s, team1Name, team2Name).state, team1Name, team2Name)
    ensures UpdateTeamNames(UpdateTeamNames(s, team1Name, team2Name).state, team1Name, team2Name)
      == UpdateTeamNames(s, team1Name, team2Name)
  {
    var once := UpdateTeamNames(s, team1Name, team2Name).state;
    var twice := UpdateTeamNames(once, team1Name, team2Name).state;
    forall id | id in once.teamScores ensures twice.teamScores[id] == once.teamScores[id] {
    }
    assert twice.teamScores == once.teamScores;
  }

  /** Configuring the example pair of teams drops the placeholder teams and
      starts the team given without a score at zero. */
  lemma ConfigureExample(s: State)
    ensures var entries := [TeamEntry("teamA", "Red", Some(10)), TeamEntry("teamB", "Blue", None)];
      var r := ConfigureTeams(s, Entries(entries));
      && r.response == Accepted
      && r.transition.state.teamScores == map["teamA" := Team("Red", 10), "teamB" := Team("Blue", 0)]
      && "team1" !in r.transition.state.teamScores
  {
    var entries := [TeamEntry("teamA", "Red", Some(10)), TeamEntry("teamB", "Blue", None)];
    assert LastWithId(entries, 0) && LastWithId(entries, 1);
    assert Ids(entries) == {"teamA", "teamB"} by {
      assert entries[0].id == "teamA" && entries[1].id == "teamB";
    }
  }

  /** A body without a `teams` array changes nothing and gets a 400. */
  lemma ConfigureRejectsEmptyBody(s: State)
    ensures ConfigureTeams(s, Missing).response.Rejected?
    ensures ConfigureTeams(s, Missing).response.status == 400
    ensures ConfigureTeams(s, Missing).transition.state == s
  {
  }

  /** The scoreboard flag is whatever the last toggle said, and a party
      connecting afterwards is told that value at once. */
  lemma NewPartySeesScoreboard(s: State, first: bool, last: bool)
    ensures ToggleScoreboard(ToggleScoreboard(s, first).state, last).state == ToggleScoreboard(s, last).state
    ensures Connect(ToggleScoreboard(s, last).state)[2] == ScoreboardVisibility(last)
  {
  }

  /** What a connected party holds: the last slide update, team table and
      scoreboard message it received, in the slots `Connect` fills. */
  function Receive(view: seq<Msg>, m: Msg): (r: seq<Msg>)
    requires |view| == 3
    ensures |r| == 3
  {
    match m
    case SlideUpdate(_, _, _) => view[0 := m]
    case ScoreUpdate(_) => view[1 := m]
    case ScoreboardVisibility(_) => view[2 := m]
  }

  function ReceiveAll(view: seq<Msg>, ms: seq<Msg>): (r: seq<Msg>)
    requires |view| == 3
    ensures |r| == 3
    decreases |ms|
  {
    if |ms| == 0 then view else ReceiveAll(Receive(view, ms[0]), ms[1..])
  }

  lemma {:induction false} ReceiveAllConcat(view: seq<Msg>, a: seq<Msg>, b: seq<Msg>)
    requires |view| == 3
    ensures ReceiveAll(view, a + b) == ReceiveAll(ReceiveAll(view, a), b)
    decreases |a|
  {
    if |a| > 0 {
      assert (a + b)[1..] == a[1..] + b;
      ReceiveAllConcat(Receive(view, a[0]), a[1..], b);
    } else {
      assert a + b == b;
    }
  }

  /** Everything a run broadcasts, event by event. */
  function Broadcasts(s: State, events: seq<Event>): seq<Msg>
    requires Runnable(s, events)
    decreases |events|
  {
    if |events| == 0 then []
    else Step(s, events[0]).broadcast + Broadcasts(Step(s, events[0]).state, events[1..])
  }

  /** A party that holds the server's state and receives one event's
      broadcast holds the state after that event. */
  lemma StepKeepsPartyInSync(s: State, e: Event)
    requires Allowed(s, e)
    ensures ReceiveAll(Connect(s), Step(s, e).broadcast) == Connect(Step(s, e).state)
  {
    var t := Step(s, e);
    if t.broadcast != [] {
      assert t.broadcast[1..] == [];
    }
  }

  /** A party that connected before a run and received every broadcast of
      it holds exactly what a party connecting after the run is sent. */
  lemma {:induction false} PartyStaysInSync(s: State, events: seq<Event>)
    requires Runnable(s, events)
    ensures ReceiveAll(Connect(s), Broadcasts(s, events)) == Connect(Run(s, events))
    decreases |events|
  {
    if |events| > 0 {
      var t := Step(s, events[0]);
      StepKeepsPartyInSync(s, events[0]);
      ReceiveAllConcat(Connect(s), t.broadcast, Broadcasts(t.state, events[1..]));
      PartyStaysInSync(t.state, events[1..]);
    }
  }
}

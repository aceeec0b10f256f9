/** The one presentation session the server keeps in memory, and every
    inbound event as a transition on it. A transition returns the new
    state and the messages broadcast to all connected parties; a rejected
    or out-of-range event is a silent no-op that broadcasts nothing. */
module Session {
  import Slides
  import opened Teams

  datatype State = State(
    currentSlideIndex: int,
    slides: seq<string>,
    teamScores: TeamMap,
    scoreboardVisible: bool)

  /** Server-to-party events of the real-time channel. */
  datatype Msg =
    | SlideUpdate(currentIndex: int, slides: seq<string>, total: int)
    | ScoreUpdate(teams: TeamMap)
    | ScoreboardVisibility(visible: bool)

  /** The state after an event and what it broadcasts, in order. */
  datatype Transition = Transition(state: State, broadcast: seq<Msg>)

  /** The body of a `POST /api/configure-teams` request, as far as the
      handler looks at it: the `teams` field is absent, is something other
      than an array, or is an array of entries. */
  datatype TeamsField = Missing | NotAnArray | Entries(entries: seq<TeamEntry>)

  /** HTTP answer to configure-teams: `{success: true}`, or a failure with
      a status code and an error text. */
  datatype Response = Accepted | Rejected(status: int, error: string)

  datatype HttpOutcome = HttpOutcome(transition: Transition, response: Response)

  const BadRequest: int := 400
  const InvalidTeams: string := "Invalid teams data"

  function SlideState(s: State): Msg {
    SlideUpdate(s.currentSlideIndex, s.slides, |s.slides|)
  }

  /** The event left the session as it was and told nobody. */
  predicate Ignored(s: State, t: Transition) {
    t.state == s && t.broadcast == []
  }

  /** What holds of the slide index in every state the server can reach:
      never below -1, and inside the list except for index 0 on an empty
      list, which is how the server starts when no slide exists. */
  predicate IndexInvariant(s: State) {
    -1 <= s.currentSlideIndex && (s.currentSlideIndex < |s.slides| || s.currentSlideIndex == 0)
  }

  /** A slide is on screen: the index points into a non-empty list. */
  predicate Showing(s: State) {
    0 <= s.currentSlideIndex < |s.slides|
  }

  /** Process start: slides loaded from the directory, index 0 even when
      no slide was found, two placeholder teams at zero, scoreboard hidden. */
  function Start(source: Slides.Listing): (s: State)
    ensures s.slides == Slides.LoadSlides(source)
    ensures s.currentSlideIndex == 0 && IndexInvariant(s)
    ensures |s.slides| > 0 ==> Showing(s)
    ensures s.teamScores.Keys == {"team1", "team2"}
    ensures s.teamScores["team1"] == Team("Team 1", 0) && s.teamScores["team2"] == Team("Team 2", 0)
    ensures !s.scoreboardVisible
  {
    var teams := DefaultTeams;
    assert teams.Keys == {"team1", "team2"};
    State(0, Slides.LoadSlides(source), teams, false)
  }

  /** A new connection is sent the whole current state, to it alone. */
  function Connect(s: State): (r: seq<Msg>)
    ensures |r| == 3
    ensures r[0].SlideUpdate? && r[0].currentIndex == s.currentSlideIndex
      && r[0].slides == s.slides && r[0].total == |s.slides|
    ensures r[1] == ScoreUpdate(s.teamScores)
    ensures r[2] == ScoreboardVisibility(s.scoreboardVisible)
  {
    [SlideState(s), ScoreUpdate(s.teamScores), ScoreboardVisibility(s.scoreboardVisible)]
  }

  /** `nextSlide`: advance unless already at (or past) the last slide. */
  function NextSlide(s: State): (r: Transition)
    ensures r.state.currentSlideIndex == s.currentSlideIndex + 1 <==> s.currentSlideIndex < |s.slides| - 1
    ensures r.state.currentSlideIndex != s.currentSlideIndex + 1 ==> Ignored(s, r)
    ensures r.state.currentSlideIndex == s.currentSlideIndex + 1 ==> r.broadcast == [SlideState(r.state)]
    ensures r.state == s.(currentSlideIndex := r.state.currentSlideIndex)
    ensures IndexInvariant(s) ==> IndexInvariant(r.state)
    ensures IndexInvariant(s) && r.state.currentSlideIndex != s.currentSlideIndex ==> Showing(r.state)
  {
    if s.currentSlideIndex < |s.slides| - 1 then
      var s' := s.(currentSlideIndex := s.currentSlideIndex + 1);
      Transition(s', [SlideState(s')])
    else
      Transition(s, [])
  }

  /** `prevSlide`: step back unless at (or before) the first slide. */
  function PrevSlide(s: State): (r: Transition)
    ensures r.state.currentSlideIndex == s.currentSlideIndex - 1 <==> s.currentSlideIndex > 0
    ensures r.state.currentSlideIndex != s.currentSlideIndex - 1 ==> Ignored(s, r)
    ensures r.state.currentSlideIndex == s.currentSlideIndex - 1 ==> r.broadcast == [SlideState(r.state)]
    ensures r.state == s.(currentSlideIndex := r.state.currentSlideIndex)
    ensures IndexInvariant(s) ==> IndexInvariant(r.state)
    ensures IndexInvariant(s) && r.state.currentSlideIndex != s.currentSlideIndex ==> Showing(r.state)
  {
    if s.currentSlideIndex > 0 then
      var s' := s.(currentSlideIndex := s.currentSlideIndex - 1);
      Transition(s', [SlideState(s')])
    else
      Transition(s, [])
  }

  /** `goToSlide(index)`: jump to an index inside the list, ignore any other. */
  function GoToSlide(s: State, index: int): (r: Transition)
    ensures Showing(r.state) && r.state.currentSlideIndex == index <==> 0 <= index < |s.slides|
    ensures !(0 <= index < |s.slides|) ==> Ignored(s, r)
    ensures 0 <= index < |s.slides| ==> r.broadcast == [SlideState(r.state)]
    ensures r.state == s.(currentSlideIndex := r.state.currentSlideIndex)
    ensures IndexInvariant(s) ==> IndexInvariant(r.state)
  {
    if 0 <= index && index < |s.slides| then
      var s' := s.(currentSlideIndex := index);
      Transition(s', [SlideState(s')])
    else
      Transition(s, [])
  }

  /** `reloadSlides`: read the directory again and pull the index back to
      the new last slide when it would point past it. An empty directory
      leaves the index at -1, and an index of -1 stays -1 on any reload. */
  function ReloadSlides(s: State, source: Slides.Listing): (r: Transition)
    ensures r.state.slides == Slides.LoadSlides(source)
    ensures r.state.currentSlideIndex < |r.state.slides|
    ensures r.state.currentSlideIndex <= s.currentSlideIndex
    ensures r.state.currentSlideIndex == s.currentSlideIndex
      || r.state.currentSlideIndex == |r.state.slides| - 1
    ensures s.currentSlideIndex >= -1 ==> r.state.currentSlideIndex >= -1
    ensures r.state.teamScores == s.teamScores && r.state.scoreboardVisible == s.scoreboardVisible
    ensures r.broadcast == [SlideState(r.state)]
    ensures IndexInvariant(s) ==> IndexInvariant(r.state)
  {
    var slides := Slides.LoadSlides(source);
    var index := if s.currentSlideIndex < |slides| - 1 then s.currentSlideIndex else |slides| - 1;
    var s' := s.(slides := slides, currentSlideIndex := index);
    Transition(s', [SlideState(s')])
  }

  /** `updateScore {team, change}`: add `change` to a known team's score,
      with no lower bound; an unknown team id is ignored. */
  function UpdateScore(s: State, team: string, change: int): (r: Transition)
    ensures team !in s.teamScores ==> Ignored(s, r)
    ensures team in s.teamScores ==>
      && r.state.teamScores.Keys == s.teamScores.Keys
      && r.state.teamScores[team].score == s.teamScores[team].score + change
      && r.state.teamScores[team].name == s.teamScores[team].name
      && r.broadcast == [ScoreUpdate(r.state.teamScores)]
    ensures forall id :: id in s.teamScores && id != team ==>
      id in r.state.teamScores && r.state.teamScores[id] == s.teamScores[id]
    ensures r.state == s.(teamScores := r.state.teamScores)
  {
    if team in s.teamScores then
      var t := s.teamScores[team];
      var s' := s.(teamScores := s.teamScores[team := t.(score := t.score + change)]);
      Transition(s', [ScoreUpdate(s'.teamScores)])
    else
      Transition(s, [])
  }

  /** `resetScores`: every configured team back to zero, names kept. */
  function ResetScores(s: State): (r: Transition)
    ensures r.state.teamScores.Keys == s.teamScores.Keys
    ensures forall id :: id in s.teamScores ==>
      r.state.teamScores[id] == Team(s.teamScores[id].name, 0)
    ensures r.state == s.(teamScores := r.state.teamScores)
    ensures r.broadcast == [ScoreUpdate(r.state.teamScores)]
  {
    var zeroed := map id | id in s.teamScores :: s.teamScores[id].(score := 0);
    var s' := s.(teamScores := zeroed);
    Transition(s', [ScoreUpdate(zeroed)])
  }

  /** A name field counts only when it is present and not empty. */
  predicate Given(name: Option<string>) {
    name.Some? && name.value != ""
  }

  /** The handler dereferences `team1` (`team2`) only when a new name for
      it is given; the source does not guard that access. */
  predicate RenameAllowed(s: State, team1Name: Option<string>, team2Name: Option<string>) {
    (Given(team1Name) ==> "team1" in s.teamScores) && (Given(team2Name) ==> "team2" in s.teamScores)
  }

  function Renamed(t: Team, name: Option<string>): Team {
    if Given(name) then t.(name := name.value) else t
  }

  /** `updateTeamNames {team1Name?, team2Name?}`: rename `team1` and
      `team2` when a non-empty name is given for them; always broadcast. */
  function UpdateTeamNames(s: State, team1Name: Option<string>, team2Name: Option<string>): (r: Transition)
    requires RenameAllowed(s, team1Name, team2Name)
    ensures r.state.teamScores.Keys == s.teamScores.Keys
    ensures forall id :: id in s.teamScores ==> r.state.teamScores[id].score == s.teamScores[id].score
    ensures forall id :: id in s.teamScores && id != "team1" && id != "team2" ==>
      r.state.teamScores[id] == s.teamScores[id]
    ensures "team1" in s.teamScores ==>
      r.state.teamScores["team1"].name == if Given(team1Name) then team1Name.value else s.teamScores["team1"].name
    ensures "team2" in s.teamScores ==>
      r.state.teamScores["team2"].name == if Given(team2Name) then team2Name.value else s.teamScores["team2"].name
    ensures r.state == s.(teamScores := r.state.teamScores)
    ensures r.broadcast == [ScoreUpdate(r.state.teamScores)]
  {
    var afterFirst :=
      if Given(team1Name) then s.teamScores["team1" := Renamed(s.teamScores["team1"], team1Name)]
      else s.teamScores;
    var afterSecond :=
      if Given(team2Name) then afterFirst["team2" := Renamed(afterFirst["team2"], team2Name)]
      else afterFirst;
    var s' := s.(teamScores := afterSecond);
    Transition(s', [ScoreUpdate(afterSecond)])
  }

  /** `toggleScoreboard {visible}`: set the flag to the given value and
      broadcast it. */
  function ToggleScoreboard(s: State, visible: bool): (r: Transition)
    ensures r.state.scoreboardVisible == visible
    ensures r.state == s.(scoreboardVisible := visible)
    ensures r.broadcast == [ScoreboardVisibility(visible)]
  {
    var s' := s.(scoreboardVisible := visible);
    Transition(s', [ScoreboardVisibility(visible)])
  }

  /** `POST /api/configure-teams`: reject a body without a `teams` array
      with 400 and change nothing; otherwise replace the whole team table
      by the supplied entries and broadcast it. */
  function ConfigureTeams(s: State, teams: TeamsField): (r: HttpOutcome)
    ensures !teams.Entries? ==>
      Ignored(s, r.transition) && r.response == Rejected(BadRequest, InvalidTeams)
    ensures teams.Entries? ==>
      && r.response == Accepted
      && r.transition.state.teamScores.Keys == Ids(teams.entries)
      && (forall i :: 0 <= i < |teams.entries| && LastWithId(teams.entries, i) ==>
            r.transition.state.teamScores[teams.entries[i].id] == EntryTeam(teams.entries[i]))
      && r.transition.broadcast == [ScoreUpdate(r.transition.state.teamScores)]
    ensures r.transition.state == s.(teamScores := r.transition.state.teamScores)
  {
    match teams
    case Entries(entries) =>
      var s' := s.(teamScores := BuildTeams(entries));
      HttpOutcome(Transition(s', [ScoreUpdate(s'.teamScores)]), Accepted)
    case _ =>
      HttpOutcome(Transition(s, []), Rejected(BadRequest, InvalidTeams))
  }
}

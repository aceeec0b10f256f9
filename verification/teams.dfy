/** Teams and their scores: the default two-team table the server starts
    with, and the table `POST /api/configure-teams` builds from its
    `teams` array. */
module Teams {

  datatype Option<+T> = None | Some(value: T)

  /** One scoreboard entry: the display name and the current score. */
  datatype Team = Team(name: string, score: int)

  /** Team id to team, the `teamScores` object. */
  type TeamMap = map<string, Team>

  const DefaultTeams: TeamMap := map["team1" := Team("Team 1", 0), "team2" := Team("Team 2", 0)]

  /** One element of the `teams` array: `{id, name, score?}`. */
  datatype TeamEntry = TeamEntry(id: string, name: string, score: Option<int>)

  /** `team.score || 0`: an absent score starts at zero. */
  function StartingScore(score: Option<int>): int {
    match score
    case None => 0
    case Some(v) => v
  }

  function EntryTeam(e: TeamEntry): Team {
    Team(e.name, StartingScore(e.score))
  }

  function Ids(entries: seq<TeamEntry>): set<string> {
    set i | 0 <= i < |entries| :: entries[i].id
  }

  /** No later entry carries the same id as entry `i`. */
  ghost predicate LastWithId(entries: seq<TeamEntry>, i: int)
    requires 0 <= i < |entries|
  {
    forall j :: i < j < |entries| ==> entries[j].id != entries[i].id
  }

  /** The `forEach` of configure-teams: each entry in turn overwrites the
      slot for its id, so the table holds exactly the supplied ids and, for
      an id given more than once, the last entry with it. */
  function BuildTeams(entries: seq<TeamEntry>): (r: TeamMap)
    ensures r.Keys == Ids(entries)
    ensures forall i :: 0 <= i < |entries| && LastWithId(entries, i) ==>
      r[entries[i].id] == EntryTeam(entries[i])
  {
    if |entries| == 0 then map[]
    else
      var n := |entries| - 1;
      var prior := BuildTeams(entries[..n]);
      IdsOfSnoc(entries);
      LastInFront(entries);
      prior[entries[n].id := EntryTeam(entries[n])]
  }

  lemma IdsOfSnoc(entries: seq<TeamEntry>)
    requires |entries| > 0
    ensures Ids(entries) == Ids(entries[..|entries| - 1]) + {entries[|entries| - 1].id}
  {
    var n := |entries| - 1;
    var front := entries[..n];
    forall id | id in Ids(entries) ensures id in Ids(front) + {entries[n].id} {
      var i :| 0 <= i < |entries| && entries[i].id == id;
      if i < n {
        assert front[i] == entries[i];
      }
    }
  }

  /** An entry that is last for its id in the whole array, and is not the
      final entry, is also last for its id among the entries before the final one. */
  lemma LastInFront(entries: seq<TeamEntry>)
    requires |entries| > 0
    ensures forall i :: 0 <= i < |entries| - 1 && LastWithId(entries, i) ==>
      LastWithId(entries[..|entries| - 1], i) && entries[i].id != entries[|entries| - 1].id
  {
    var n := |entries| - 1;
    var front := entries[..n];
    forall i | 0 <= i < n && LastWithId(entries, i)
      ensures LastWithId(front, i)
    {
      forall j | i < j < |front| ensures front[j].id != front[i].id {
        assert front[j] == entries[j];
      }
    }
  }

  /** Every supplied id has a last entry. */
  lemma {:induction false} LastEntryExists(entries: seq<TeamEntry>, id: string)
    requires id in Ids(entries)
    ensures exists i :: 0 <= i < |entries| && entries[i].id == id && LastWithId(entries, i)
  {
    var n := |entries| - 1;
    if entries[n].id != id {
      var front := entries[..n];
      var k :| 0 <= k < |entries| && entries[k].id == id;
      assert front[k] == entries[k];
      LastEntryExists(front, id);
      var i :| 0 <= i < |front| && front[i].id == id && LastWithId(front, i);
      assert entries[i] == front[i];
      assert LastWithId(entries, i) by {
        forall j | i < j < |entries| ensures entries[j].id != entries[i].id {
          if j < n {
            assert entries[j] == front[j];
          }
        }
      }
    } else {
      assert LastWithId(entries, n);
    }
  }

  /** The contract of `BuildTeams` is a full description of the table:
      any map with those keys and those last-entry values is the same map. */
  lemma BuildTeamsDetermined(entries: seq<TeamEntry>, m: TeamMap)
    requires m.Keys == Ids(entries)
    requires forall i :: 0 <= i < |entries| && LastWithId(entries, i) ==>
      m[entries[i].id] == EntryTeam(entries[i])
    ensures m == BuildTeams(entries)
  {
    var r := BuildTeams(entries);
    forall id | id in m ensures m[id] == r[id] {
      LastEntryExists(entries, id);
      var i :| 0 <= i < |entries| && entries[i].id == id && LastWithId(entries, i);
      assert m[id] == EntryTeam(entries[i]) == r[id];
    }
    assert m.Keys == r.Keys;
  }
}

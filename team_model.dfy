/** The team table and its default: when the table is empty at start-up, one team named
    "Endexa Admins" is created; otherwise nothing changes. */
module TeamModel {

  datatype TeamRow = TeamRow(id: string, name: string)

  const DefaultTeamName := "Endexa Admins"

  /** The teams after start-up, given the id the store would generate. */
  function InitTeams(teams: seq<TeamRow>, freshId: string): (r: seq<TeamRow>)
    ensures |r| >= 1
    ensures teams == [] ==> r == [TeamRow(freshId, DefaultTeamName)]
    ensures teams != [] ==> r == teams
  {
    if |teams| < 1 then [TeamRow(freshId, DefaultTeamName)] else teams
  }

  /** Starting twice creates at most one default team, whatever ids are generated. */
  lemma InitTeamsIdempotent(teams: seq<TeamRow>, freshId: string, freshId': string)
    ensures InitTeams(InitTeams(teams, freshId), freshId') == InitTeams(teams, freshId)
  {
  }

  class TeamTable {
    var rows: seq<TeamRow>

    constructor (rows: seq<TeamRow>)
      ensures this.rows == rows
    {
      this.rows := rows;
    }

    /** `initTeamModel`: counts the teams and creates the default one when there are none. */
    method InitTeamModel(freshId: string)
      modifies this
      ensures rows == InitTeams(old(rows), freshId)
    {
      var count := |rows|;
      if count < 1 {
        rows := rows + [TeamRow(freshId, DefaultTeamName)];
      }
    }
  }
}

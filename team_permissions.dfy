/** The team permissions: a constant table from permission id to description, seeded into
    the team permission table. */
module TeamPermissions {
  import Seqs
  import opened Seeding

  const TeamPermissionTable: seq<(string, string)> := [
    ("CAN_ADD_TEAM_MEMBER", "Can add new team members."),
    ("CAN_REMOVE_TEAM_MEMBER", "Can remove team members."),
    ("CAN_ADD_TEAM_MANAGER", "Can add new team manager."),
    ("CAN_REMOVE_TEAM_MANAGER", "Can remove a team manager."),
    ("CAN_ADD_TEAM_OWNER", "Can add new team owner."),
    ("CAN_REMOVE_TEAM_OWNER", "Can remove a team owner."),
    ("CAN_CREATE_NEW_PROJECT", "Can create a new project."),
    ("CAN_CHANGE_TEAM_SETTINGS", "Can change team settings.")
  ]

  /** The permission ids. */
  function Ids(): (ids: seq<string>)
    ensures |ids| == 8 && Seqs.Distinct(ids)
    ensures forall i :: 0 <= i < 8 ==> ids[i] == TeamPermissionTable[i].0
  {
    seq(|TeamPermissionTable|, i requires 0 <= i < |TeamPermissionTable| => TeamPermissionTable[i].0)
  }

  /** `initTeamPermissionsModel`: seeds one row per permission. */
  method InitTeamPermissionsModel(table: PermissionTable)
    modifies table
    ensures table.rows == InsertIgnore(old(table.rows), PermissionRecords(TeamPermissionTable), PermissionKey)
  {
    table.Seed(TeamPermissionTable);
  }

  /** Seeding an empty table stores the eight permissions, each with its description;
      seeding again changes nothing. */
  lemma SeedTeamPermissions(rows: seq<Permission>)
    ensures InsertIgnore([], PermissionRecords(TeamPermissionTable), PermissionKey)
            == PermissionRecords(TeamPermissionTable)
    ensures |PermissionRecords(TeamPermissionTable)| == 8
    ensures var once := InsertIgnore(rows, PermissionRecords(TeamPermissionTable), PermissionKey);
            InsertIgnore(once, PermissionRecords(TeamPermissionTable), PermissionKey) == once
  {
    var ids := Ids();
    SeedEmptyPermissions(TeamPermissionTable);
    InsertIgnoreIdempotent(rows, PermissionRecords(TeamPermissionTable), PermissionKey);
  }
}

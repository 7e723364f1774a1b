/** The team roles: a constant table of three roles and their permissions, seeded into the
    team role table, and one team role-permission record per permission of each stored
    role. Here the record columns and the table's key columns agree. */
module TeamRoles {
  import opened Seeding
  import TeamPermissions

  const Member := "Member"
  const Manager := "Manager"
  const Admin := "Admin"

  const MemberPermissions: seq<string> := []

  const ManagerPermissions: seq<string> := [
    "CAN_ADD_TEAM_MEMBER",
    "CAN_REMOVE_TEAM_MEMBER",
    "CAN_CREATE_NEW_PROJECT",
    "CAN_CHANGE_TEAM_SETTINGS"
  ]

  const AdminPermissions: seq<string> := [
    "CAN_ADD_TEAM_MEMBER",
    "CAN_REMOVE_TEAM_MEMBER",
    "CAN_ADD_TEAM_MANAGER",
    "CAN_REMOVE_TEAM_MANAGER",
    "CAN_ADD_TEAM_OWNER",
    "CAN_REMOVE_TEAM_OWNER",
    "CAN_CREATE_NEW_PROJECT",
    "CAN_CHANGE_TEAM_SETTINGS"
  ]

  const TeamRolesTable: seq<RoleSpec> := [
    RoleSpec(Member, MemberPermissions),
    RoleSpec(Manager, ManagerPermissions),
    RoleSpec(Admin, AdminPermissions)
  ]

  /** The key columns of the team role-permission table, which the reduce also uses. */
  const RoleColumn := "teamRoleId"
  const PermissionColumn := "teamPermissionId"

  /** `initTeamRoleModel`: inserts the three roles (skipping labels already stored), then
      the records the reduce builds from every stored role row. */
  method InitTeamRoleModel(tables: RoleTables, freshIds: seq<string>)
    requires |freshIds| == |TeamRolesTable|
    requires tables.roleColumn == RoleColumn && tables.permissionColumn == PermissionColumn
    modifies tables
    ensures tables.roles == InsertIgnore(old(tables.roles), NewRoles(TeamRolesTable, freshIds), RoleKey)
    ensures tables.grants == InsertIgnore(old(tables.grants),
              StoredAll(ToInsert(TeamRolesTable, RoleColumn, PermissionColumn, tables.roles), RoleColumn, PermissionColumn),
              GrantKey)
  {
    tables.Seed(TeamRolesTable, RoleColumn, PermissionColumn, freshIds);
  }

  /** The permissions a stored role row receives: those of its label in the table, and
      none for a label the table does not know. */
  lemma TeamRolePermissions(id: string, name: string)
    ensures PermissionsOf(TeamRolesTable, RoleRow(id, name)) ==
              if name == Manager then ManagerPermissions
              else if name == Admin then AdminPermissions
              else []
  {
    var named := SpecsNamed(TeamRolesTable, name);
    if named != [] {
      assert named[0] in named;
    }
    if name in {Member, Manager, Admin} {
      assert TeamRolesTable[if name == Member then 0 else if name == Manager then 1 else 2] in named;
    }
  }

  /** An Admin can do everything a Manager can, and more. */
  lemma AdminSubsumesManager(p: string)
    ensures p in ManagerPermissions ==> p in AdminPermissions
    ensures "CAN_ADD_TEAM_MANAGER" in AdminPermissions && "CAN_ADD_TEAM_MANAGER" !in ManagerPermissions
  {
  }

  /** Every permission a role is given is a key of the team permission table. */
  lemma RolePermissionsAreKnown(i: nat, p: string)
    requires i < |TeamRolesTable| && p in TeamRolesTable[i].permissions
    ensures p in TeamPermissions.Ids()
  {
    var ids := TeamPermissions.Ids();
    assert ids == [
      "CAN_ADD_TEAM_MEMBER", "CAN_REMOVE_TEAM_MEMBER", "CAN_ADD_TEAM_MANAGER", "CAN_REMOVE_TEAM_MANAGER",
      "CAN_ADD_TEAM_OWNER", "CAN_REMOVE_TEAM_OWNER", "CAN_CREATE_NEW_PROJECT", "CAN_CHANGE_TEAM_SETTINGS"
    ];
  }

  /** The rows stored for the team table are exactly the pairs of a stored role's id and
      one of its label's permissions. */
  lemma TeamGrantsStored(rows: seq<RoleRow>, id: string, p: string)
    ensures GrantRow(id, p) in StoredAll(ToInsert(TeamRolesTable, RoleColumn, PermissionColumn, rows), RoleColumn, PermissionColumn)
            <==> exists i :: 0 <= i < |rows| && rows[i].id == id && p in PermissionsOf(TeamRolesTable, rows[i])
  {
    StoredMatching(TeamRolesTable, RoleColumn, PermissionColumn, rows, id, p);
  }

  /** A Member row is granted nothing: no stored row carries its id unless another stored
      role row with a known label shares that id. */
  lemma MemberGrantedNothing(rows: seq<RoleRow>, id: string, p: string)
    requires forall i :: 0 <= i < |rows| && rows[i].id == id ==> rows[i].name == Member
    ensures GrantRow(id, p) !in StoredAll(ToInsert(TeamRolesTable, RoleColumn, PermissionColumn, rows), RoleColumn, PermissionColumn)
  {
    TeamGrantsStored(rows, id, p);
    forall i | 0 <= i < |rows| && rows[i].id == id ensures p !in PermissionsOf(TeamRolesTable, rows[i]) {
      TeamRolePermissions(id, rows[i].name);
    }
  }

  /** The three freshly stored roles receive twelve records in all. */
  lemma SeededTeamRoleRecords(freshIds: seq<string>)
    requires |freshIds| == 3
    ensures |ToInsert(TeamRolesTable, RoleColumn, PermissionColumn, NewRoles(TeamRolesTable, freshIds))| == 12
  {
    var rows := NewRoles(TeamRolesTable, freshIds);
    ToInsertCount(TeamRolesTable, RoleColumn, PermissionColumn, rows);
    TeamRolePermissions(freshIds[0], Member);
    TeamRolePermissions(freshIds[1], Manager);
    TeamRolePermissions(freshIds[2], Admin);
    assert rows[0] == RoleRow(freshIds[0], Member);
    assert rows[1..][0] == RoleRow(freshIds[1], Manager);
    assert rows[1..][1..][0] == RoleRow(freshIds[2], Admin);
    assert rows[1..][1..][1..] == [];
    assert PermissionCount(TeamRolesTable, rows[1..][1..]) == 8;
    assert PermissionCount(TeamRolesTable, rows[1..]) == 12;
  }
}

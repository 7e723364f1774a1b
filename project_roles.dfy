/** The project roles: a constant table of three roles and their permissions, seeded into
    the project role table, and one role-permission record per permission of each stored
    role. The records the reduce builds name the TEAM table's columns (`teamRoleId`,
    `teamPermissionId`) rather than this table's own (`projectRoleId`,
    `projectPermissionId`), so the store keeps neither value. */
module ProjectRoles {
  import opened Seeding
  import ProjectPermissions

  const Member := "Member"
  const Admin := "Admin"
  const Owner := "Owner"

  const MemberPermissions: seq<string> := ["CAN_ANNOTATE_DOCUMENTS"]

  const AdminPermissions: seq<string> := [
    "CAN_ADD_MEMBERS",
    "CAN_ADD_TAXONOMY",
    "CAN_EXPORT_TAXONOMY",
    "CAN_EDIT_TAXONOMY",
    "CAN_ADD_TO_TAXONOMY",
    "CAN_UPLOAD_DOCUMENTS"
  ]

  const OwnerPermissions: seq<string> := [
    "CAN_ADD_MEMBERS",
    "CAN_ADD_ADMINS",
    "CAN_ADD_OWNERS",
    "CAN_CHANGE_PROJECT_SETTINGS",
    "CAN_ADD_TAXONOMY",
    "CAN_EXPORT_TAXONOMY",
    "CAN_EDIT_TAXONOMY",
    "CAN_ADD_TO_TAXONOMY",
    "CAN_UPLOAD_DOCUMENTS",
    "CAN_ANNOTATE_DOCUMENTS"
  ]

  const ProjectRolesTable: seq<RoleSpec> := [
    RoleSpec(Member, MemberPermissions),
    RoleSpec(Admin, AdminPermissions),
    RoleSpec(Owner, OwnerPermissions)
  ]

  /** The key columns of the project role-permission table. */
  const TableRoleColumn := "projectRoleId"
  const TablePermissionColumn := "projectPermissionId"

  /** The column names the reduce writes into its records. */
  const EmittedRoleColumn := "teamRoleId"
  const EmittedPermissionColumn := "teamPermissionId"

  /** `initProjectRoleModel`: inserts the three roles (skipping labels already stored),
      then the records the reduce builds from every stored role row. */
  method InitProjectRoleModel(tables: RoleTables, freshIds: seq<string>)
    requires |freshIds| == |ProjectRolesTable|
    requires tables.roleColumn == TableRoleColumn && tables.permissionColumn == TablePermissionColumn
    modifies tables
    ensures tables.roles == InsertIgnore(old(tables.roles), NewRoles(ProjectRolesTable, freshIds), RoleKey)
    ensures tables.grants == InsertIgnore(old(tables.grants), AsWrittenRows(tables.roles), GrantKey)
  {
    tables.Seed(ProjectRolesTable, EmittedRoleColumn, EmittedPermissionColumn, freshIds);
  }

  /** The rows the store makes of the records the reduce builds: every key column is left
      unset, so every row is the blank pair. */
  function AsWrittenRows(rows: seq<RoleRow>): (r: seq<GrantRow>)
    ensures forall x :: x in r ==> x == GrantRow("", "")
  {
    var stored := StoredAll(ToInsert(ProjectRolesTable, EmittedRoleColumn, EmittedPermissionColumn, rows),
                            TableRoleColumn, TablePermissionColumn);
    AllBlank(rows, stored);
    stored
  }

  lemma AllBlank(rows: seq<RoleRow>, stored: seq<GrantRow>)
    requires stored == StoredAll(ToInsert(ProjectRolesTable, EmittedRoleColumn, EmittedPermissionColumn, rows),
                                 TableRoleColumn, TablePermissionColumn)
    ensures forall x :: x in stored ==> x == GrantRow("", "")
  {
    var records := ToInsert(ProjectRolesTable, EmittedRoleColumn, EmittedPermissionColumn, rows);
    forall x | x in stored ensures x == GrantRow("", "") {
      var i :| 0 <= i < |stored| && stored[i] == x;
      EmittedColumnsMismatch(rows, records[i]);
    }
  }

  /** The rows intended: each record under this table's own key columns. */
  function IntendedRows(rows: seq<RoleRow>): seq<GrantRow> {
    StoredAll(ToInsert(ProjectRolesTable, TableRoleColumn, TablePermissionColumn, rows), TableRoleColumn, TablePermissionColumn)
  }

  /** `initProjectRoleModel` with the records built under the table's own column names. */
  method InitProjectRoleModelCorrected(tables: RoleTables, freshIds: seq<string>)
    requires |freshIds| == |ProjectRolesTable|
    requires tables.roleColumn == TableRoleColumn && tables.permissionColumn == TablePermissionColumn
    modifies tables
    ensures tables.roles == InsertIgnore(old(tables.roles), NewRoles(ProjectRolesTable, freshIds), RoleKey)
    ensures tables.grants == InsertIgnore(old(tables.grants), IntendedRows(tables.roles), GrantKey)
  {
    tables.Seed(ProjectRolesTable, TableRoleColumn, TablePermissionColumn, freshIds);
  }

  /** After the corrected seeding the table holds a pair exactly when it was there before,
      or it is a stored role's id with one of its label's permissions. */
  lemma CorrectedSeedStoresGrants(grants: seq<GrantRow>, rows: seq<RoleRow>, id: string, p: string)
    ensures GrantRow(id, p) in InsertIgnore(grants, IntendedRows(rows), GrantKey) <==>
              || GrantRow(id, p) in grants
              || exists i :: 0 <= i < |rows| && rows[i].id == id && p in PermissionsOf(ProjectRolesTable, rows[i])
  {
    var x := GrantRow(id, p);
    var r := InsertIgnore(grants, IntendedRows(rows), GrantKey);
    StoredMatching(ProjectRolesTable, TableRoleColumn, TablePermissionColumn, rows, id, p);
    if x in IntendedRows(rows) {
      var j :| 0 <= j < |r| && GrantKey(r[j]) == GrantKey(x);
    }
    if x in grants {
      var j :| 0 <= j < |grants| && grants[j] == x;
      assert r[..|grants|][j] == x;
    }
    if x in r {
      var j :| 0 <= j < |r| && r[j] == x;
      if j < |grants| {
        assert r[..|grants|][j] == x;
      }
    }
  }

  /** Seeding an empty table as written stores the single blank pair, where the corrected
      seeding stores, for instance, the Member role's one permission. */
  lemma SeedLosesGrants(freshIds: seq<string>)
    requires |freshIds| == 3
    ensures InsertIgnore([], AsWrittenRows(NewRoles(ProjectRolesTable, freshIds)), GrantKey) == [GrantRow("", "")]
    ensures GrantRow(freshIds[0], "CAN_ANNOTATE_DOCUMENTS") in
              InsertIgnore([], IntendedRows(NewRoles(ProjectRolesTable, freshIds)), GrantKey)
  {
    var rows := NewRoles(ProjectRolesTable, freshIds);
    SeededProjectRoleRecords(freshIds);
    InsertIgnoreSame(AsWrittenRows(rows), GrantRow("", ""));
    ProjectRolePermissions(freshIds[0], Member);
    assert rows[0] == RoleRow(freshIds[0], Member);
    CorrectedSeedStoresGrants([], rows, freshIds[0], "CAN_ANNOTATE_DOCUMENTS");
  }

  /** The permissions a stored role row receives: those of its label in the table, and
      none for a label the table does not know. */
  lemma ProjectRolePermissions(id: string, name: string)
    ensures PermissionsOf(ProjectRolesTable, RoleRow(id, name)) ==
              if name == Member then MemberPermissions
              else if name == Admin then AdminPermissions
              else if name == Owner then OwnerPermissions
              else []
  {
    var named := SpecsNamed(ProjectRolesTable, name);
    if named != [] {
      assert named[0] in named;
    }
    if name in {Member, Admin, Owner} {
      assert ProjectRolesTable[if name == Member then 0 else if name == Admin then 1 else 2] in named;
    }
  }

  /** An Owner can do everything an Admin or a Member can. */
  lemma OwnerSubsumes(p: string)
    ensures p in AdminPermissions || p in MemberPermissions ==> p in OwnerPermissions
  {
  }

  /** Every permission a role is given is a key of the project permission table. */
  lemma RolePermissionsAreKnown(i: nat, p: string)
    requires i < |ProjectRolesTable| && p in ProjectRolesTable[i].permissions
    ensures p in ProjectPermissions.Ids()
  {
    var ids := ProjectPermissions.Ids();
    assert ids == [
      "CAN_ADD_MEMBERS", "CAN_ADD_ADMINS", "CAN_ADD_OWNERS", "CAN_CHANGE_PROJECT_SETTINGS",
      "CAN_ADD_TAXONOMY", "CAN_EXPORT_TAXONOMY", "CAN_EDIT_TAXONOMY", "CAN_ADD_TO_TAXONOMY",
      "CAN_UPLOAD_DOCUMENTS", "CAN_ANNOTATE_DOCUMENTS"
    ];
  }

  /** No record the reduce builds, for any stored rows, names the project table's columns. */
  lemma EmittedColumnsMismatch(rows: seq<RoleRow>, g: Grant)
    requires g in ToInsert(ProjectRolesTable, EmittedRoleColumn, EmittedPermissionColumn, rows)
    ensures g.roleColumn != TableRoleColumn && g.permissionColumn != TablePermissionColumn
  {
    ToInsertMembers(ProjectRolesTable, EmittedRoleColumn, EmittedPermissionColumn, rows, g);
  }

  /** The three freshly stored roles receive seventeen records in all. */
  lemma SeededProjectRoleRecords(freshIds: seq<string>)
    requires |freshIds| == 3
    ensures |ToInsert(ProjectRolesTable, EmittedRoleColumn, EmittedPermissionColumn,
                      NewRoles(ProjectRolesTable, freshIds))| == 17
  {
    var rows := NewRoles(ProjectRolesTable, freshIds);
    ToInsertCount(ProjectRolesTable, EmittedRoleColumn, EmittedPermissionColumn, rows);
    ProjectRolePermissions(freshIds[0], Member);
    ProjectRolePermissions(freshIds[1], Admin);
    ProjectRolePermissions(freshIds[2], Owner);
    assert rows[0] == RoleRow(freshIds[0], Member);
    assert rows[1..][0] == RoleRow(freshIds[1], Admin);
    assert rows[1..][1..][0] == RoleRow(freshIds[2], Owner);
    assert rows[1..][1..][1..] == [];
    assert PermissionCount(ProjectRolesTable, rows[1..][1..]) == 10;
    assert PermissionCount(ProjectRolesTable, rows[1..]) == 16;
  }
}

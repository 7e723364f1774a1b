/** The project permissions: a constant table from permission id to description, seeded
    into the project permission table. */
module ProjectPermissions {
  import Seqs
  import opened Seeding

  const ProjectPermissionTable: seq<(string, string)> := [
    ("CAN_ADD_MEMBERS", "Can add project members."),
    ("CAN_ADD_ADMINS", "Can add project admins."),
    ("CAN_ADD_OWNERS", "Can add project owners."),
    ("CAN_CHANGE_PROJECT_SETTINGS", "Can change project settings."),
    ("CAN_ADD_TAXONOMY", "Can import a new taxonomy."),
    ("CAN_EXPORT_TAXONOMY", "Can export a taxonomy."),
    ("CAN_EDIT_TAXONOMY", "Can edit a taxonomy."),
    ("CAN_ADD_TO_TAXONOMY", "Can add terms to a taxonomy."),
    ("CAN_UPLOAD_DOCUMENTS", "Can upload new documents."),
    ("CAN_ANNOTATE_DOCUMENTS", "Can annotate documents.")
  ]

  /** The permission ids. */
  function Ids(): (ids: seq<string>)
    ensures |ids| == 10 && Seqs.Distinct(ids)
    ensures forall i :: 0 <= i < 10 ==> ids[i] == ProjectPermissionTable[i].0
  {
    seq(|ProjectPermissionTable|, i requires 0 <= i < |ProjectPermissionTable| => ProjectPermissionTable[i].0)
  }

  /** `initProjectPermissionsModel`: seeds one row per permission. */
  method InitProjectPermissionsModel(table: PermissionTable)
    modifies table
    ensures table.rows == InsertIgnore(old(table.rows), PermissionRecords(ProjectPermissionTable), PermissionKey)
  {
    table.Seed(ProjectPermissionTable);
  }

  /** Seeding an empty table stores the ten permissions, each with its description; seeding
      again changes nothing. */
  lemma SeedProjectPermissions(rows: seq<Permission>)
    ensures InsertIgnore([], PermissionRecords(ProjectPermissionTable), PermissionKey)
            == PermissionRecords(ProjectPermissionTable)
    ensures |PermissionRecords(ProjectPermissionTable)| == 10
    ensures var once := InsertIgnore(rows, PermissionRecords(ProjectPermissionTable), PermissionKey);
            InsertIgnore(once, PermissionRecords(ProjectPermissionTable), PermissionKey) == once
  {
    var ids := Ids();
    SeedEmptyPermissions(ProjectPermissionTable);
    InsertIgnoreIdempotent(rows, PermissionRecords(ProjectPermissionTable), PermissionKey);
  }
}

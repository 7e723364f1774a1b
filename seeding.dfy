/** Seeding constant tables into the store: `bulkCreate(records, {ignoreDuplicates: true})`
    inserts the records whose key is not present yet and skips the others, and the
    role-permission reduce turns the role rows found in the store into one record per
    permission of each role the constant table knows. */
module Seeding {
  import opened Wrappers
  import Seqs
  import Strings

  /** A role of a constant role table; `name` is the role's label. */
  datatype RoleSpec = RoleSpec(name: string, permissions: seq<string>)

  /** A row of a role table: a generated id and the role's label. */
  datatype RoleRow = RoleRow(id: string, name: string)

  /** A record the reduce emits: the two attribute names it uses and their values. */
  datatype Grant = Grant(roleColumn: string, permissionColumn: string, roleId: string, permissionId: string)

  /** A row of a role-permission table: its two key columns. */
  datatype GrantRow = GrantRow(roleId: string, permissionId: string)

  /** A row of a permission table: its id and its description. */
  datatype Permission = Permission(id: string, description: string)

  // ---------------------------------------------------------------------------
  // bulkCreate with ignoreDuplicates

  predicate HasKey<T, K(==)>(table: seq<T>, key: T -> K, k: K) {
    exists i :: 0 <= i < |table| && key(table[i]) == k
  }

  /** The table after inserting `records` in order, each skipped when a row with its key is
      there already (including one inserted earlier in the same batch). */
  function InsertIgnore<T, K(==)>(table: seq<T>, records: seq<T>, key: T -> K): (r: seq<T>)
    ensures |table| <= |r| && r[..|table|] == table
    ensures forall i :: |table| <= i < |r| ==> r[i] in records
    ensures forall x :: x in records ==> HasKey(r, key, key(x))
    decreases records
  {
    if records == [] then table
    else if HasKey(table, key, key(records[0])) then
      var r := InsertIgnore(table, records[1..], key);
      assert forall x :: x in records ==> x == records[0] || x in records[1..];
      assert HasKey(r, key, key(records[0])) by {
        var j :| 0 <= j < |table| && key(table[j]) == key(records[0]);
        assert r[j] == table[j];
      }
      r
    else
      var r := InsertIgnore(table + [records[0]], records[1..], key);
      assert forall x :: x in records ==> x == records[0] || x in records[1..];
      assert r[|table|] == (table + [records[0]])[|table|];
      assert r[..|table|] == (table + [records[0]])[..|table|] == table;
      r
  }

  /** Records whose keys are all present already insert nothing. */
  lemma {:induction false} InsertIgnoreNothingNew<T, K>(table: seq<T>, records: seq<T>, key: T -> K)
    requires forall x :: x in records ==> HasKey(table, key, key(x))
    ensures InsertIgnore(table, records, key) == table
    decreases records
  {
    if records != [] {
      assert records[0] in records;
      assert forall x :: x in records[1..] ==> x in records;
      InsertIgnoreNothingNew(table, records[1..], key);
    }
  }

  /** Seeding the same records twice adds nothing the second time. */
  lemma InsertIgnoreIdempotent<T, K>(table: seq<T>, records: seq<T>, key: T -> K)
    ensures InsertIgnore(InsertIgnore(table, records, key), records, key) == InsertIgnore(table, records, key)
  {
    InsertIgnoreNothingNew(InsertIgnore(table, records, key), records, key);
  }

  // ---------------------------------------------------------------------------
  // The role-permission reduce

  function RoleName(r: RoleRow): string {
    r.name
  }

  /** `ROLES.filter(r => r.label === row.label)`. */
  function SpecsNamed(roles: seq<RoleSpec>, name: string): (r: seq<RoleSpec>)
    ensures forall s :: s in r <==> s in roles && s.name == name
  {
    Seqs.Filter(roles, (s: RoleSpec) => s.name == name)
  }

  /** The permissions of the first role of the table named like `row`, or none. */
  function PermissionsOf(roles: seq<RoleSpec>, row: RoleRow): (ps: seq<string>)
    ensures SpecsNamed(roles, row.name) == [] ==> ps == []
    ensures SpecsNamed(roles, row.name) != [] ==> ps == SpecsNamed(roles, row.name)[0].permissions
  {
    var matching := SpecsNamed(roles, row.name);
    if |matching| < 1 then [] else matching[0].permissions
  }

  /** The records one role row adds to the reduce: one per permission, in table order. */
  function GrantsOf(roles: seq<RoleSpec>, roleColumn: string, permissionColumn: string, row: RoleRow): (gs: seq<Grant>)
    ensures |gs| == |PermissionsOf(roles, row)|
    ensures forall i :: 0 <= i < |gs| ==>
              gs[i] == Grant(roleColumn, permissionColumn, row.id, PermissionsOf(roles, row)[i])
  {
    var ps := PermissionsOf(roles, row);
    seq(|ps|, i requires 0 <= i < |ps| => Grant(roleColumn, permissionColumn, row.id, ps[i]))
  }

  /** `rows.reduce((insert, row) => insert.concat(...), [])`. */
  function ToInsert(roles: seq<RoleSpec>, roleColumn: string, permissionColumn: string, rows: seq<RoleRow>): seq<Grant>
  {
    if rows == [] then []
    else GrantsOf(roles, roleColumn, permissionColumn, rows[0]) + ToInsert(roles, roleColumn, permissionColumn, rows[1..])
  }

  /** The number of permissions the table gives the role rows. */
  function PermissionCount(roles: seq<RoleSpec>, rows: seq<RoleRow>): nat {
    if rows == [] then 0 else |PermissionsOf(roles, rows[0])| + PermissionCount(roles, rows[1..])
  }

  /** The reduce emits exactly as many records as the matched roles have permissions. */
  lemma {:induction false} ToInsertCount(roles: seq<RoleSpec>, roleColumn: string, permissionColumn: string,
                                         rows: seq<RoleRow>)
    ensures |ToInsert(roles, roleColumn, permissionColumn, rows)| == PermissionCount(roles, rows)
  {
    if rows != [] {
      ToInsertCount(roles, roleColumn, permissionColumn, rows[1..]);
    }
  }

  /** A record is emitted exactly for a role row and one of the permissions its label has in
      the table, under the given column names; a row with an unknown label emits nothing. */
  lemma {:induction false} ToInsertMembers(roles: seq<RoleSpec>, roleColumn: string, permissionColumn: string,
                                           rows: seq<RoleRow>, g: Grant)
    ensures g in ToInsert(roles, roleColumn, permissionColumn, rows) <==>
              && g.roleColumn == roleColumn && g.permissionColumn == permissionColumn
              && exists i :: 0 <= i < |rows| && rows[i].id == g.roleId && g.permissionId in PermissionsOf(roles, rows[i])
  {
    if rows != [] {
      ToInsertMembers(roles, roleColumn, permissionColumn, rows[1..], g);
      var head := GrantsOf(roles, roleColumn, permissionColumn, rows[0]);
      var ps := PermissionsOf(roles, rows[0]);
      assert g in head <==> g.roleColumn == roleColumn && g.permissionColumn == permissionColumn
                            && rows[0].id == g.roleId && g.permissionId in ps by {
        if g.permissionId in ps && g.roleId == rows[0].id && g.roleColumn == roleColumn && g.permissionColumn == permissionColumn {
          var j :| 0 <= j < |ps| && ps[j] == g.permissionId;
          assert head[j] == g;
        }
      }
      if exists i :: 0 <= i < |rows| && rows[i].id == g.roleId && g.permissionId in PermissionsOf(roles, rows[i]) {
        var i :| 0 <= i < |rows| && rows[i].id == g.roleId && g.permissionId in PermissionsOf(roles, rows[i]);
        if i > 0 {
          assert rows[1..][i - 1] == rows[i];
        }
      }
      if exists i :: 0 <= i < |rows[1..]| && rows[1..][i].id == g.roleId && g.permissionId in PermissionsOf(roles, rows[1..][i]) {
        var i :| 0 <= i < |rows[1..]| && rows[1..][i].id == g.roleId && g.permissionId in PermissionsOf(roles, rows[1..][i]);
        assert rows[i + 1] == rows[1..][i];
      }
    }
  }

  /** The key of the role table's unique label column, compared under the collation. */
  function RoleKey(r: RoleRow): string {
    Strings.CollationKey(r.name)
  }

  /** The key of a role-permission row: both of its columns. */
  function GrantKey(g: GrantRow): GrantRow {
    g
  }

  /** The row the store writes for a record, in a table whose key columns are `roleColumn`
      and `permissionColumn`: an attribute the table does not define is dropped, and a key
      column the record leaves unset is written with its implicit default, the empty
      string (an `INSERT IGNORE` stores that default where the NULL would break the
      column's NOT NULL). */
  function Stored(g: Grant, roleColumn: string, permissionColumn: string): (row: GrantRow)
    ensures row.roleId == if g.roleColumn == roleColumn then g.roleId else ""
    ensures row.permissionId == if g.permissionColumn == permissionColumn then g.permissionId else ""
  {
    GrantRow(if g.roleColumn == roleColumn then g.roleId else "",
             if g.permissionColumn == permissionColumn then g.permissionId else "")
  }

  function StoredAll(gs: seq<Grant>, roleColumn: string, permissionColumn: string): (rows: seq<GrantRow>)
    ensures |rows| == |gs| && forall i :: 0 <= i < |gs| ==> rows[i] == Stored(gs[i], roleColumn, permissionColumn)
  {
    seq(|gs|, i requires 0 <= i < |gs| => Stored(gs[i], roleColumn, permissionColumn))
  }

  /** When the record's attributes are the table's key columns, the stored rows are exactly
      the pairs the reduce emits for the stored roles. */
  lemma {:induction false} StoredMatching(roles: seq<RoleSpec>, roleColumn: string, permissionColumn: string,
                                          rows: seq<RoleRow>, id: string, p: string)
    ensures GrantRow(id, p) in StoredAll(ToInsert(roles, roleColumn, permissionColumn, rows), roleColumn, permissionColumn)
            <==> exists i :: 0 <= i < |rows| && rows[i].id == id && p in PermissionsOf(roles, rows[i])
  {
    var gs := ToInsert(roles, roleColumn, permissionColumn, rows);
    var stored := StoredAll(gs, roleColumn, permissionColumn);
    var g := Grant(roleColumn, permissionColumn, id, p);
    ToInsertMembers(roles, roleColumn, permissionColumn, rows, g);
    if GrantRow(id, p) in stored {
      var k :| 0 <= k < |stored| && stored[k] == GrantRow(id, p);
      ToInsertMembers(roles, roleColumn, permissionColumn, rows, gs[k]);
      assert gs[k] == g;
    }
    if g in gs {
      var k :| 0 <= k < |gs| && gs[k] == g;
      assert stored[k] == GrantRow(id, p);
    }
  }

  function PermissionKey(p: Permission): string {
    p.id
  }

  /** `ROLES.map(role => ({label: role.label}))`, with the ids the store generates. */
  function NewRoles(roles: seq<RoleSpec>, freshIds: seq<string>): (rs: seq<RoleRow>)
    requires |freshIds| == |roles|
    ensures |rs| == |roles| && forall i :: 0 <= i < |roles| ==> rs[i] == RoleRow(freshIds[i], roles[i].name)
  {
    seq(|roles|, i requires 0 <= i < |roles| => RoleRow(freshIds[i], roles[i].name))
  }

  /** A role table and its role-permission table, whose key columns are `roleColumn` and
      `permissionColumn`. */
  class RoleTables {
    const roleColumn: string
    const permissionColumn: string
    var roles: seq<RoleRow>
    var grants: seq<GrantRow>

    constructor (roleColumn: string, permissionColumn: string, roles: seq<RoleRow>, grants: seq<GrantRow>)
      ensures this.roleColumn == roleColumn && this.permissionColumn == permissionColumn
      ensures this.roles == roles && this.grants == grants
    {
      this.roleColumn, this.permissionColumn := roleColumn, permissionColumn;
      this.roles, this.grants := roles, grants;
    }

    /** Inserts the table's roles (skipping labels already stored), then the rows the store
        makes of the records the reduce builds, under the attribute names `emittedRole` and
        `emittedPermission`, from ALL stored role rows (skipping rows already stored). */
    method Seed(table: seq<RoleSpec>, emittedRole: string, emittedPermission: string, freshIds: seq<string>)
      requires |freshIds| == |table|
      modifies this
      ensures roles == InsertIgnore(old(roles), NewRoles(table, freshIds), RoleKey)
      ensures grants == InsertIgnore(old(grants),
                StoredAll(ToInsert(table, emittedRole, emittedPermission, roles), roleColumn, permissionColumn), GrantKey)
    {
      roles := InsertIgnore(roles, NewRoles(table, freshIds), RoleKey);
      grants := InsertIgnore(grants,
                  StoredAll(ToInsert(table, emittedRole, emittedPermission, roles), roleColumn, permissionColumn), GrantKey);
    }
  }

  /** Seeding a second time, whatever ids the store would generate, changes neither table. */
  lemma SeedTwice(roles: seq<RoleRow>, grants: seq<GrantRow>, table: seq<RoleSpec>, emittedRole: string,
                  emittedPermission: string, roleColumn: string, permissionColumn: string,
                  freshIds: seq<string>, freshIds': seq<string>)
    requires |freshIds| == |table| == |freshIds'|
    ensures var roles1 := InsertIgnore(roles, NewRoles(table, freshIds), RoleKey);
            var records := StoredAll(ToInsert(table, emittedRole, emittedPermission, roles1), roleColumn, permissionColumn);
            var grants1 := InsertIgnore(grants, records, GrantKey);
            && InsertIgnore(roles1, NewRoles(table, freshIds'), RoleKey) == roles1
            && InsertIgnore(grants1, records, GrantKey) == grants1
  {
    var roles1 := InsertIgnore(roles, NewRoles(table, freshIds), RoleKey);
    forall x | x in NewRoles(table, freshIds') ensures HasKey(roles1, RoleKey, RoleKey(x)) {
      var i :| 0 <= i < |table| && NewRoles(table, freshIds')[i] == x;
      assert NewRoles(table, freshIds)[i] in NewRoles(table, freshIds);
    }
    InsertIgnoreNothingNew(roles1, NewRoles(table, freshIds'), RoleKey);
    var records := StoredAll(ToInsert(table, emittedRole, emittedPermission, roles1), roleColumn, permissionColumn);
    InsertIgnoreIdempotent(grants, records, GrantKey);
  }

  /** Inserting rows that are all the same into an empty table stores that row once. */
  lemma InsertIgnoreSame(records: seq<GrantRow>, x: GrantRow)
    requires records != [] && forall y :: y in records ==> y == x
    ensures InsertIgnore([], records, GrantKey) == [x]
  {
    assert records[0] in records;
    assert !HasKey([], GrantKey, GrantKey(records[0]));
    assert InsertIgnore([], records, GrantKey) == InsertIgnore([] + [x], records[1..], GrantKey);
    assert [] + [x] == [x];
    forall y | y in records[1..] ensures HasKey([x], GrantKey, GrantKey(y)) {
      assert y in records;
      assert GrantKey([x][0]) == GrantKey(y);
    }
    InsertIgnoreNothingNew([x], records[1..], GrantKey);
  }

  // ---------------------------------------------------------------------------
  // Permission tables

  /** `keys.map(id => ({id, label: PERMISSIONS[id]}))` over an object with distinct keys. */
  function PermissionRecords(permissions: seq<(string, string)>): (ps: seq<Permission>)
    ensures |ps| == |permissions|
    ensures forall i :: 0 <= i < |permissions| ==> ps[i] == Permission(permissions[i].0, permissions[i].1)
  {
    seq(|permissions|, i requires 0 <= i < |permissions| => Permission(permissions[i].0, permissions[i].1))
  }

  /** A permission table. */
  class PermissionTable {
    var rows: seq<Permission>

    constructor (rows: seq<Permission>)
      ensures this.rows == rows
    {
      this.rows := rows;
    }

    method Seed(permissions: seq<(string, string)>)
      modifies this
      ensures rows == InsertIgnore(old(rows), PermissionRecords(permissions), PermissionKey)
    {
      rows := InsertIgnore(rows, PermissionRecords(permissions), PermissionKey);
    }
  }

  /** Into an empty table, seeding stores one row per key, with the key as id and its
      description as label, in key order. */
  lemma {:induction false} SeedEmptyPermissions(permissions: seq<(string, string)>)
    requires forall i, j :: 0 <= i < j < |permissions| ==> permissions[i].0 != permissions[j].0
    ensures InsertIgnore([], PermissionRecords(permissions), PermissionKey) == PermissionRecords(permissions)
  {
    DistinctInsert([], PermissionRecords(permissions), PermissionKey);
  }

  /** Records with distinct keys none of which is in the table are all inserted. */
  lemma {:induction false} DistinctInsert<T, K>(table: seq<T>, records: seq<T>, key: T -> K)
    requires forall i, j :: 0 <= i < j < |records| ==> key(records[i]) != key(records[j])
    requires forall i :: 0 <= i < |records| ==> !HasKey(table, key, key(records[i]))
    ensures InsertIgnore(table, records, key) == table + records
    decreases records
  {
    if records != [] {
      DistinctInsertTail(table, records, key);
      DistinctInsert(table + [records[0]], records[1..], key);
      InsertIgnoreFresh(table, records, key);
      AppendHead(table, records);
    }
  }

  /** After the first record goes in, the rest still have distinct keys not in the table. */
  lemma DistinctInsertTail<T, K>(table: seq<T>, records: seq<T>, key: T -> K)
    requires records != []
    requires forall i, j :: 0 <= i < j < |records| ==> key(records[i]) != key(records[j])
    requires forall i :: 0 <= i < |records| ==> !HasKey(table, key, key(records[i]))
    ensures forall i, j :: 0 <= i < j < |records[1..]| ==> key(records[1..][i]) != key(records[1..][j])
    ensures forall i :: 0 <= i < |records[1..]| ==> !HasKey(table + [records[0]], key, key(records[1..][i]))
  {
    forall i | 0 <= i < |records[1..]| ensures !HasKey(table + [records[0]], key, key(records[1..][i])) {
      assert records[1..][i] == records[i + 1];
      HasKeyAppend(table, records[0], key, key(records[i + 1]));
    }
    forall i, j | 0 <= i < j < |records[1..]| ensures key(records[1..][i]) != key(records[1..][j]) {
      assert records[1..][i] == records[i + 1] && records[1..][j] == records[j + 1];
    }
  }

  /** A record whose key is not in the table is appended. */
  lemma InsertIgnoreFresh<T, K>(table: seq<T>, records: seq<T>, key: T -> K)
    requires records != [] && !HasKey(table, key, key(records[0]))
    ensures InsertIgnore(table, records, key) == InsertIgnore(table + [records[0]], records[1..], key)
  {
  }

  lemma AppendHead<T>(table: seq<T>, records: seq<T>)
    requires records != []
    ensures (table + [records[0]]) + records[1..] == table + records
  {
    assert records == [records[0]] + records[1..];
  }

  lemma HasKeyAppend<T, K>(table: seq<T>, x: T, key: T -> K, k: K)
    ensures HasKey(table + [x], key, k) <==> HasKey(table, key, k) || key(x) == k
  {
    if HasKey(table + [x], key, k) {
      var j :| 0 <= j < |table + [x]| && key((table + [x])[j]) == k;
      if j < |table| {
        assert (table + [x])[j] == table[j];
      }
    }
    if HasKey(table, key, k) {
      var j :| 0 <= j < |table| && key(table[j]) == k;
      assert (table + [x])[j] == table[j];
    }
    if key(x) == k {
      assert (table + [x])[|table|] == x;
    }
  }
}

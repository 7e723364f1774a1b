/** The user materializer and the sign-in upsert: a user row becomes the client model of the
    user (recent projects, teams with their permissions, and the current project through the
    cache), and a signed-in identity is found or created by e-mail, the very first user
    being made an Admin of the first team. */
module UserModel {
  import opened Wrappers
  import Seqs
  import Strings
  import JsObject
  import C = Cache
  import Tx = TaxonomyModel
  import PM = ProjectModel
  import opened Tables
  import TeamModel
  import Seeding

  datatype RecentProject = RecentProject(id: string, name: string, slug: string)

  datatype TeamData = TeamData(id: string, name: string, permissions: seq<string>)

  datatype User = User(
    id: string,
    email: string,
    avatar: Option<string>,
    name: string,
    teams: JsObject.Object<TeamData>,
    currentProject: Option<PM.Project>,
    recentProjects: seq<RecentProject>)

  /** The identity the sign-in provider hands over: its e-mail addresses in order, its
      picture and its nickname. */
  datatype RawUser = RawUser(emails: seq<string>, picture: Option<string>, nickname: Option<string>)

  /** The number of recent projects a user model lists. */
  const RecentLimit: nat := 5

  // ---------------------------------------------------------------------------
  // Queries

  predicate AccessedLater(a: UserProjectRow, b: UserProjectRow) {
    a.lastAccessed > b.lastAccessed
  }

  lemma AccessedLaterOrder()
    ensures Seqs.StrictOrder(AccessedLater)
  {
  }

  /** The user's access rows, in store order. */
  function AccessesOf(db: Database, userId: string): (r: seq<UserProjectRow>)
    ensures forall p :: p in r <==> p in db.userProjects && p.userId == userId
  {
    Seqs.Filter(db.userProjects, (p: UserProjectRow) => p.userId == userId)
  }

  /** `userProject.findAll({where: {userId}, order: [['lastAccessed', 'DESC']], limit: 5})`:
      the user's 5 latest accesses, latest first, or all of them when there are fewer. */
  function RecentRows(db: Database, userId: string): (r: seq<UserProjectRow>)
    ensures LatestAccesses(AccessesOf(db, userId), r)
    ensures forall p :: p in r ==> p in db.userProjects && p.userId == userId
  {
    var mine := AccessesOf(db, userId);
    LatestFirst(mine);
    Seqs.Take(Seqs.SortBy(mine, AccessedLater), RecentLimit)
  }

  /** `r` is the first `RecentLimit` rows of `mine` by descending access time: as many as
      the limit allows, drawn from `mine`, latest first, and no row of `mine` left out is
      later than one kept. */
  predicate LatestAccesses(mine: seq<UserProjectRow>, r: seq<UserProjectRow>) {
    && |r| == (if |mine| <= RecentLimit then |mine| else RecentLimit)
    && multiset(r) <= multiset(mine)
    && (forall i, j :: 0 <= i < j < |r| ==> r[i].lastAccessed >= r[j].lastAccessed)
    && forall p :: p in mine && p !in r ==> forall i :: 0 <= i < |r| ==> p.lastAccessed <= r[i].lastAccessed
  }

  lemma LatestFirst(mine: seq<UserProjectRow>)
    ensures var r := Seqs.Take(Seqs.SortBy(mine, AccessedLater), RecentLimit);
            LatestAccesses(mine, r) && forall p :: p in r ==> p in mine
  {
    AccessedLaterOrder();
    Seqs.FirstBy(mine, AccessedLater, RecentLimit);
    var r := Seqs.Take(Seqs.SortBy(mine, AccessedLater), RecentLimit);
    forall p | p in r ensures p in mine {
      assert p in multiset(r);
    }
    assert forall i, j :: 0 <= i < j < |r| ==> !AccessedLater(r[j], r[i]);
  }

  /** The row a nullable foreign key points at, if any. */
  function ProjectById(projects: seq<ProjectRow>, id: Option<string>): (r: Option<ProjectRow>)
    ensures r.Some? ==> r.value in projects && Some(r.value.id) == id
    ensures r.None? && id.Some? ==> forall p :: p in projects ==> p.id != id.value
  {
    if id.None? || projects == [] then None
    else if projects[0].id == id.value then Some(projects[0])
    else ProjectById(projects[1..], id)
  }

  function TeamById(teams: seq<TeamModel.TeamRow>, id: Option<string>): (r: Option<TeamModel.TeamRow>)
    ensures r.Some? ==> r.value in teams && Some(r.value.id) == id
    ensures r.None? && id.Some? ==> forall t :: t in teams ==> t.id != id.value
  {
    if id.None? || teams == [] then None
    else if teams[0].id == id.value then Some(teams[0])
    else TeamById(teams[1..], id)
  }

  /** `{id: p.id, name: p.project.name, slug: p.project.slug}`; None where the join is
      missing (reading `name` of null throws). The id is that of the access row. */
  function RecentProjectOf(db: Database, p: UserProjectRow): (r: Option<RecentProject>)
    ensures r.Some? <==> ProjectById(db.projects, p.projectId).Some?
    ensures r.Some? ==> var pr := ProjectById(db.projects, p.projectId).value;
                        r.value == RecentProject(p.id, pr.name, pr.slug)
  {
    match ProjectById(db.projects, p.projectId)
    case None => None
    case Some(pr) => Some(RecentProject(p.id, pr.name, pr.slug))
  }

  /** The team name a membership sorts by; a missing team sorts as the empty name. */
  function TeamName(db: Database, t: UserTeamRow): string {
    match TeamById(db.teams, t.teamId)
    case None => ""
    case Some(team) => team.name
  }

  /** `ORDER BY team.name` compares the joined team names under the store's collation. */
  predicate TeamNameLess(db: Database, a: UserTeamRow, b: UserTeamRow) {
    Strings.CollationLess(TeamName(db, a), TeamName(db, b))
  }

  lemma TeamNameOrder(db: Database)
    ensures Seqs.StrictOrder((a: UserTeamRow, b: UserTeamRow) => TeamNameLess(db, a, b))
  {
    forall x: UserTeamRow ensures !TeamNameLess(db, x, x) {
      Strings.CollationLessIrreflexive(TeamName(db, x));
    }
    forall x: UserTeamRow, y: UserTeamRow, z: UserTeamRow | TeamNameLess(db, x, y) && TeamNameLess(db, y, z)
      ensures TeamNameLess(db, x, z)
    {
      Strings.CollationLessTransitive(TeamName(db, x), TeamName(db, y), TeamName(db, z));
    }
  }

  /** The user's memberships, in store order. */
  function MembershipsOf(db: Database, userId: string): (r: seq<UserTeamRow>)
    ensures forall t :: t in r <==> t in db.userTeams && t.userId == userId
  {
    Seqs.Filter(db.userTeams, (t: UserTeamRow) => t.userId == userId)
  }

  /** `userTeam.findAll({where: {userId}, order: [col('team.name')]})`: all the user's
      memberships, ordered by team name. */
  function TeamRows(db: Database, userId: string): (r: seq<UserTeamRow>)
    ensures multiset(r) == multiset(MembershipsOf(db, userId))
    ensures forall t :: t in r <==> t in db.userTeams && t.userId == userId
    ensures forall i, j :: 0 <= i < j < |r| ==> !TeamNameLess(db, r[j], r[i])
  {
    var mine := MembershipsOf(db, userId);
    var r := Seqs.SortBy(mine, (a: UserTeamRow, b: UserTeamRow) => TeamNameLess(db, a, b));
    TeamNameOrder(db);
    Seqs.SortBySorted(mine, (a: UserTeamRow, b: UserTeamRow) => TeamNameLess(db, a, b));
    assert forall t :: t in r <==> t in mine by {
      forall t ensures t in r <==> t in mine {
        assert t in r <==> t in multiset(r);
        assert t in mine <==> t in multiset(mine);
      }
    }
    r
  }

  function PermissionId(g: Seeding.GrantRow): string {
    g.permissionId
  }

  /** `teamRolePermission.findAll({where: {teamRoleId}})` mapped to permission ids, in store
      order; a null role matches no grant. */
  function RolePermissions(grants: seq<Seeding.GrantRow>, roleId: Option<string>): (r: seq<string>)
    ensures roleId.None? ==> r == []
    ensures forall p :: p in r <==> exists g :: g in grants && Some(g.roleId) == roleId && g.permissionId == p
  {
    var matching := Seqs.Filter(grants, (g: Seeding.GrantRow) => Some(g.roleId) == roleId);
    var r := Seqs.Map(matching, PermissionId);
    assert forall p :: p in r ==> exists g :: g in matching && g.permissionId == p by {
      forall p | p in r ensures exists g :: g in matching && g.permissionId == p {
        var i :| 0 <= i < |r| && r[i] == p;
        assert matching[i] in matching;
      }
    }
    assert forall g :: g in matching ==> g.permissionId in r by {
      forall g | g in matching ensures g.permissionId in r {
        var i :| 0 <= i < |matching| && matching[i] == g;
        assert r[i] == g.permissionId;
      }
    }
    assert roleId.None? ==> matching == [] by {
      if roleId.None? {
        Seqs.FilterDropsAll(grants, (g: Seeding.GrantRow) => Some(g.roleId) == roleId);
      }
    }
    r
  }

  /** `{id: t.teamId, name: t.team.name, permissions}`; None where the team is missing. */
  function TeamDataOf(db: Database, t: UserTeamRow): (r: Option<TeamData>)
    ensures r.Some? <==> TeamById(db.teams, t.teamId).Some?
    ensures r.Some? ==> r.value == TeamData(t.teamId.value, TeamById(db.teams, t.teamId).value.name,
                                           RolePermissions(db.teamGrants, t.teamRoleId))
  {
    match TeamById(db.teams, t.teamId)
    case None => None
    case Some(team) => Some(TeamData(t.teamId.value, team.name, RolePermissions(db.teamGrants, t.teamRoleId)))
  }

  /** The key of a membership in the teams object, `t.teamId`; a membership without a
      team never gets this far. */
  function TeamKey(t: UserTeamRow): string {
    match t.teamId
    case Some(id) => id
    case None => ""
  }

  /** The team data of every membership, or None when one of them throws. */
  function TeamDatas(db: Database, ts: seq<UserTeamRow>): (r: Option<seq<TeamData>>)
    ensures r.Some? <==> forall t :: t in ts ==> TeamDataOf(db, t).Some?
    ensures r.Some? ==> |r.value| == |ts| && forall i :: 0 <= i < |ts| ==> TeamDataOf(db, ts[i]) == Some(r.value[i])
  {
    if ts == [] then Some([])
    else match (TeamDataOf(db, ts[0]), TeamDatas(db, ts[1..]))
      case (Some(d), Some(ds)) => Some([d] + ds)
      case _ =>
        assert ts[0] in ts && forall t :: t in ts[1..] ==> t in ts;
        None
  }

  /** The recent project of every access row, or None when one of them throws. */
  function RecentProjects(db: Database, ps: seq<UserProjectRow>): (r: Option<seq<RecentProject>>)
    ensures r.Some? <==> forall p :: p in ps ==> RecentProjectOf(db, p).Some?
    ensures r.Some? ==> |r.value| == |ps| && forall i :: 0 <= i < |ps| ==> RecentProjectOf(db, ps[i]) == Some(r.value[i])
  {
    if ps == [] then Some([])
    else match (RecentProjectOf(db, ps[0]), RecentProjects(db, ps[1..]))
      case (Some(d), Some(ds)) => Some([d] + ds)
      case _ =>
        assert ps[0] in ps && forall p :: p in ps[1..] ==> p in ps;
        None
  }

  /** The user model before the current project is looked at, or None when a join read
      throws (the promise then never settles). */
  function BaseModel(row: UserRow, db: Database): (r: Option<User>)
    ensures r.Some? <==> && TeamDatas(db, TeamRows(db, row.id)).Some?
                         && RecentProjects(db, RecentRows(db, row.id)).Some?
    ensures r.Some? ==> && r.value.currentProject.None?
                        && r.value.id == row.id && r.value.email == row.email
                        && r.value.name == row.name && r.value.avatar == row.avatar
  {
    var teams := TeamRows(db, row.id);
    match (TeamDatas(db, teams), RecentProjects(db, RecentRows(db, row.id)))
    case (Some(data), Some(recent)) =>
      Some(User(row.id, row.email, row.avatar, row.name,
                JsObject.ZipObject(Seqs.Map(teams, TeamKey), data), None, recent))
    case _ => None
  }

  // ---------------------------------------------------------------------------
  // rowToModel

  /** The message a failed cache read rejects with (the cache's own error). */
  const CacheReadError := "cache read error"

  /** The current project of a user model: read from the cache under the project's key;
      on a miss materialized and, once resolved, written back for the default time. */
  function CurrentProject(s: C.State, up: bool, pr: ProjectRow, db: Database, ghost rank: map<string, nat>,
                          encodeTree: Tx.Tree -> string, decodeTree: string -> Tx.Tree,
                          encodeProject: PM.Project -> string, decodeProject: string -> PM.Project)
    : (res: (Settled<PM.Project>, C.State))
    requires Tx.WellFormed(db.terms, rank)
    ensures var key := PM.ProjectCacheKey(PM.ProjectId(pr.id));
            && (!up ==> res == (Rejected(CacheReadError), s))
            && (C.Lookup(s, up, key).Hit? ==> res == (Resolved(decodeProject(C.Lookup(s, up, key).value)), s))
            && (C.Lookup(s, up, key).Miss? && res.0.Resolved? ==>
                  res.1 == C.Write(PM.ProjectOf(s, up, pr, db, rank, encodeTree, decodeTree).1,
                                   key, encodeProject(res.0.value), C.DefaultCacheTimeout)
                  && PM.ProjectOf(s, up, pr, db, rank, encodeTree, decodeTree).0 == res.0)
            && (C.Lookup(s, up, key).Miss? && !res.0.Resolved? ==>
                  res == (Pending, PM.ProjectOf(s, up, pr, db, rank, encodeTree, decodeTree).1))
  {
    var key := PM.ProjectCacheKey(PM.ProjectId(pr.id));
    match C.Lookup(s, up, key)
    case ReadError => (Rejected(CacheReadError), s)
    case Hit(v) => (Resolved(decodeProject(v)), s)
    case Miss =>
      var (p, s1) := PM.ProjectOf(s, up, pr, db, rank, encodeTree, decodeTree);
      if p.Resolved? then (p, C.Write(s1, key, encodeProject(p.value), C.DefaultCacheTimeout))
      else (Pending, s1)
  }

  /** If the project's encoding round-trips, reading the current project right after a miss
      that resolved is a hit on the same project, and leaves the cache as it is. */
  lemma CurrentProjectTwice(s: C.State, pr: ProjectRow, db: Database, rank: map<string, nat>,
                            encodeTree: Tx.Tree -> string, decodeTree: string -> Tx.Tree,
                            encodeProject: PM.Project -> string, decodeProject: string -> PM.Project)
    requires Tx.WellFormed(db.terms, rank)
    requires forall p :: encodeProject(p) != "" && decodeProject(encodeProject(p)) == p
    ensures var (r1, s1) := CurrentProject(s, true, pr, db, rank, encodeTree, decodeTree, encodeProject, decodeProject);
            r1.Resolved? ==>
              CurrentProject(s1, true, pr, db, rank, encodeTree, decodeTree, encodeProject, decodeProject) == (r1, s1)
  {
    var key := PM.ProjectCacheKey(PM.ProjectId(pr.id));
    var (r1, s1) := CurrentProject(s, true, pr, db, rank, encodeTree, decodeTree, encodeProject, decodeProject);
    if r1.Resolved? && C.Lookup(s, true, key).Miss? {
      C.WriteThenRead(PM.ProjectOf(s, true, pr, db, rank, encodeTree, decodeTree).1, key,
                      encodeProject(r1.value), C.DefaultCacheTimeout);
    }
  }

  /** `rowToModel(row, cache, logger)`: what the promise comes to and the cache afterwards. */
  function UserOf(s: C.State, up: bool, row: UserRow, db: Database, ghost rank: map<string, nat>,
                  encodeTree: Tx.Tree -> string, decodeTree: string -> Tx.Tree,
                  encodeProject: PM.Project -> string, decodeProject: string -> PM.Project)
    : (res: (Settled<User>, C.State))
    requires Tx.WellFormed(db.terms, rank)
    ensures BaseModel(row, db).None? ==> res == (Pending, s)
    ensures ProjectById(db.projects, row.currentProjectId).None? ==> res.1 == s
    ensures res.0.Resolved? ==> (&& BaseModel(row, db).Some?
                                 && res.0.value == BaseModel(row, db).value.(currentProject := res.0.value.currentProject))
    ensures res.0.Resolved? ==>
              (res.0.value.currentProject.Some? <==> ProjectById(db.projects, row.currentProjectId).Some?)
    ensures res.0.Rejected? ==> res == (Rejected(CacheReadError), s) && !up
  {
    match BaseModel(row, db)
    case None => (Pending, s)
    case Some(model) =>
      match ProjectById(db.projects, row.currentProjectId)
      case None => (Resolved(model), s)
      case Some(pr) =>
        var (p, s1) := CurrentProject(s, up, pr, db, rank, encodeTree, decodeTree, encodeProject, decodeProject);
        (WithProject(model, p), s1)
  }

  /** The model once the current project's promise settles. */
  function WithProject(model: User, p: Settled<PM.Project>): (r: Settled<User>)
    ensures p.Resolved? ==> r == Resolved(model.(currentProject := Some(p.value)))
    ensures p.Rejected? ==> r == Rejected(p.error)
    ensures p.Pending? ==> r == Pending
  {
    match p
    case Resolved(project) => Resolved(model.(currentProject := Some(project)))
    case Rejected(e) => Rejected(e)
    case Pending => Pending
  }

  /** A user without a current project resolves from the store alone: the cache is not
      read, and even a cache that is down does not matter. */
  lemma UserWithoutProject(s: C.State, up: bool, row: UserRow, db: Database, rank: map<string, nat>,
                           encodeTree: Tx.Tree -> string, decodeTree: string -> Tx.Tree,
                           encodeProject: PM.Project -> string, decodeProject: string -> PM.Project)
    requires Tx.WellFormed(db.terms, rank)
    requires row.currentProjectId.None? && BaseModel(row, db).Some?
    ensures UserOf(s, up, row, db, rank, encodeTree, decodeTree, encodeProject, decodeProject)
            == (Resolved(BaseModel(row, db).value), s)
  {
  }

  /** If the project's encoding round-trips, a second call right after one that resolved
      gives the same user and leaves the cache as it is. */
  lemma UserOfTwice(s: C.State, row: UserRow, db: Database, rank: map<string, nat>,
                    encodeTree: Tx.Tree -> string, decodeTree: string -> Tx.Tree,
                    encodeProject: PM.Project -> string, decodeProject: string -> PM.Project)
    requires Tx.WellFormed(db.terms, rank)
    requires forall p :: encodeProject(p) != "" && decodeProject(encodeProject(p)) == p
    ensures var (r1, s1) := UserOf(s, true, row, db, rank, encodeTree, decodeTree, encodeProject, decodeProject);
            r1.Resolved? ==>
              UserOf(s1, true, row, db, rank, encodeTree, decodeTree, encodeProject, decodeProject) == (r1, s1)
  {
    var pr := ProjectById(db.projects, row.currentProjectId);
    if pr.Some? {
      CurrentProjectTwice(s, pr.value, db, rank, encodeTree, decodeTree, encodeProject, decodeProject);
    }
  }

  /** A model lists at most five recent projects, most recently accessed first, each named
      by its access row's id. */
  lemma RecentProjectsOfModel(row: UserRow, db: Database, i: nat)
    requires BaseModel(row, db).Some?
    requires i < |BaseModel(row, db).value.recentProjects|
    ensures var u := BaseModel(row, db).value;
            var rows := RecentRows(db, row.id);
            && |u.recentProjects| == |rows| <= RecentLimit
            && u.recentProjects[i].id == rows[i].id
            && rows[i] in db.userProjects && rows[i].userId == row.id
            && (i > 0 ==> rows[i - 1].lastAccessed >= rows[i].lastAccessed)
  {
    var rows := RecentRows(db, row.id);
    assert BaseModel(row, db).value.recentProjects == RecentProjects(db, rows).value;
  }

  /** A model's teams object maps each team the user belongs to (once) to its name and the
      permissions of the membership's role. */
  lemma TeamsOfModel(row: UserRow, db: Database, t: UserTeamRow)
    requires BaseModel(row, db).Some?
    requires Seqs.Distinct(db.userTeams)
    requires t in db.userTeams && t.userId == row.id
    requires forall t' :: t' in db.userTeams && t'.userId == row.id && t' != t ==> t'.teamId != t.teamId
    ensures t.teamId.Some? && TeamById(db.teams, t.teamId).Some?
    ensures JsObject.Lookup(BaseModel(row, db).value.teams, t.teamId.value)
            == Some(TeamData(t.teamId.value, TeamById(db.teams, t.teamId).value.name,
                             RolePermissions(db.teamGrants, t.teamRoleId)))
  {
    var mine := MembershipsOf(db, row.id);
    var teams := TeamRows(db, row.id);
    assert teams == Seqs.SortBy(mine, (a: UserTeamRow, b: UserTeamRow) => TeamNameLess(db, a, b));
    Seqs.FilterDistinct(db.userTeams, (t: UserTeamRow) => t.userId == row.id);
    Seqs.SortByDistinct(mine, (a: UserTeamRow, b: UserTeamRow) => TeamNameLess(db, a, b));
    var data := TeamDatas(db, teams).value;
    var keys := Seqs.Map(teams, TeamKey);
    assert BaseModel(row, db).value.teams == JsObject.ZipObject(keys, data);
    assert t in teams;
    var i :| 0 <= i < |teams| && teams[i] == t;
    assert TeamDataOf(db, t).Some?;
    forall j | i < j < |keys| ensures keys[j] != keys[i] {
      assert teams[j] in teams;
      assert TeamDataOf(db, teams[j]).Some?;
    }
    JsObject.ZipObjectLast(keys, data, i);
  }

  /** The cache step of `rowToModel` for the current project. */
  method LoadCurrentProject(pr: ProjectRow, db: Database, ghost rank: map<string, nat>, cache: C.Cache,
                            encodeTree: Tx.Tree -> string, decodeTree: string -> Tx.Tree,
                            encodeProject: PM.Project -> string, decodeProject: string -> PM.Project)
    returns (p: Settled<PM.Project>)
    requires Tx.WellFormed(db.terms, rank)
    modifies cache`entries, cache`ttl
    ensures (p, cache.Snapshot())
            == CurrentProject(old(cache.Snapshot()), cache.up, pr, db, rank, encodeTree, decodeTree, encodeProject, decodeProject)
  {
    var key := PM.ProjectCacheKey(PM.ProjectId(pr.id));
    var read := cache.Get(key);
    match read
    case ReadError =>
      p := Rejected(CacheReadError);
    case Hit(v) =>
      p := Resolved(decodeProject(v));
    case Miss =>
      p := BuildCurrentProject(pr, db, rank, cache, encodeTree, decodeTree, encodeProject, decodeProject);
  }

  /** The miss branch of the cache step: the project is built and, when it resolved,
      written back under its key. */
  method BuildCurrentProject(pr: ProjectRow, db: Database, ghost rank: map<string, nat>, cache: C.Cache,
                             encodeTree: Tx.Tree -> string, decodeTree: string -> Tx.Tree,
                             encodeProject: PM.Project -> string, decodeProject: string -> PM.Project)
    returns (p: Settled<PM.Project>)
    requires Tx.WellFormed(db.terms, rank)
    requires C.Lookup(cache.Snapshot(), cache.up, PM.ProjectCacheKey(PM.ProjectId(pr.id))).Miss?
    modifies cache`entries, cache`ttl
    ensures (p, cache.Snapshot())
            == CurrentProject(old(cache.Snapshot()), cache.up, pr, db, rank, encodeTree, decodeTree, encodeProject, decodeProject)
  {
    ghost var s0 := cache.Snapshot();
    p := PM.RowToModel(pr, db, rank, cache, encodeTree, decodeTree);
    CurrentProjectMiss(s0, cache.up, pr, db, rank, encodeTree, decodeTree, encodeProject, decodeProject, p, cache.Snapshot());
    if p.Resolved? {
      cache.Set(PM.ProjectCacheKey(PM.ProjectId(pr.id)), encodeProject(p.value), C.DefaultCacheTimeout);
    } else {
      p := Pending;
    }
  }

  /** On a miss the current project is built, and written back when it resolved. */
  lemma CurrentProjectMiss(s: C.State, up: bool, pr: ProjectRow, db: Database, rank: map<string, nat>,
                           encodeTree: Tx.Tree -> string, decodeTree: string -> Tx.Tree,
                           encodeProject: PM.Project -> string, decodeProject: string -> PM.Project,
                           p: Settled<PM.Project>, s1: C.State)
    requires Tx.WellFormed(db.terms, rank)
    requires C.Lookup(s, up, PM.ProjectCacheKey(PM.ProjectId(pr.id))).Miss?
    requires (p, s1) == PM.ProjectOf(s, up, pr, db, rank, encodeTree, decodeTree)
    ensures CurrentProject(s, up, pr, db, rank, encodeTree, decodeTree, encodeProject, decodeProject)
            == if p.Resolved? then (p, C.Write(s1, PM.ProjectCacheKey(PM.ProjectId(pr.id)), encodeProject(p.value), C.DefaultCacheTimeout))
               else (Pending, s1)
  {
  }

  /** `rowToModel`. */
  method RowToModel(row: UserRow, db: Database, ghost rank: map<string, nat>, cache: C.Cache,
                    encodeTree: Tx.Tree -> string, decodeTree: string -> Tx.Tree,
                    encodeProject: PM.Project -> string, decodeProject: string -> PM.Project)
    returns (r: Settled<User>)
    requires Tx.WellFormed(db.terms, rank)
    modifies cache`entries, cache`ttl
    ensures (r, cache.Snapshot())
            == UserOf(old(cache.Snapshot()), cache.up, row, db, rank, encodeTree, decodeTree, encodeProject, decodeProject)
  {
    var base := BaseModel(row, db);
    if base.None? {
      return Pending;
    }
    var current := ProjectById(db.projects, row.currentProjectId);
    if current.None? {
      return Resolved(base.value);
    }
    var p := LoadCurrentProject(current.value, db, rank, cache, encodeTree, decodeTree, encodeProject, decodeProject);
    r := WithProject(base.value, p);
  }

  // ---------------------------------------------------------------------------
  // populateUser

  const NoEmailError := "User does not have an email address."
  const FirstUserError := "Unable to assign first user to team."
  const DefaultName := "No Name"
  const AdminRole := "Admin"

  /** The lookup of `findOrCreate({where: {email}})`: the first user whose e-mail equals
      `email` under the store's collation, so case is ignored. */
  function FindByEmail(users: seq<UserRow>, email: string): (r: Option<UserRow>)
    ensures r.Some? ==> r.value in users && Strings.CollationEqual(r.value.email, email)
    ensures r.None? ==> forall u :: u in users ==> !Strings.CollationEqual(u.email, email)
  {
    if users == [] then None
    else if Strings.CollationEqual(users[0].email, email) then Some(users[0])
    else FindByEmail(users[1..], email)
  }

  /** The row `findOrCreate` creates: the given picture or "", the nickname or "No Name",
      and no current project. */
  function NewUser(raw: RawUser, email: string, freshId: string): (u: UserRow)
    ensures u.email == email && u.currentProjectId.None? && u.currentlyViewingDocument.None?
    ensures u.avatar == Some(if Truthy(raw.picture) then raw.picture.value else "")
    ensures u.name == if Truthy(raw.nickname) then raw.nickname.value else DefaultName
  {
    UserRow(freshId, email, OrElse(raw.nickname, DefaultName), Some(OrElse(raw.picture, "")), None, None)
  }

  /** `teamRole.findOne({where: {label: 'Admin'}})`: the first role labelled Admin under the
      store's collation. */
  function AdminRoleRow(roles: seq<Seeding.RoleRow>): (r: Option<Seeding.RoleRow>)
    ensures r.Some? ==> r.value in roles && Strings.CollationEqual(r.value.name, AdminRole)
    ensures r.None? ==> forall x :: x in roles ==> !Strings.CollationEqual(x.name, AdminRole)
  {
    if roles == [] then None
    else if Strings.CollationEqual(roles[0].name, AdminRole) then Some(roles[0])
    else AdminRoleRow(roles[1..])
  }

  /** `rowToModel(...).then(resolve)` without a rejection handler: a rejection leaves the
      outer promise unsettled. */
  function Forward(r: Settled<User>): (f: Settled<User>)
    ensures !f.Rejected?
    ensures r.Resolved? ==> f == r
    ensures !r.Resolved? ==> f == Pending
  {
    if r.Resolved? then r else Pending
  }

  /** The row `findOrCreate` settles on: the user found by the first e-mail address, or the
      one it creates. */
  function SignInRow(db: Database, raw: RawUser, freshUserId: string): (row: UserRow)
    requires |raw.emails| >= 1
    ensures Strings.CollationEqual(row.email, raw.emails[0])
    ensures FindByEmail(db.users, raw.emails[0]).Some? ==> row in db.users
    ensures FindByEmail(db.users, raw.emails[0]).None? ==> row == NewUser(raw, raw.emails[0], freshUserId)
  {
    match FindByEmail(db.users, raw.emails[0])
    case Some(row) => row
    case None => NewUser(raw, raw.emails[0], freshUserId)
  }

  /** `populateUser(db, raw, cache, logger)`: the outcome, the store and the cache
      afterwards, given the ids the store would generate for a new user and a new
      membership. */
  function Populate(db: Database, s: C.State, up: bool, raw: RawUser, freshUserId: string,
                    freshMembershipId: string, ghost rank: map<string, nat>,
                    encodeTree: Tx.Tree -> string, decodeTree: string -> Tx.Tree,
                    encodeProject: PM.Project -> string, decodeProject: string -> PM.Project)
    : (res: (Settled<User>, Database, C.State))
    requires Tx.WellFormed(db.terms, rank)
    ensures res.1.terms == db.terms
    ensures res.0.Rejected? ==> res.0.error in {NoEmailError, FirstUserError} && res.2 == s
    ensures !res.0.Rejected? ==>
              && |raw.emails| >= 1
              && SignInRow(db, raw, freshUserId) in res.1.users
              && var (u, s') := UserOf(s, up, SignInRow(db, raw, freshUserId), res.1, rank,
                                       encodeTree, decodeTree, encodeProject, decodeProject);
                 res.0 == Forward(u) && res.2 == s'
  {
    if |raw.emails| < 1 then (Rejected(NoEmailError), db, s)
    else
      var email := raw.emails[0];
      match FindByEmail(db.users, email)
      case Some(row) =>
        var (r, s1) := UserOf(s, up, row, db, rank, encodeTree, decodeTree, encodeProject, decodeProject);
        (Forward(r), db, s1)
      case None =>
        var row := NewUser(raw, email, freshUserId);
        var db1 := db.(users := db.users + [row]);
        if |db1.users| == 1 then
          var team := if db1.teams == [] then None else Some(db1.teams[0]);
          var role := AdminRoleRow(db1.teamRoles);
          if team.None? || role.None? then (Rejected(FirstUserError), db1, s)
          else
            var membership := UserTeamRow(freshMembershipId, row.id, Some(team.value.id), Some(role.value.id));
            var db2 := db1.(userTeams := db1.userTeams + [membership]);
            var (r, s1) := UserOf(s, up, row, db2, rank, encodeTree, decodeTree, encodeProject, decodeProject);
            (Forward(r), db2, s1)
        else
          var (r, s1) := UserOf(s, up, row, db1, rank, encodeTree, decodeTree, encodeProject, decodeProject);
          (Forward(r), db1, s1)
  }

  /** An identity without an e-mail address is rejected and changes nothing. */
  lemma PopulateNoEmail(db: Database, s: C.State, up: bool, raw: RawUser, freshUserId: string,
                        freshMembershipId: string, rank: map<string, nat>,
                        encodeTree: Tx.Tree -> string, decodeTree: string -> Tx.Tree,
                        encodeProject: PM.Project -> string, decodeProject: string -> PM.Project)
    requires Tx.WellFormed(db.terms, rank) && raw.emails == []
    ensures Populate(db, s, up, raw, freshUserId, freshMembershipId, rank, encodeTree, decodeTree, encodeProject, decodeProject)
            == (Rejected(NoEmailError), db, s)
  {
  }

  /** The first user to sign in is stored with the defaults and made a member of the first
      team with the Admin role; when there is no team or no Admin role the user is stored
      but the call is rejected and no membership is created. */
  lemma PopulateFirstUser(db: Database, s: C.State, up: bool, raw: RawUser, freshUserId: string,
                          freshMembershipId: string, rank: map<string, nat>,
                          encodeTree: Tx.Tree -> string, decodeTree: string -> Tx.Tree,
                          encodeProject: PM.Project -> string, decodeProject: string -> PM.Project)
    requires Tx.WellFormed(db.terms, rank) && raw.emails != [] && db.users == []
    ensures var (r, db', s') := Populate(db, s, up, raw, freshUserId, freshMembershipId, rank,
                                         encodeTree, decodeTree, encodeProject, decodeProject);
            var row := NewUser(raw, raw.emails[0], freshUserId);
            && db'.users == [row]
            && (db.teams == [] || AdminRoleRow(db.teamRoles).None? ==>
                  r == Rejected(FirstUserError) && db'.userTeams == db.userTeams && s' == s)
            && (db.teams != [] && AdminRoleRow(db.teamRoles).Some? ==>
                  && db'.userTeams == db.userTeams + [UserTeamRow(freshMembershipId, freshUserId, Some(db.teams[0].id),
                                                                  Some(AdminRoleRow(db.teamRoles).value.id))]
                  && !r.Rejected?)
  {
  }

  /** Any later new user is stored with the defaults and joins no team; a known e-mail
      address stores nothing. */
  lemma PopulateLaterUser(db: Database, s: C.State, up: bool, raw: RawUser, freshUserId: string,
                          freshMembershipId: string, rank: map<string, nat>,
                          encodeTree: Tx.Tree -> string, decodeTree: string -> Tx.Tree,
                          encodeProject: PM.Project -> string, decodeProject: string -> PM.Project)
    requires Tx.WellFormed(db.terms, rank) && raw.emails != [] && db.users != []
    ensures var db' := Populate(db, s, up, raw, freshUserId, freshMembershipId, rank,
                                encodeTree, decodeTree, encodeProject, decodeProject).1;
            && db'.userTeams == db.userTeams
            && (FindByEmail(db.users, raw.emails[0]).Some? ==> db' == db)
            && (FindByEmail(db.users, raw.emails[0]).None? ==>
                  db'.users == db.users + [NewUser(raw, raw.emails[0], freshUserId)])
  {
  }

  /** A sign-in that resolves returns the model of the user found or created: its id is that
      row's, its e-mail equals the first address under the collation, and a newly created
      user carries exactly that address and the default name. */
  lemma PopulateResolved(db: Database, s: C.State, up: bool, raw: RawUser, freshUserId: string,
                         freshMembershipId: string, rank: map<string, nat>,
                         encodeTree: Tx.Tree -> string, decodeTree: string -> Tx.Tree,
                         encodeProject: PM.Project -> string, decodeProject: string -> PM.Project)
    requires Tx.WellFormed(db.terms, rank)
    ensures var r := Populate(db, s, up, raw, freshUserId, freshMembershipId, rank,
                              encodeTree, decodeTree, encodeProject, decodeProject).0;
            r.Resolved? ==>
              && |raw.emails| >= 1
              && r.value.id == SignInRow(db, raw, freshUserId).id
              && Strings.CollationEqual(r.value.email, raw.emails[0])
              && (FindByEmail(db.users, raw.emails[0]).None? ==>
                    && r.value.id == freshUserId && r.value.email == raw.emails[0]
                    && r.value.name == (if Truthy(raw.nickname) then raw.nickname.value else DefaultName)
                    && r.value.currentProject.None?)
  {
    var (r, db', s') := Populate(db, s, up, raw, freshUserId, freshMembershipId, rank,
                                 encodeTree, decodeTree, encodeProject, decodeProject);
    if r.Resolved? {
      var row := SignInRow(db, raw, freshUserId);
      var u := UserOf(s, up, row, db', rank, encodeTree, decodeTree, encodeProject, decodeProject).0;
      assert u == r;
      assert r.value.id == row.id && r.value.email == row.email && r.value.name == row.name;
    }
  }

  /** Signing in twice with the same identity stores the user once. */
  lemma PopulateTwice(db: Database, s: C.State, up: bool, raw: RawUser, freshUserId: string,
                      freshMembershipId: string, freshUserId': string, freshMembershipId': string,
                      rank: map<string, nat>, encodeTree: Tx.Tree -> string, decodeTree: string -> Tx.Tree,
                      encodeProject: PM.Project -> string, decodeProject: string -> PM.Project)
    requires Tx.WellFormed(db.terms, rank) && raw.emails != []
    ensures var (_, db1, s1) := Populate(db, s, up, raw, freshUserId, freshMembershipId, rank,
                                         encodeTree, decodeTree, encodeProject, decodeProject);
            Populate(db1, s1, up, raw, freshUserId', freshMembershipId', rank,
                     encodeTree, decodeTree, encodeProject, decodeProject).1 == db1
  {
    var (_, db1, s1) := Populate(db, s, up, raw, freshUserId, freshMembershipId, rank,
                                 encodeTree, decodeTree, encodeProject, decodeProject);
    assert FindByEmail(db1.users, raw.emails[0]).Some? by {
      if FindByEmail(db.users, raw.emails[0]).None? {
        assert NewUser(raw, raw.emails[0], freshUserId) in db1.users;
      }
    }
  }

  /** The users table and the team memberships, which signing in writes. */
  class Accounts {
    var db: Database

    constructor (db: Database)
      ensures this.db == db
    {
      this.db := db;
    }

    /** `populateUser`: finds the user by the first e-mail address or creates it, makes the
        very first user an Admin of the first team, and materializes the user. */
    method PopulateUser(raw: RawUser, cache: C.Cache, freshUserId: string, freshMembershipId: string,
                        ghost rank: map<string, nat>,
                        encodeTree: Tx.Tree -> string, decodeTree: string -> Tx.Tree,
                        encodeProject: PM.Project -> string, decodeProject: string -> PM.Project)
      returns (r: Settled<User>)
      requires Tx.WellFormed(db.terms, rank)
      modifies this, cache`entries, cache`ttl
      ensures (r, db, cache.Snapshot())
              == Populate(old(db), old(cache.Snapshot()), cache.up, raw, freshUserId, freshMembershipId, rank,
                          encodeTree, decodeTree, encodeProject, decodeProject)
    {
      if |raw.emails| < 1 {
        return Rejected(NoEmailError);
      }
      var email := raw.emails[0];
      var found := FindByEmail(db.users, email);
      var row: UserRow;
      if found.Some? {
        row := found.value;
      } else {
        row := NewUser(raw, email, freshUserId);
        db := db.(users := db.users + [row]);
        var count := |db.users|;
        if count == 1 {
          var team := if db.teams == [] then None else Some(db.teams[0]);
          var role := AdminRoleRow(db.teamRoles);
          if team.None? || role.None? {
            return Rejected(FirstUserError);
          }
          db := db.(userTeams := db.userTeams + [UserTeamRow(freshMembershipId, row.id, Some(team.value.id), Some(role.value.id))]);
        }
      }
      var u := RowToModel(row, db, rank, cache, encodeTree, decodeTree, encodeProject, decodeProject);
      r := Forward(u);
    }
  }
}

/** The rows of the relational store the model materializers read and write, and the
    snapshot of all tables they query. */
module Tables {
  import opened Wrappers
  import Seqs
  import TeamModel
  import Seeding
  import TaxonomyModel
  import DocumentModel

  /** A user row; `currentlyViewingDocument` links a user to the document they view. */
  datatype UserRow = UserRow(
    id: string,
    email: string,
    name: string,
    avatar: Option<string>,
    currentProjectId: Option<string>,
    currentlyViewingDocument: Option<string>)

  datatype ProjectRow = ProjectRow(id: string, name: string, slug: string, teamId: Option<string>)

  /** A user's access to a project, with the time of the last access in unix seconds. */
  datatype UserProjectRow = UserProjectRow(id: string, userId: string, projectId: Option<string>, lastAccessed: int)

  /** A user's membership of a team, with the team role it holds. */
  datatype UserTeamRow = UserTeamRow(id: string, userId: string, teamId: Option<string>, teamRoleId: Option<string>)

  datatype Database = Database(
    users: seq<UserRow>,
    projects: seq<ProjectRow>,
    teams: seq<TeamModel.TeamRow>,
    teamRoles: seq<Seeding.RoleRow>,
    teamGrants: seq<Seeding.GrantRow>,
    userTeams: seq<UserTeamRow>,
    userProjects: seq<UserProjectRow>,
    taxonomies: seq<TaxonomyModel.TaxonomyRow>,
    terms: seq<TaxonomyModel.Term>,
    documents: seq<DocumentModel.DocumentRow>)

  /** The `id`, `name` and `avatar` attributes of a user. */
  function Brief(u: UserRow): DocumentModel.BriefUser {
    DocumentModel.BriefUser(u.id, u.name, u.avatar)
  }

  /** `row.getCurrentlyViewingUsers(...)`: the users whose viewed document is `documentId`,
      in store order. */
  function ViewersOf(users: seq<UserRow>, documentId: string): (r: seq<DocumentModel.BriefUser>)
    ensures forall b :: b in r <==> exists u :: u in users && u.currentlyViewingDocument == Some(documentId) && b == Brief(u)
  {
    var viewing := Seqs.Filter(users, (u: UserRow) => u.currentlyViewingDocument == Some(documentId));
    var r := Seqs.Map(viewing, Brief);
    assert forall b :: b in r ==> exists u :: u in viewing && b == Brief(u) by {
      forall b | b in r ensures exists u :: u in viewing && b == Brief(u) {
        var i :| 0 <= i < |r| && r[i] == b;
        assert viewing[i] in viewing;
      }
    }
    assert forall u :: u in viewing ==> Brief(u) in r by {
      forall u | u in viewing ensures Brief(u) in r {
        var i :| 0 <= i < |viewing| && viewing[i] == u;
        assert r[i] == Brief(u);
      }
    }
    r
  }
}

/** The project materializer: a project row becomes the client model of the project, with
    its taxonomies (each materialized through the cache) and its documents bucketed by
    state. The promise has no rejection path: when any part fails it never settles. */
module ProjectModel {
  import opened Wrappers
  import opened Strings
  import Seqs
  import JsObject
  import C = Cache
  import Tx = TaxonomyModel
  import opened DocumentModel
  import opened Tables

  /** A bucket of documents: their number and an object from id to model. */
  datatype Bucket = Bucket(total: nat, documents: JsObject.Object<Document>)

  datatype Documents = Documents(total: nat, uploading: Bucket, processing: Bucket, ready: Bucket, complete: Bucket)

  datatype Project = Project(
    id: string,
    name: string,
    slug: string,
    documents: Documents,
    taxonomies: JsObject.Object<Tx.Tree>)

  // ---------------------------------------------------------------------------
  // Cache keys

  /** What `getProjectCacheKey` accepts: an id or a project model. */
  datatype ProjectRef = ProjectId(id: string) | ProjectModel(project: Project)

  const ProjectKeyPrefix := "models.project."

  function RefId(ref: ProjectRef): string {
    match ref
    case ProjectId(id) => id
    case ProjectModel(p) => p.id
  }

  /** `getProjectCacheKey`. */
  function ProjectCacheKey(ref: ProjectRef): (k: string)
    ensures |k| == |ProjectKeyPrefix| + |RefId(ref)|
    ensures k[..|ProjectKeyPrefix|] == ProjectKeyPrefix && k[|ProjectKeyPrefix|..] == RefId(ref)
  {
    ProjectKeyPrefix + RefId(ref)
  }

  /** A project and a taxonomy with the same id share one cache entry: both key functions
      use the `models.project.` prefix. */
  lemma ProjectKeyIsTaxonomyKey(id: string)
    ensures ProjectCacheKey(ProjectId(id)) == Tx.TaxonomyCacheKey(id)
  {
  }

  /** Project keys never collide with document keys. */
  lemma ProjectKeyNotDocumentKey(p: ProjectRef, d: DocumentRef)
    ensures ProjectCacheKey(p) != DocumentCacheKey(d)
  {
    assert ProjectCacheKey(p)[7] == 'p' && DocumentCacheKey(d)[7] == 'd';
  }

  // ---------------------------------------------------------------------------
  // Queries

  function TaxonomyId(t: Tx.TaxonomyRow): string {
    t.id
  }

  /** `ORDER BY name` compares names under the store's collation. */
  predicate NameLess(a: Tx.TaxonomyRow, b: Tx.TaxonomyRow) {
    CollationLess(a.name, b.name)
  }

  lemma NameOrder()
    ensures Seqs.StrictOrder(NameLess)
  {
    forall x: Tx.TaxonomyRow ensures !NameLess(x, x) {
      CollationLessIrreflexive(x.name);
    }
    forall x: Tx.TaxonomyRow, y: Tx.TaxonomyRow, z: Tx.TaxonomyRow | NameLess(x, y) && NameLess(y, z)
      ensures NameLess(x, z)
    {
      CollationLessTransitive(x.name, y.name, z.name);
    }
  }

  /** The taxonomies of the project, in store order. */
  function ProjectTaxonomies(db: Database, projectId: string): (r: seq<Tx.TaxonomyRow>)
    ensures forall t :: t in r <==> t in db.taxonomies && t.projectId == projectId
  {
    Seqs.Filter(db.taxonomies, (t: Tx.TaxonomyRow) => t.projectId == projectId)
  }

  /** `row.getTaxonomies({limit: 100, order: ['name']})`: the first 100 taxonomies of the
      project by name, or all of them when there are fewer. */
  function TaxonomyRows(db: Database, projectId: string): (r: seq<Tx.TaxonomyRow>)
    ensures |r| == if |ProjectTaxonomies(db, projectId)| <= Tx.QueryLimit then |ProjectTaxonomies(db, projectId)| else Tx.QueryLimit
    ensures multiset(r) <= multiset(ProjectTaxonomies(db, projectId))
    ensures forall t :: t in r ==> t in db.taxonomies && t.projectId == projectId
    ensures Seqs.SortedBy(r, NameLess)
    ensures forall t :: t in ProjectTaxonomies(db, projectId) && t !in r ==>
              forall i :: 0 <= i < |r| ==> !NameLess(t, r[i])
  {
    var matching := ProjectTaxonomies(db, projectId);
    NameOrder();
    Seqs.FirstBy(matching, NameLess, Tx.QueryLimit);
    var r := Seqs.Take(Seqs.SortBy(matching, NameLess), Tx.QueryLimit);
    forall t | t in r ensures t in matching {
      assert t in multiset(r);
    }
    r
  }

  function DocumentId(d: DocumentRow): string {
    d.id
  }

  /** `ORDER BY id` compares ids under the store's collation. */
  predicate IdLess(a: DocumentRow, b: DocumentRow) {
    CollationLess(a.id, b.id)
  }

  /** `row.getDocuments({order: ['id'], where: {state}})`: every document of the project in
      that state, and no other. */
  function DocumentRows(db: Database, projectId: string, state: string): (r: seq<DocumentRow>)
    ensures forall d :: d in r <==> d in db.documents && d.projectId == projectId && d.state == Some(state)
  {
    var matching := Seqs.Filter(db.documents, (d: DocumentRow) => d.projectId == projectId && d.state == Some(state));
    var r := Seqs.SortBy(matching, IdLess);
    forall d ensures d in r <==> d in matching {
      assert d in r <==> d in multiset(r);
      assert d in matching <==> d in multiset(matching);
    }
    r
  }

  /** The document models of the rows, each with the users viewing it. */
  function DocumentModels(db: Database, rows: seq<DocumentRow>): (r: seq<Settled<Document>>)
    ensures |r| == |rows|
    ensures forall i :: 0 <= i < |rows| ==> r[i] == DocumentFromRow(rows[i], Resolved(ViewersOf(db.users, rows[i].id)))
  {
    seq(|rows|, i requires 0 <= i < |rows| => DocumentFromRow(rows[i], Resolved(ViewersOf(db.users, rows[i].id))))
  }

  // ---------------------------------------------------------------------------
  // Assembly

  function ModelId(d: Document): string {
    d.id
  }

  /** `{total: docs.length, documents: zipObject(docs.map(d => d.id), docs)}`. */
  function MakeBucket(docs: seq<Document>): Bucket {
    Bucket(|docs|, JsObject.ZipObject(Seqs.Map(docs, ModelId), docs))
  }

  /** The resolved project, from the taxonomy rows, their trees and the three lists of
      document models. */
  function Assemble(row: ProjectRow, taxRows: seq<Tx.TaxonomyRow>, trees: seq<Tx.Tree>,
                    processing: seq<Document>, ready: seq<Document>, complete: seq<Document>): Project
    requires |trees| == |taxRows|
  {
    Project(row.id, row.name, row.slug,
            Documents(|processing| + |ready| + |complete|, Bucket(0, []),
                      MakeBucket(processing), MakeBucket(ready), MakeBucket(complete)),
            JsObject.ZipObject(Seqs.Map(taxRows, TaxonomyId), trees))
  }

  /** The set of cache keys the taxonomy rows use. */
  function TreeKeys(rows: seq<Tx.TaxonomyRow>): set<string> {
    set i | 0 <= i < |rows| :: Tx.TaxonomyCacheKey(rows[i].id)
  }

  /** The keys of all the rows are those of the rows before the last and that of the last. */
  lemma TreeKeysSnoc(rows: seq<Tx.TaxonomyRow>)
    requires rows != []
    ensures TreeKeys(rows) == TreeKeys(rows[..|rows| - 1]) + {Tx.TaxonomyCacheKey(rows[|rows| - 1].id)}
  {
    var n := |rows| - 1;
    forall k | k in TreeKeys(rows[..n]) ensures k in TreeKeys(rows) {
      var i :| 0 <= i < n && Tx.TaxonomyCacheKey(rows[..n][i].id) == k;
      assert rows[i] == rows[..n][i];
    }
    assert Tx.TaxonomyCacheKey(rows[n].id) in TreeKeys(rows);
    forall k | k in TreeKeys(rows) ensures k in TreeKeys(rows[..n]) + {Tx.TaxonomyCacheKey(rows[n].id)} {
      var i :| 0 <= i < |rows| && Tx.TaxonomyCacheKey(rows[i].id) == k;
      if i < n {
        assert rows[..n][i] == rows[i];
      }
    }
  }

  /** `taxRows.map(r => taxonomyRowToModel(r, cache, logger))`, one after the other: the
      outcome of each and the cache afterwards. */
  function TaxonomyTrees(s: C.State, up: bool, rows: seq<Tx.TaxonomyRow>, terms: seq<Tx.Term>,
                         ghost rank: map<string, nat>, encode: Tx.Tree -> string, decode: string -> Tx.Tree)
    : (res: (seq<Settled<Tx.Tree>>, C.State))
    requires Tx.WellFormed(terms, rank)
    ensures |res.0| == |rows|
    ensures forall i :: 0 <= i < |rows| ==> (res.0[i].Resolved? <==> up)
    ensures !up ==> res.1 == s
    ensures forall k :: k !in TreeKeys(rows) ==> C.Lookup(res.1, up, k) == C.Lookup(s, up, k)
    decreases |rows|
  {
    if rows == [] then ([], s)
    else
      var n := |rows| - 1;
      var (ts, s1) := TaxonomyTrees(s, up, rows[..n], terms, rank, encode, decode);
      var (t, s2) := Tx.CachedTree(s1, up, rows[n], terms, rank, encode, decode);
      TreeKeysSnoc(rows);
      (ts + [t], s2)
  }

  /** The outcome once the taxonomy outcomes are in: resolved when every taxonomy and every
      document model resolved, and otherwise never settled. */
  function Finish(row: ProjectRow, db: Database, taxRows: seq<Tx.TaxonomyRow>, trees: seq<Settled<Tx.Tree>>)
    : (r: Settled<Project>)
    requires |trees| == |taxRows|
    ensures !r.Rejected?
    ensures r.Resolved? <==>
              && AllResolved(trees)
              && AllResolved(DocumentModels(db, DocumentRows(db, row.id, "processing")))
              && AllResolved(DocumentModels(db, DocumentRows(db, row.id, "ready")))
              && AllResolved(DocumentModels(db, DocumentRows(db, row.id, "complete")))
  {
    var processing := DocumentModels(db, DocumentRows(db, row.id, "processing"));
    var ready := DocumentModels(db, DocumentRows(db, row.id, "ready"));
    var complete := DocumentModels(db, DocumentRows(db, row.id, "complete"));
    if AllResolved(trees) && AllResolved(processing) && AllResolved(ready) && AllResolved(complete) then
      Resolved(Assemble(row, taxRows, Values(trees), Values(processing), Values(ready), Values(complete)))
    else
      Pending
  }

  /** `rowToModel(row, cache, logger)`: what the promise comes to and the cache afterwards. */
  function ProjectOf(s: C.State, up: bool, row: ProjectRow, db: Database, ghost rank: map<string, nat>,
                     encode: Tx.Tree -> string, decode: string -> Tx.Tree): (res: (Settled<Project>, C.State))
    requires Tx.WellFormed(db.terms, rank)
    ensures !res.0.Rejected?
    ensures res.0.Resolved? <==>
              && (up || TaxonomyRows(db, row.id) == [])
              && AllResolved(DocumentModels(db, DocumentRows(db, row.id, "processing")))
              && AllResolved(DocumentModels(db, DocumentRows(db, row.id, "ready")))
              && AllResolved(DocumentModels(db, DocumentRows(db, row.id, "complete")))
    ensures !up ==> res.1 == s
  {
    var taxRows := TaxonomyRows(db, row.id);
    var (trees, s') := TaxonomyTrees(s, up, taxRows, db.terms, rank, encode, decode);
    assert !up && taxRows != [] ==> !trees[0].Resolved?;
    (Finish(row, db, taxRows, trees), s')
  }

  /** `rowToModel`: materializes the taxonomies one after the other through the cache. */
  method RowToModel(row: ProjectRow, db: Database, ghost rank: map<string, nat>, cache: C.Cache,
                    encode: Tx.Tree -> string, decode: string -> Tx.Tree) returns (r: Settled<Project>)
    requires Tx.WellFormed(db.terms, rank)
    modifies cache`entries, cache`ttl
    ensures (r, cache.Snapshot()) == ProjectOf(old(cache.Snapshot()), cache.up, row, db, rank, encode, decode)
  {
    var taxRows := TaxonomyRows(db, row.id);
    var trees := LoadTaxonomies(taxRows, db.terms, rank, cache, encode, decode);
    r := Finish(row, db, taxRows, trees);
  }

  /** The taxonomy step of `rowToModel`: each row read from (or built into) the cache in turn. */
  method LoadTaxonomies(taxRows: seq<Tx.TaxonomyRow>, terms: seq<Tx.Term>, ghost rank: map<string, nat>,
                        cache: C.Cache, encode: Tx.Tree -> string, decode: string -> Tx.Tree)
    returns (trees: seq<Settled<Tx.Tree>>)
    requires Tx.WellFormed(terms, rank)
    modifies cache`entries, cache`ttl
    ensures (trees, cache.Snapshot()) == TaxonomyTrees(old(cache.Snapshot()), cache.up, taxRows, terms, rank, encode, decode)
  {
    ghost var s0 := cache.Snapshot();
    trees := [];
    var i := 0;
    while i < |taxRows|
      invariant 0 <= i <= |taxRows|
      invariant (trees, cache.Snapshot()) == TaxonomyTrees(s0, cache.up, taxRows[..i], terms, rank, encode, decode)
    {
      TaxonomyTreesPrefix(s0, cache.up, taxRows, i, terms, rank, encode, decode);
      var t := Tx.RowToModel(taxRows[i], terms, rank, cache, encode, decode);
      trees := trees + [t];
      i := i + 1;
    }
    assert taxRows[..i] == taxRows;
  }

  // ---------------------------------------------------------------------------
  // Properties of a resolved project

  /** The store's keys are unique. */
  ghost predicate UniqueIds(db: Database) {
    && (forall i, j :: 0 <= i < j < |db.documents| ==> db.documents[i].id != db.documents[j].id)
    && (forall i, j :: 0 <= i < j < |db.taxonomies| ==> db.taxonomies[i].id != db.taxonomies[j].id)
  }

  /** A resolved project carries the row's fields; its document total is the sum of the
      three bucket totals, each the number of the project's documents in that state; the
      uploading bucket is empty. */
  lemma ResolvedProjectTotals(s: C.State, up: bool, row: ProjectRow, db: Database, rank: map<string, nat>,
                              encode: Tx.Tree -> string, decode: string -> Tx.Tree)
    requires Tx.WellFormed(db.terms, rank)
    requires ProjectOf(s, up, row, db, rank, encode, decode).0.Resolved?
    ensures var p := ProjectOf(s, up, row, db, rank, encode, decode).0.value;
            && p.id == row.id && p.name == row.name && p.slug == row.slug
            && p.documents.uploading == Bucket(0, [])
            && p.documents.processing.total == |DocumentRows(db, row.id, "processing")|
            && p.documents.ready.total == |DocumentRows(db, row.id, "ready")|
            && p.documents.complete.total == |DocumentRows(db, row.id, "complete")|
            && p.documents.total == p.documents.processing.total + p.documents.ready.total + p.documents.complete.total
  {
  }

  /** In a store with unique document ids, a document is identified by its id. */
  lemma SameDocumentId(db: Database, x: DocumentRow, y: DocumentRow)
    requires UniqueIds(db) && x in db.documents && y in db.documents
    ensures x.id == y.id ==> x == y
  {
    var a :| 0 <= a < |db.documents| && db.documents[a] == x;
    var b :| 0 <= b < |db.documents| && db.documents[b] == y;
    assert a != b ==> x.id != y.id;
  }

  /** Rows of a store with unique document ids have unique ids after any query. */
  lemma QueriedIdsDistinct(db: Database, projectId: string, state: string)
    requires UniqueIds(db)
    ensures var rows := DocumentRows(db, projectId, state);
            forall i, j :: 0 <= i < j < |rows| ==> rows[i].id != rows[j].id
  {
    var rows := DocumentRows(db, projectId, state);
    assert Seqs.Distinct(rows) by {
      var p := (d: DocumentRow) => d.projectId == projectId && d.state == Some(state);
      assert Seqs.Distinct(db.documents);
      Seqs.FilterDistinct(db.documents, p);
      Seqs.SortByDistinct(Seqs.Filter(db.documents, p), IdLess);
      assert rows == Seqs.SortBy(Seqs.Filter(db.documents, p), IdLess);
    }
    forall i, j | 0 <= i < j < |rows| ensures rows[i].id != rows[j].id {
      assert rows[i] in rows && rows[j] in rows;
      SameDocumentId(db, rows[i], rows[j]);
    }
  }

  /** A bucket maps the id of each queried row to that row's model. */
  lemma {:induction false} BucketLookup(db: Database, rows: seq<DocumentRow>, i: nat)
    requires AllResolved(DocumentModels(db, rows)) && i < |rows|
    requires forall a, b :: 0 <= a < b < |rows| ==> rows[a].id != rows[b].id
    ensures JsObject.Lookup(MakeBucket(Values(DocumentModels(db, rows))).documents, rows[i].id)
            == Some(DocumentFromRow(rows[i], Resolved(ViewersOf(db.users, rows[i].id))).value)
  {
    var docs := Values(DocumentModels(db, rows));
    var ks := Seqs.Map(docs, ModelId);
    ModelIdsAreRowIds(db, rows, ks);
    JsObject.ZipObjectLast(ks, docs, i);
  }

  /** A bucket's keys are exactly the ids of its rows. */
  lemma {:induction false} BucketKeys(db: Database, rows: seq<DocumentRow>, k: string)
    requires AllResolved(DocumentModels(db, rows))
    ensures k in JsObject.Keys(MakeBucket(Values(DocumentModels(db, rows))).documents)
            <==> exists i :: 0 <= i < |rows| && rows[i].id == k
  {
    var docs := Values(DocumentModels(db, rows));
    var ks := Seqs.Map(docs, ModelId);
    ModelIdsAreRowIds(db, rows, ks);
    var b := JsObject.ZipObject(ks, docs);
    assert MakeBucket(docs).documents == b;
    assert k in JsObject.Keys(b) <==> k in ks;
    if k in ks {
      var i :| 0 <= i < |ks| && ks[i] == k;
      assert rows[i].id == k;
    } else {
      forall i | 0 <= i < |rows| ensures rows[i].id != k {
        assert ks[i] == rows[i].id;
      }
    }
  }

  /** The bucket's keys, in order, are the ids of the queried rows. */
  lemma ModelIdsAreRowIds(db: Database, rows: seq<DocumentRow>, ks: seq<string>)
    requires AllResolved(DocumentModels(db, rows))
    requires ks == Seqs.Map(Values(DocumentModels(db, rows)), ModelId)
    ensures |ks| == |rows| && forall a :: 0 <= a < |rows| ==> ks[a] == rows[a].id
  {
    var docs := Values(DocumentModels(db, rows));
    forall a | 0 <= a < |rows| ensures ks[a] == rows[a].id {
      assert ks[a] == ModelId(docs[a]);
    }
  }

  /** The bucket a state's query fills when every model resolved. */
  function QueriedBucket(db: Database, projectId: string, state: string): Bucket
    requires AllResolved(DocumentModels(db, DocumentRows(db, projectId, state)))
  {
    MakeBucket(Values(DocumentModels(db, DocumentRows(db, projectId, state))))
  }

  /** A state's bucket maps the id of every document of the project in that state to its
      model, and holds no other document of the store. */
  lemma QueriedBucketContents(db: Database, projectId: string, state: string, d: DocumentRow)
    requires UniqueIds(db) && AllResolved(DocumentModels(db, DocumentRows(db, projectId, state)))
    requires d in db.documents
    ensures d.projectId == projectId && d.state == Some(state) ==>
              JsObject.Lookup(QueriedBucket(db, projectId, state).documents, d.id)
              == Some(DocumentFromRow(d, Resolved(ViewersOf(db.users, d.id))).value)
    ensures d.projectId != projectId || d.state != Some(state) ==>
              d.id !in JsObject.Keys(QueriedBucket(db, projectId, state).documents)
  {
    var rows := DocumentRows(db, projectId, state);
    if d.projectId == projectId && d.state == Some(state) {
      QueriedIdsDistinct(db, projectId, state);
      var i :| 0 <= i < |rows| && rows[i] == d;
      BucketLookup(db, rows, i);
    } else {
      BucketKeys(db, rows, d.id);
      forall i | 0 <= i < |rows| ensures rows[i].id != d.id {
        assert rows[i] in rows;
        SameDocumentId(db, rows[i], d);
      }
    }
  }

  /** The buckets of a resolved project are those of the three state queries. */
  lemma ResolvedProjectBuckets(s: C.State, up: bool, row: ProjectRow, db: Database, rank: map<string, nat>,
                               encode: Tx.Tree -> string, decode: string -> Tx.Tree)
    requires Tx.WellFormed(db.terms, rank)
    requires ProjectOf(s, up, row, db, rank, encode, decode).0.Resolved?
    ensures AllResolved(DocumentModels(db, DocumentRows(db, row.id, "processing")))
    ensures AllResolved(DocumentModels(db, DocumentRows(db, row.id, "ready")))
    ensures AllResolved(DocumentModels(db, DocumentRows(db, row.id, "complete")))
    ensures var p := ProjectOf(s, up, row, db, rank, encode, decode).0.value;
            && p.documents.processing == QueriedBucket(db, row.id, "processing")
            && p.documents.ready == QueriedBucket(db, row.id, "ready")
            && p.documents.complete == QueriedBucket(db, row.id, "complete")
  {
  }

  /** A ready document of a resolved project is listed under its id in the ready bucket
      with its annotation confidence; an "uploaded" or "failed" one is in no bucket,
      although the document materializer would show an "uploaded" one as processing. */
  lemma ResolvedProjectDocument(s: C.State, up: bool, row: ProjectRow, db: Database, rank: map<string, nat>,
                                encode: Tx.Tree -> string, decode: string -> Tx.Tree, d: DocumentRow)
    requires Tx.WellFormed(db.terms, rank) && UniqueIds(db)
    requires ProjectOf(s, up, row, db, rank, encode, decode).0.Resolved?
    requires d in db.documents && d.projectId == row.id
    ensures var p := ProjectOf(s, up, row, db, rank, encode, decode).0.value;
            var m := JsObject.Lookup(p.documents.ready.documents, d.id);
            d.state == Some("ready") ==> m.Some? && m.value.id == d.id && m.value.stage == Ready(d.confidence)
    ensures var p := ProjectOf(s, up, row, db, rank, encode, decode).0.value;
            d.state in {Some("uploaded"), Some("failed")} ==>
              && d.id !in JsObject.Keys(p.documents.processing.documents)
              && d.id !in JsObject.Keys(p.documents.ready.documents)
              && d.id !in JsObject.Keys(p.documents.complete.documents)
  {
    ResolvedProjectBuckets(s, up, row, db, rank, encode, decode);
    if d.state == Some("ready") {
      QueriedBucketContents(db, row.id, "ready", d);
      DocumentFromRowState(d, Resolved(ViewersOf(db.users, d.id)));
    } else if d.state in {Some("uploaded"), Some("failed")} {
      QueriedBucketContents(db, row.id, "processing", d);
      QueriedBucketContents(db, row.id, "ready", d);
      QueriedBucketContents(db, row.id, "complete", d);
    }
  }

  /** Each outcome is the taxonomy of its row, built from the term store. */
  ghost predicate AllBuilt(ts: seq<Settled<Tx.Tree>>, rows: seq<Tx.TaxonomyRow>, terms: seq<Tx.Term>,
                           rank: map<string, nat>)
    requires Tx.WellFormed(terms, rank)
  {
    |ts| == |rows| && forall i :: 0 <= i < |rows| ==> ts[i] == Resolved(Tx.Materialize(terms, rank, rows[i]))
  }

  /** With the cache up and none of the project's taxonomies cached, every taxonomy is built
      from the term store. */
  lemma {:induction false} TreesOnEmptyCache(s: C.State, rows: seq<Tx.TaxonomyRow>, terms: seq<Tx.Term>,
                                             rank: map<string, nat>, encode: Tx.Tree -> string,
                                             decode: string -> Tx.Tree)
    requires Tx.WellFormed(terms, rank)
    requires forall i, j :: 0 <= i < j < |rows| ==> rows[i].id != rows[j].id
    requires forall t :: t in rows ==> C.Lookup(s, true, Tx.TaxonomyCacheKey(t.id)) == C.Miss
    ensures AllBuilt(TaxonomyTrees(s, true, rows, terms, rank, encode, decode).0, rows, terms, rank)
    decreases |rows|
  {
    if rows != [] {
      var n := |rows| - 1;
      PrefixUncached(s, rows);
      TreesOnEmptyCache(s, rows[..n], terms, rank, encode, decode);
      LastTreeOnEmptyCache(s, rows, terms, rank, encode, decode);
      TaxonomyTreesStep(s, true, rows, terms, rank, encode, decode);
      var (ts1, s1) := TaxonomyTrees(s, true, rows[..n], terms, rank, encode, decode);
      AllBuiltSnoc(ts1, Tx.CachedTree(s1, true, rows[n], terms, rank, encode, decode).0, rows, terms, rank);
    }
  }

  /** The rows before the last keep the uniqueness and freshness of all the rows. */
  lemma PrefixUncached(s: C.State, rows: seq<Tx.TaxonomyRow>)
    requires rows != []
    requires forall i, j :: 0 <= i < j < |rows| ==> rows[i].id != rows[j].id
    requires forall t :: t in rows ==> C.Lookup(s, true, Tx.TaxonomyCacheKey(t.id)) == C.Miss
    ensures var prefix := rows[..|rows| - 1];
            && (forall i, j :: 0 <= i < j < |prefix| ==> prefix[i].id != prefix[j].id)
            && (forall t :: t in prefix ==> C.Lookup(s, true, Tx.TaxonomyCacheKey(t.id)) == C.Miss)
  {
    var prefix := rows[..|rows| - 1];
    assert forall i :: 0 <= i < |prefix| ==> prefix[i] == rows[i];
    assert forall t :: t in prefix ==> t in rows;
  }

  /** Building a row's taxonomy from the term store, as a function of the row. */
  ghost function Built(terms: seq<Tx.Term>, rank: map<string, nat>): Tx.TaxonomyRow -> Settled<Tx.Tree>
    requires Tx.WellFormed(terms, rank)
  {
    row => Resolved(Tx.Materialize(terms, rank, row))
  }

  lemma AllBuiltSnoc(ts: seq<Settled<Tx.Tree>>, t: Settled<Tx.Tree>, rows: seq<Tx.TaxonomyRow>,
                     terms: seq<Tx.Term>, rank: map<string, nat>)
    requires Tx.WellFormed(terms, rank) && rows != []
    requires AllBuilt(ts, rows[..|rows| - 1], terms, rank)
    requires t == Resolved(Tx.Materialize(terms, rank, rows[|rows| - 1]))
    ensures AllBuilt(ts + [t], rows, terms, rank)
  {
    var f := Built(terms, rank);
    assert forall i :: 0 <= i < |ts| ==> ts[i] == f(rows[i]) by {
      forall i | 0 <= i < |ts| ensures ts[i] == f(rows[i]) {
        assert rows[..|rows| - 1][i] == rows[i];
      }
    }
    Seqs.PointwiseSnoc(ts, t, rows, f);
  }

  /** The last row of a fold over rows with unique ids, none of them cached, is built from
      the term store. */
  lemma LastTreeOnEmptyCache(s: C.State, rows: seq<Tx.TaxonomyRow>, terms: seq<Tx.Term>,
                             rank: map<string, nat>, encode: Tx.Tree -> string,
                             decode: string -> Tx.Tree)
    requires Tx.WellFormed(terms, rank) && rows != []
    requires forall i, j :: 0 <= i < j < |rows| ==> rows[i].id != rows[j].id
    requires forall t :: t in rows ==> C.Lookup(s, true, Tx.TaxonomyCacheKey(t.id)) == C.Miss
    ensures var s1 := TaxonomyTrees(s, true, rows[..|rows| - 1], terms, rank, encode, decode).1;
            Tx.CachedTree(s1, true, rows[|rows| - 1], terms, rank, encode, decode).0
            == Resolved(Tx.Materialize(terms, rank, rows[|rows| - 1]))
  {
    var n := |rows| - 1;
    var s1 := TaxonomyTrees(s, true, rows[..n], terms, rank, encode, decode).1;
    LastKeyFresh(rows);
    assert rows[n] in rows;
    assert C.Lookup(s1, true, Tx.TaxonomyCacheKey(rows[n].id)) == C.Miss;
    Tx.CachedTreeMiss(s1, rows[n], terms, rank, encode, decode);
  }

  /** One step of the fold: the last row is materialized against the cache the others left. */
  lemma TaxonomyTreesStep(s: C.State, up: bool, rows: seq<Tx.TaxonomyRow>, terms: seq<Tx.Term>,
                          rank: map<string, nat>, encode: Tx.Tree -> string, decode: string -> Tx.Tree)
    requires Tx.WellFormed(terms, rank) && rows != []
    ensures var (ts1, s1) := TaxonomyTrees(s, up, rows[..|rows| - 1], terms, rank, encode, decode);
            TaxonomyTrees(s, up, rows, terms, rank, encode, decode).0
            == ts1 + [Tx.CachedTree(s1, up, rows[|rows| - 1], terms, rank, encode, decode).0]
  {
  }

  /** One more row: its outcome is that of reading its taxonomy from the cache the rows
      before it left. */
  lemma TaxonomyTreesPrefix(s: C.State, up: bool, rows: seq<Tx.TaxonomyRow>, i: nat, terms: seq<Tx.Term>,
                            rank: map<string, nat>, encode: Tx.Tree -> string, decode: string -> Tx.Tree)
    requires Tx.WellFormed(terms, rank) && i < |rows|
    ensures var (ts, s1) := TaxonomyTrees(s, up, rows[..i], terms, rank, encode, decode);
            var (t, s2) := Tx.CachedTree(s1, up, rows[i], terms, rank, encode, decode);
            TaxonomyTrees(s, up, rows[..i + 1], terms, rank, encode, decode) == (ts + [t], s2)
  {
    assert rows[..i + 1][..i] == rows[..i];
  }

  /** With distinct ids, the last row's key is not among the keys of the rows before it. */
  lemma LastKeyFresh(rows: seq<Tx.TaxonomyRow>)
    requires rows != []
    requires forall i, j :: 0 <= i < j < |rows| ==> rows[i].id != rows[j].id
    ensures Tx.TaxonomyCacheKey(rows[|rows| - 1].id) !in TreeKeys(rows[..|rows| - 1])
  {
  }

  /** Rows of a store with unique taxonomy ids have unique ids after the taxonomy query. */
  lemma TaxonomyIdsDistinct(db: Database, projectId: string)
    requires UniqueIds(db)
    ensures var rows := TaxonomyRows(db, projectId);
            forall i, j :: 0 <= i < j < |rows| ==> rows[i].id != rows[j].id
  {
    var taxonomies := db.taxonomies;
    assert Seqs.Distinct(taxonomies);
    var matching := ProjectTaxonomies(db, projectId);
    Seqs.FilterDistinct(taxonomies, (t: Tx.TaxonomyRow) => t.projectId == projectId);
    Seqs.SortByDistinct(matching, NameLess);
    var sorted := Seqs.SortBy(matching, NameLess);
    var rows := TaxonomyRows(db, projectId);
    assert rows == Seqs.Take(sorted, Tx.QueryLimit);
    forall i, j | 0 <= i < j < |rows| ensures rows[i].id != rows[j].id {
      assert rows[i] == sorted[i] && rows[j] == sorted[j];
      assert rows[i] in taxonomies && rows[j] in taxonomies;
    }
  }

  /** With the cache up and none of its taxonomies cached, a resolved project maps the id of
      each of its (at most 100) taxonomies to the tree built from the term store. */
  lemma ResolvedProjectTaxonomies(s: C.State, row: ProjectRow, db: Database, rank: map<string, nat>,
                                  encode: Tx.Tree -> string, decode: string -> Tx.Tree, i: nat)
    requires Tx.WellFormed(db.terms, rank) && UniqueIds(db)
    requires i < |TaxonomyRows(db, row.id)|
    requires forall t :: t in TaxonomyRows(db, row.id) ==> C.Lookup(s, true, Tx.TaxonomyCacheKey(t.id)) == C.Miss
    requires ProjectOf(s, true, row, db, rank, encode, decode).0.Resolved?
    ensures var t := TaxonomyRows(db, row.id)[i];
            JsObject.Lookup(ProjectOf(s, true, row, db, rank, encode, decode).0.value.taxonomies, t.id)
            == Some(Tx.Materialize(db.terms, rank, t))
  {
    var taxRows := TaxonomyRows(db, row.id);
    ProjectTaxonomyObject(s, true, row, db, rank, encode, decode);
    TaxonomyIdsDistinct(db, row.id);
    TreesOnEmptyCache(s, taxRows, db.terms, rank, encode, decode);
    TaxonomyObjectLookup(taxRows, TaxonomyTrees(s, true, taxRows, db.terms, rank, encode, decode).0, i);
  }

  /** Zipping rows of distinct ids with their trees maps each id to its own tree. */
  lemma TaxonomyObjectLookup(taxRows: seq<Tx.TaxonomyRow>, trees: seq<Settled<Tx.Tree>>, i: nat)
    requires i < |taxRows|
    requires forall a, b :: 0 <= a < b < |taxRows| ==> taxRows[a].id != taxRows[b].id
    requires AllResolved(trees) && |trees| == |taxRows|
    ensures JsObject.Lookup(JsObject.ZipObject(Seqs.Map(taxRows, TaxonomyId), Values(trees)), taxRows[i].id)
            == Some(trees[i].value)
  {
    var ks := Seqs.Map(taxRows, TaxonomyId);
    var vs := Values(trees);
    forall j | i < j < |ks| ensures ks[j] != ks[i] {
      assert ks[j] == taxRows[j].id && ks[i] == taxRows[i].id;
    }
    JsObject.ZipObjectLast(ks, vs, i);
  }

  /** A resolved project's taxonomies object pairs the queried rows' ids with their trees. */
  lemma ProjectTaxonomyObject(s: C.State, up: bool, row: ProjectRow, db: Database, rank: map<string, nat>,
                              encode: Tx.Tree -> string, decode: string -> Tx.Tree)
    requires Tx.WellFormed(db.terms, rank)
    requires ProjectOf(s, up, row, db, rank, encode, decode).0.Resolved?
    ensures var trees := TaxonomyTrees(s, up, TaxonomyRows(db, row.id), db.terms, rank, encode, decode).0;
            && AllResolved(trees)
            && ProjectOf(s, up, row, db, rank, encode, decode).0.value.taxonomies
               == JsObject.ZipObject(Seqs.Map(TaxonomyRows(db, row.id), TaxonomyId), Values(trees))
  {
  }
}

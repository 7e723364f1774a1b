/** The taxonomy materializer: flat parent-pointer term rows become the nested tree that
    clients browse (cached under a string key), and a naturally sorted export document. */
module TaxonomyModel {
  import opened Wrappers
  import opened Strings
  import Seqs
  import JsObject
  import C = Cache

  /** One row of the term table. */
  // `text` is the term's label (`label` is a Dafny keyword).
  datatype Term = Term(id: string, text: string, parentId: Option<string>, taxonomyId: string)

  /** One row of the taxonomy table. */
  datatype TaxonomyRow = TaxonomyRow(id: string, projectId: string, name: string)

  datatype Leaf = Leaf(id: string, text: string)

  /** A tree node. `children` is the list of leaves when no child has children of its own,
      and otherwise an object from each child's lower-cased text to its subtree. */
  datatype Tree = Tree(id: Option<string>, text: string, children: Children, childrenCount: nat)
  datatype Children = Leaves(leaves: seq<Leaf>) | Subtrees(subtrees: JsObject.Object<Tree>)

  /** An export node: a sorted list of leaf labels, or an object from label to export node
      (a child without children maps to the empty list). */
  datatype Export = Labels(labels: seq<string>) | Keyed(entries: JsObject.Object<Export>)

  /** The `limit` of the term queries. */
  const QueryLimit: nat := 100

  // ---------------------------------------------------------------------------
  // The term store

  /** The store's referential invariant, which the engine assumes and does not check:
      ids are non-empty and unique, and the parent relation is acyclic, witnessed by a
      rank that every child has strictly below its parent. */
  ghost predicate WellFormed(store: seq<Term>, rank: map<string, nat>) {
    && (forall i, j :: 0 <= i < j < |store| ==> store[i].id != store[j].id)
    && (forall i :: 0 <= i < |store| ==>
          && store[i].id != ""
          && store[i].id in rank && rank[store[i].id] < |store|
          && (store[i].parentId.Some? && store[i].parentId.value in rank ==>
                rank[store[i].id] < rank[store[i].parentId.value]))
  }

  /** `ORDER BY label` compares labels under the store's collation. */
  predicate LabelLess(a: Term, b: Term) {
    CollationLess(a.text, b.text)
  }

  lemma LabelOrder()
    ensures Seqs.StrictOrder(LabelLess)
  {
    forall x: Term ensures !LabelLess(x, x) {
      CollationLessIrreflexive(x.text);
    }
    forall x: Term, y: Term, z: Term | LabelLess(x, y) && LabelLess(y, z) ensures LabelLess(x, z) {
      CollationLessTransitive(x.text, y.text, z.text);
    }
  }

  /** `ORDER BY label`: the terms sorted by label under the collation. */
  function OrderByLabel(ts: seq<Term>): (r: seq<Term>)
    ensures |r| == |ts| && multiset(r) == multiset(ts)
    ensures Seqs.SortedBy(r, LabelLess)
  {
    LabelOrder();
    Seqs.SortBySorted(ts, LabelLess);
    Seqs.SortBy(ts, LabelLess)
  }

  lemma InSorted(ts: seq<Term>, t: Term)
    ensures t in OrderByLabel(ts) <==> t in ts
  {
    assert t in OrderByLabel(ts) <==> t in multiset(OrderByLabel(ts));
  }

  /** `findAll({limit: 100, order: ['label'], where: {parentId}})`: the first 100 children
      of `parentId` by label, or all of them when there are fewer. */
  function ChildTerms(store: seq<Term>, parentId: string): (r: seq<Term>)
    ensures |r| == if |ChildrenAmong(store, parentId)| <= QueryLimit then |ChildrenAmong(store, parentId)| else QueryLimit
    ensures multiset(r) <= multiset(ChildrenAmong(store, parentId))
    ensures forall t :: t in r ==> t in store && t.parentId == Some(parentId)
    ensures Seqs.SortedBy(r, LabelLess)
    ensures forall t :: t in ChildrenAmong(store, parentId) && t !in r ==>
              forall i :: 0 <= i < |r| ==> !LabelLess(t, r[i])
  {
    var matching := ChildrenAmong(store, parentId);
    LabelOrder();
    Seqs.FirstBy(matching, LabelLess, QueryLimit);
    var r := Seqs.Take(OrderByLabel(matching), QueryLimit);
    forall t | t in r ensures t in matching {
      assert t in multiset(r);
    }
    r
  }

  /** `row.getTerms({limit: 100, order: ['label'], where: {parentId: null}})`: the first 100
      root terms of the taxonomy by label, or all of them when there are fewer. */
  function RootTerms(store: seq<Term>, taxonomyId: string): (r: seq<Term>)
    ensures |r| == if |ChildrenIn(store, taxonomyId, None)| <= QueryLimit then |ChildrenIn(store, taxonomyId, None)| else QueryLimit
    ensures multiset(r) <= multiset(ChildrenIn(store, taxonomyId, None))
    ensures forall t :: t in r ==> t in store && t.parentId.None? && t.taxonomyId == taxonomyId
    ensures Seqs.SortedBy(r, LabelLess)
    ensures forall t :: t in ChildrenIn(store, taxonomyId, None) && t !in r ==>
              forall i :: 0 <= i < |r| ==> !LabelLess(t, r[i])
  {
    var matching := ChildrenIn(store, taxonomyId, None);
    LabelOrder();
    Seqs.FirstBy(matching, LabelLess, QueryLimit);
    var r := Seqs.Take(OrderByLabel(matching), QueryLimit);
    forall t | t in r ensures t in matching {
      assert t in multiset(r);
    }
    r
  }

  /** The per-term child queries of one level, concatenated. */
  function AllChildTerms(store: seq<Term>, terms: seq<Term>): (r: seq<Term>)
    ensures forall t :: t in r ==> t in store
  {
    if terms == [] then [] else ChildTerms(store, terms[0].id) + AllChildTerms(store, terms[1..])
  }

  /** `children.filter(c => c.parentId === id)`. */
  function ChildrenAmong(kids: seq<Term>, id: string): (r: seq<Term>)
    ensures forall t :: t in r <==> t in kids && t.parentId == Some(id)
  {
    Seqs.Filter(kids, (t: Term) => t.parentId == Some(id))
  }

  function LeavesOf(terms: seq<Term>): (r: seq<Leaf>)
    ensures |r| == |terms|
    ensures forall i :: 0 <= i < |terms| ==> r[i] == Leaf(terms[i].id, terms[i].text)
  {
    if terms == [] then [] else [Leaf(terms[0].id, terms[0].text)] + LeavesOf(terms[1..])
  }

  function LowerLabels(terms: seq<Term>): (r: seq<string>)
    ensures |r| == |terms|
    ensures forall i :: 0 <= i < |terms| ==> r[i] == Lower(terms[i].text)
  {
    if terms == [] then [] else [Lower(terms[0].text)] + LowerLabels(terms[1..])
  }

  // ---------------------------------------------------------------------------
  // buildTaxonomyTree

  /** `buildTaxonomyTree(id, label)(terms)`; the children of every term are fetched with
      one query each, and the fan-out is taken in order. */
  function BuildTree(store: seq<Term>, ghost rank: map<string, nat>, ghost bound: nat,
                     id: Option<string>, text: string, terms: seq<Term>): (r: Tree)
    requires WellFormed(store, rank)
    requires forall t :: t in terms ==> t in store && rank[t.id] < bound
    ensures r.id == id && r.text == text && r.childrenCount == |terms|
    ensures r.children.Leaves? <==> AllChildTerms(store, terms) == []
    ensures r.children.Leaves? ==> r.children.leaves == LeavesOf(terms)
    ensures r.children.Subtrees? ==>
              forall k :: k in JsObject.Keys(r.children.subtrees) <==> k in LowerLabels(terms)
    decreases bound, 1
  {
    if |terms| < 1 then Tree(id, text, Leaves([]), 0)
    else
      var kids := AllChildTerms(store, terms);
      if |kids| < 1 then Tree(id, text, Leaves(LeavesOf(terms)), |terms|)
      else
        var subtrees := SubtreesOf(store, rank, bound, kids, terms);
        var keys := Seqs.Map(subtrees, SubtreeKey);
        assert keys == LowerLabels(terms);
        Tree(id, text, Subtrees(JsObject.ZipObject(keys, subtrees)), |subtrees|)
  }

  /** `grandChildren.map(g => g.label.toLowerCase())`. */
  function SubtreeKey(t: Tree): string {
    Lower(t.text)
  }

  /** `Promise.all(termObjects.map(...))`: one subtree per term, in order. */
  function SubtreesOf(store: seq<Term>, ghost rank: map<string, nat>, ghost bound: nat,
                      kids: seq<Term>, terms: seq<Term>): (r: seq<Tree>)
    requires WellFormed(store, rank)
    requires forall t :: t in terms ==> t in store && rank[t.id] < bound
    requires forall c :: c in kids ==> c in store
    ensures |r| == |terms|
    ensures forall i :: 0 <= i < |terms| ==> r[i] == Subtree(store, rank, kids, terms[i])
    decreases bound, 0
  {
    seq(|terms|, i requires 0 <= i < |terms| => Subtree(store, rank, kids, terms[i]))
  }

  /** The recursive call for one term: its node, built from those of the level's children
      whose parent it is. */
  function Subtree(store: seq<Term>, ghost rank: map<string, nat>, kids: seq<Term>, t: Term): (r: Tree)
    requires WellFormed(store, rank)
    requires t in store && forall c :: c in kids ==> c in store
    ensures r.id == Some(t.id) && r.text == t.text
    decreases if t.id in rank then rank[t.id] else 0, 2
  {
    BuildTree(store, rank, rank[t.id], Some(t.id), t.text, ChildrenAmong(kids, t.id))
  }

  /** Nothing to expand: the node has no children and a zero count. */
  lemma TreeOfNoTerms(store: seq<Term>, rank: map<string, nat>, bound: nat, id: Option<string>, text: string)
    requires WellFormed(store, rank)
    ensures BuildTree(store, rank, bound, id, text, []) == Tree(id, text, Leaves([]), 0)
  {
  }

  lemma {:induction false} NoChildTerms(store: seq<Term>, terms: seq<Term>)
    ensures AllChildTerms(store, terms) == [] <==> forall t :: t in terms ==> ChildTerms(store, t.id) == []
  {
    if terms != [] {
      NoChildTerms(store, terms[1..]);
      assert forall t :: t in terms <==> t == terms[0] || t in terms[1..];
    }
  }

  /** When no given term has a child, `children` is the `{id, label}` list of the terms in
      the order given and `childrenCount` is its length. */
  lemma TreeOfLeaves(store: seq<Term>, rank: map<string, nat>, bound: nat,
                     id: Option<string>, text: string, terms: seq<Term>)
    requires WellFormed(store, rank)
    requires forall t :: t in terms ==> t in store && rank[t.id] < bound
    requires forall t :: t in terms ==> ChildTerms(store, t.id) == []
    ensures BuildTree(store, rank, bound, id, text, terms)
            == Tree(id, text, Leaves(LeavesOf(terms)), |LeavesOf(terms)|)
  {
    NoChildTerms(store, terms);
  }

  /** The subtree stored under a key is the one of the LAST term whose lower-cased label
      is that key: an earlier term with the same key is lost. */
  lemma TreeSubtreeOf(store: seq<Term>, rank: map<string, nat>, bound: nat,
                      id: Option<string>, text: string, terms: seq<Term>, i: nat)
    requires WellFormed(store, rank)
    requires forall t :: t in terms ==> t in store && rank[t.id] < bound
    requires i < |terms| && AllChildTerms(store, terms) != []
    requires forall j :: i < j < |terms| ==> Lower(terms[j].text) != Lower(terms[i].text)
    ensures var r := BuildTree(store, rank, bound, id, text, terms);
            && r.children.Subtrees?
            && JsObject.Lookup(r.children.subtrees, Lower(terms[i].text))
               == Some(Subtree(store, rank, AllChildTerms(store, terms), terms[i]))
  {
    var kids := AllChildTerms(store, terms);
    var subtrees := SubtreesOf(store, rank, bound, kids, terms);
    var keys := Seqs.Map(subtrees, SubtreeKey);
    assert BuildTree(store, rank, bound, id, text, terms)
           == Tree(id, text, Subtrees(JsObject.ZipObject(keys, subtrees)), |subtrees|);
    JsObject.ZipObjectLast(keys, subtrees, i);
  }

  /** With unique ids, the terms a subtree is built from are exactly that term's own
      child query. */
  lemma {:induction false} ChildrenAmongIsChildQuery(store: seq<Term>, terms: seq<Term>, t: Term)
    requires forall i, j :: 0 <= i < j < |terms| ==> terms[i].id != terms[j].id
    requires t in terms
    ensures ChildrenAmong(AllChildTerms(store, terms), t.id) == ChildTerms(store, t.id)
  {
    var p := (c: Term) => c.parentId == Some(t.id);
    var rest := AllChildTerms(store, terms[1..]);
    Seqs.FilterConcat(ChildTerms(store, terms[0].id), rest, p);
    if terms[0] == t {
      Seqs.FilterKeepsAll(ChildTerms(store, t.id), p);
      assert t !in terms[1..] by {
        forall k | 0 <= k < |terms[1..]| ensures terms[1..][k].id != t.id {
          assert terms[1..][k] == terms[k + 1];
        }
      }
      NotAmongOthers(store, terms[1..], t.id);
    } else {
      Seqs.FilterDropsAll(ChildTerms(store, terms[0].id), p);
      assert forall i, j :: 0 <= i < j < |terms[1..]| ==> terms[1..][i].id != terms[1..][j].id by {
        forall i, j | 0 <= i < j < |terms[1..]| ensures terms[1..][i].id != terms[1..][j].id {
          assert terms[1..][i] == terms[i + 1] && terms[1..][j] == terms[j + 1];
        }
      }
      ChildrenAmongIsChildQuery(store, terms[1..], t);
    }
  }

  lemma {:induction false} NotAmongOthers(store: seq<Term>, terms: seq<Term>, id: string)
    requires forall u :: u in terms ==> u.id != id
    ensures ChildrenAmong(AllChildTerms(store, terms), id) == []
  {
    if terms != [] {
      var p := (c: Term) => c.parentId == Some(id);
      Seqs.FilterConcat(ChildTerms(store, terms[0].id), AllChildTerms(store, terms[1..]), p);
      Seqs.FilterDropsAll(ChildTerms(store, terms[0].id), p);
      NotAmongOthers(store, terms[1..], id);
    }
  }

  // ---------------------------------------------------------------------------
  // rowToModel: cache or build

  /** `getTaxonomyCacheKey`: the same `models.project.` prefix project models use. */
  function TaxonomyCacheKey(taxId: string): (k: string)
    ensures |k| == 15 + |taxId| && k[15..] == taxId
  {
    "models.project." + taxId
  }

  lemma TaxonomyCacheKeyInjective(a: string, b: string)
    requires TaxonomyCacheKey(a) == TaxonomyCacheKey(b)
    ensures a == b
  {
    assert a == TaxonomyCacheKey(a)[15..];
  }

  /** The tree of a taxonomy: the root has no id, the taxonomy's name as label, and the
      (at most 100) root terms of the taxonomy ordered by text as children. */
  function Materialize(store: seq<Term>, ghost rank: map<string, nat>, row: TaxonomyRow): (t: Tree)
    requires WellFormed(store, rank)
    ensures t.id == None && t.text == row.name
    ensures t.childrenCount == |RootTerms(store, row.id)| <= QueryLimit
  {
    BuildTree(store, rank, |store|, None, row.name, RootTerms(store, row.id))
  }

  /** The message a failed cache read rejects with (the cache's own error). */
  const CacheReadError := "cache read error"

  /** What `rowToModel` resolves to and what the cache holds afterwards. */
  function CachedTree(s: C.State, up: bool, row: TaxonomyRow, store: seq<Term>, ghost rank: map<string, nat>,
                      encode: Tree -> string, decode: string -> Tree): (Settled<Tree>, C.State)
    requires WellFormed(store, rank)
  {
    var key := TaxonomyCacheKey(row.id);
    match C.Lookup(s, up, key)
    case ReadError => (Rejected(CacheReadError), s)
    case Hit(v) => (Resolved(decode(v)), s)
    case Miss =>
      var t := Materialize(store, rank, row);
      (Resolved(t), C.Write(s, key, encode(t), C.DefaultCacheTimeout))
  }

  /** A failed read rejects, builds nothing and writes nothing. */
  lemma CachedTreeReadError(s: C.State, row: TaxonomyRow, store: seq<Term>, rank: map<string, nat>,
                            encode: Tree -> string, decode: string -> Tree)
    requires WellFormed(store, rank)
    ensures CachedTree(s, false, row, store, rank, encode, decode) == (Rejected(CacheReadError), s)
  {
  }

  /** A hit returns the decoded entry, whatever the store holds, and writes nothing. */
  lemma CachedTreeHit(s: C.State, row: TaxonomyRow, store: seq<Term>, rank: map<string, nat>,
                      store': seq<Term>, rank': map<string, nat>, encode: Tree -> string, decode: string -> Tree)
    requires WellFormed(store, rank) && WellFormed(store', rank')
    requires C.Lookup(s, true, TaxonomyCacheKey(row.id)).Hit?
    ensures CachedTree(s, true, row, store, rank, encode, decode)
            == CachedTree(s, true, row, store', rank', encode, decode)
            == (Resolved(decode(s.entries[TaxonomyCacheKey(row.id)])), s)
  {
  }

  /** A miss builds the tree, writes its encoding with the default expiry, and returns it. */
  lemma CachedTreeMiss(s: C.State, row: TaxonomyRow, store: seq<Term>, rank: map<string, nat>,
                       encode: Tree -> string, decode: string -> Tree)
    requires WellFormed(store, rank)
    requires C.Lookup(s, true, TaxonomyCacheKey(row.id)) == C.Miss
    ensures var (r, s') := CachedTree(s, true, row, store, rank, encode, decode);
            && r == Resolved(Materialize(store, rank, row))
            && s'.entries == s.entries[TaxonomyCacheKey(row.id) := encode(r.value)]
            && s'.ttl == s.ttl[TaxonomyCacheKey(row.id) := C.DefaultCacheTimeout]
  {
  }

  /** If encoding round-trips, a second call right after a miss is a hit that returns the
      same tree and leaves the cache as it is. */
  lemma CachedTreeTwice(s: C.State, row: TaxonomyRow, store: seq<Term>, rank: map<string, nat>,
                        encode: Tree -> string, decode: string -> Tree)
    requires WellFormed(store, rank)
    requires var t := Materialize(store, rank, row); encode(t) != "" && decode(encode(t)) == t
    ensures var (r1, s1) := CachedTree(s, true, row, store, rank, encode, decode);
            var (r2, s2) := CachedTree(s1, true, row, store, rank, encode, decode);
            r2 == r1 && s2 == s1
  {
  }

  /** `rowToModel(row, cache, logger)`. */
  method RowToModel(row: TaxonomyRow, store: seq<Term>, ghost rank: map<string, nat>, cache: C.Cache,
                    encode: Tree -> string, decode: string -> Tree) returns (r: Settled<Tree>)
    requires WellFormed(store, rank)
    modifies cache`entries, cache`ttl
    ensures (r, cache.Snapshot()) == CachedTree(old(cache.Snapshot()), cache.up, row, store, rank, encode, decode)
  {
    var key := TaxonomyCacheKey(row.id);
    var read := cache.Get(key);
    match read
    case ReadError =>
      r := Rejected(CacheReadError);
    case Hit(v) =>
      r := Resolved(decode(v));
    case Miss =>
      var t := Materialize(store, rank, row);
      cache.Set(key, encode(t), C.DefaultCacheTimeout);
      r := Resolved(t);
  }

  // ---------------------------------------------------------------------------
  // buildTaxonomyExport

  /** A falsy parent id (null or the empty string) selects the root terms. */
  function EffectiveParent(parent: Option<string>): (p: Option<string>)
    ensures p.None? <==> Truthy(parent) == false
    ensures p.Some? ==> p == parent
  {
    if parent == Some("") then None else parent
  }

  /** The terms of the taxonomy directly under `parent`, in store order. */
  function ChildrenIn(store: seq<Term>, taxonomyId: string, parent: Option<string>): (r: seq<Term>)
    ensures forall t :: t in r <==>
              t in store && t.taxonomyId == taxonomyId && t.parentId == EffectiveParent(parent)
  {
    Seqs.Filter(store, (t: Term) => t.taxonomyId == taxonomyId && t.parentId == EffectiveParent(parent))
  }

  /** Some term of the store, of any taxonomy, names `id` as its parent. */
  predicate HasChild(store: seq<Term>, id: string) {
    exists j :: 0 <= j < |store| && store[j].parentId == Some(id)
  }

  /** The inner join of the grandchildren query: the children that have children
      themselves, one row each, in store order. */
  function GrandparentRows(store: seq<Term>, taxonomyId: string, parent: Option<string>): (r: seq<Term>)
    ensures forall t :: t in r <==> t in ChildrenIn(store, taxonomyId, parent) && HasChild(store, t.id)
  {
    Seqs.Filter(ChildrenIn(store, taxonomyId, parent), (t: Term) => HasChild(store, t.id))
  }

  function TextOf(t: Term): string {
    t.text
  }

  function IdOf(t: Term): string {
    t.id
  }

  function Texts(ts: seq<Term>): (r: seq<string>)
    ensures |r| == |ts| && forall i :: 0 <= i < |ts| ==> r[i] == ts[i].text
  {
    Seqs.Map(ts, TextOf)
  }

  /** Every export node below `parent` is built from terms of smaller rank than `bound`. */
  ghost predicate ExportBound(store: seq<Term>, rank: map<string, nat>, bound: nat,
                              taxonomyId: string, parent: Option<string>)
  {
    forall t :: t in ChildrenIn(store, taxonomyId, parent) ==> t.id in rank && rank[t.id] < bound
  }

  /** The terms below `parent` that `notIn` does not name (the `id NOT IN ids` query). */
  function ChildlessIn(store: seq<Term>, taxonomyId: string, parent: Option<string>, ids: seq<string>): (r: seq<Term>)
    ensures forall t :: t in r <==> t in ChildrenIn(store, taxonomyId, parent) && t.id !in ids
  {
    Seqs.Filter(ChildrenIn(store, taxonomyId, parent), (t: Term) => t.id !in ids)
  }

  /** The recursion stays within the rank bound: a row's children rank below the row. */
  lemma RowBound(store: seq<Term>, rank: map<string, nat>, bound: nat,
                 taxonomyId: string, parent: Option<string>, t: Term)
    requires WellFormed(store, rank)
    requires ExportBound(store, rank, bound, taxonomyId, parent)
    requires t in GrandparentRows(store, taxonomyId, parent)
    ensures t.id in rank && rank[t.id] < bound
    ensures ExportBound(store, rank, rank[t.id], taxonomyId, Some(t.id))
  {
    var j :| 0 <= j < |store| && store[j] == t;
    assert t.id != "";
    forall c | c in ChildrenIn(store, taxonomyId, Some(t.id)) ensures c.id in rank && rank[c.id] < rank[t.id] {
      var k :| 0 <= k < |store| && store[k] == c;
    }
  }

  lemma RowsBound(store: seq<Term>, rank: map<string, nat>, bound: nat,
                  taxonomyId: string, parent: Option<string>)
    requires WellFormed(store, rank)
    requires ExportBound(store, rank, bound, taxonomyId, parent)
    ensures forall t :: t in GrandparentRows(store, taxonomyId, parent) ==>
              t.id in rank && rank[t.id] < bound && ExportBound(store, rank, rank[t.id], taxonomyId, Some(t.id))
  {
    forall t | t in GrandparentRows(store, taxonomyId, parent)
      ensures t.id in rank && rank[t.id] < bound && ExportBound(store, rank, rank[t.id], taxonomyId, Some(t.id))
    {
      RowBound(store, rank, bound, taxonomyId, parent, t);
    }
  }

  /** `grandchildren.map(() => [])`. */
  function EmptyLists(n: nat): (r: seq<Export>)
    ensures |r| == n && forall i :: 0 <= i < n ==> r[i] == Labels([])
  {
    seq(n, _ => Labels([]))
  }

  /** `{...responseUnordered, ...additionalTerms}`: the subtrees of the rows, then every
      other child as an empty list. */
  function Merge(rows: seq<Term>, childrenTax: seq<Export>, others: seq<Term>): (r: JsObject.Object<Export>)
    requires |rows| == |childrenTax|
    ensures JsObject.DistinctKeys(r)
    ensures forall k :: k in JsObject.Keys(r) <==> k in Texts(rows) || k in Texts(others)
  {
    JsObject.Assign(JsObject.ZipObject(Texts(rows), childrenTax),
                    JsObject.ZipObject(Texts(others), EmptyLists(|others|)))
  }

  /** A label of the other children maps to the empty list, whatever a row had under it. */
  lemma MergeOther(rows: seq<Term>, childrenTax: seq<Export>, others: seq<Term>, k: string)
    requires |rows| == |childrenTax| && k in Texts(others)
    ensures JsObject.Lookup(Merge(rows, childrenTax, others), k) == Some(Labels([]))
  {
    var responseUnordered := JsObject.ZipObject(Texts(rows), childrenTax);
    var labels := Texts(others);
    var empties := EmptyLists(|others|);
    var additionalTerms := JsObject.ZipObject(labels, empties);
    assert Merge(rows, childrenTax, others) == JsObject.Assign(responseUnordered, additionalTerms);
    assert k in JsObject.Keys(additionalTerms);
    JsObject.AssignLookup(responseUnordered, additionalTerms, k);
    JsObject.ZipObjectConst(labels, empties, Labels([]), k);
  }

  /** Any other label keeps what `zipObject` of the rows gave it. */
  lemma MergeRow(rows: seq<Term>, childrenTax: seq<Export>, others: seq<Term>, k: string)
    requires |rows| == |childrenTax| && k !in Texts(others)
    ensures JsObject.Lookup(Merge(rows, childrenTax, others), k)
            == JsObject.Lookup(JsObject.ZipObject(Texts(rows), childrenTax), k)
  {
    var additionalTerms := JsObject.ZipObject(Texts(others), EmptyLists(|others|));
    JsObject.AssignLookup(JsObject.ZipObject(Texts(rows), childrenTax), additionalTerms, k);
  }

  /** `zipObject(sortedKeys, sortedKeys.map(k => merged[k]))` with the keys sorted. */
  function SortKeys(merged: JsObject.Object<Export>, natLess: (string, string) -> bool): (r: JsObject.Object<Export>)
    requires JsObject.DistinctKeys(merged)
    ensures JsObject.Keys(r) == Seqs.SortBy(JsObject.Keys(merged), natLess)
  {
    var sortedKeys := Seqs.SortBy(JsObject.Keys(merged), natLess);
    Seqs.SortByMembers(JsObject.Keys(merged), natLess);
    Seqs.SortByDistinct(JsObject.Keys(merged), natLess);
    JsObject.ZipObject(sortedKeys, JsObject.LookupAll(merged, sortedKeys))
  }

  /** Sorting the keys changes the order only: every key keeps its value. */
  lemma SortKeysLookup(merged: JsObject.Object<Export>, natLess: (string, string) -> bool, k: string)
    requires JsObject.DistinctKeys(merged)
    ensures JsObject.Lookup(SortKeys(merged, natLess), k) == JsObject.Lookup(merged, k)
  {
    var keys := JsObject.Keys(merged);
    Seqs.SortByMembers(keys, natLess);
    if k in keys {
      SortKeysLookupAt(merged, natLess, k);
    }
  }

  lemma SortKeysLookupAt(merged: JsObject.Object<Export>, natLess: (string, string) -> bool, k: string)
    requires JsObject.DistinctKeys(merged) && k in JsObject.Keys(merged)
    ensures JsObject.Lookup(SortKeys(merged, natLess), k) == JsObject.Lookup(merged, k)
  {
    var keys := JsObject.Keys(merged);
    var sortedKeys := Seqs.SortBy(keys, natLess);
    Seqs.SortByMembers(keys, natLess);
    Seqs.SortByDistinct(keys, natLess);
    var i :| 0 <= i < |sortedKeys| && sortedKeys[i] == k;
    var values := JsObject.LookupAll(merged, sortedKeys);
    assert SortKeys(merged, natLess) == JsObject.ZipObject(sortedKeys, values);
    JsObject.ZipObjectLast(sortedKeys, values, i);
  }

  /** `buildTaxonomyExport(database, taxonomyId, parentId)`. `natLess` is the comparator of
      the natural-order sort of the keys. */
  function BuildExport(store: seq<Term>, ghost rank: map<string, nat>, ghost bound: nat,
                       natLess: (string, string) -> bool, taxonomyId: string, parent: Option<string>): (r: Export)
    requires WellFormed(store, rank)
    requires ExportBound(store, rank, bound, taxonomyId, parent)
    decreases bound, 1
  {
    var rows := GrandparentRows(store, taxonomyId, parent);
    if |rows| < 1 then Labels(Texts(OrderByLabel(ChildrenIn(store, taxonomyId, parent))))
    else
      RowsBound(store, rank, bound, taxonomyId, parent);
      var childrenTax := ChildExports(store, rank, bound, natLess, taxonomyId, rows);
      Keyed(SortKeys(Merge(rows, childrenTax, ChildlessIn(store, taxonomyId, parent, Seqs.Map(rows, IdOf))), natLess))
  }

  /** `Promise.all(ids.map(id => buildTaxonomyExport(database, taxonomyId, id)))`. */
  function ChildExports(store: seq<Term>, ghost rank: map<string, nat>, ghost bound: nat,
                        natLess: (string, string) -> bool, taxonomyId: string, rows: seq<Term>): (r: seq<Export>)
    requires WellFormed(store, rank)
    requires forall t :: t in rows ==>
               t.id in rank && rank[t.id] < bound && ExportBound(store, rank, rank[t.id], taxonomyId, Some(t.id))
    ensures |r| == |rows|
    ensures forall i :: 0 <= i < |rows| ==>
              r[i] == BuildExport(store, rank, rank[rows[i].id], natLess, taxonomyId, Some(rows[i].id))
    decreases bound, 0
  {
    seq(|rows|, i requires 0 <= i < |rows| =>
      BuildExport(store, rank, rank[rows[i].id], natLess, taxonomyId, Some(rows[i].id)))
  }

  /** With no grandchildren below `parent`, the export is the list of the children's
      labels: a permutation of them, ordered by label. */
  lemma ExportLeaves(store: seq<Term>, rank: map<string, nat>, bound: nat,
                     natLess: (string, string) -> bool, taxonomyId: string, parent: Option<string>)
    requires WellFormed(store, rank)
    requires ExportBound(store, rank, bound, taxonomyId, parent)
    requires forall t :: t in ChildrenIn(store, taxonomyId, parent) ==> !HasChild(store, t.id)
    ensures var r := BuildExport(store, rank, bound, natLess, taxonomyId, parent);
            && r.Labels?
            && multiset(r.labels) == multiset(Texts(ChildrenIn(store, taxonomyId, parent)))
            && Seqs.SortedBy(r.labels, CollationLess)
  {
    var children := ChildrenIn(store, taxonomyId, parent);
    Seqs.FilterDropsAll(children, (t: Term) => HasChild(store, t.id));
    var sorted := OrderByLabel(children);
    LabelOrder();
    Seqs.SortBySorted(children, LabelLess);
    Seqs.MapSortBy(children, LabelLess, TextOf);
    var labels := Texts(sorted);
    forall i, j | 0 <= i < j < |labels| ensures !CollationLess(labels[j], labels[i]) {
      assert !LabelLess(sorted[j], sorted[i]);
    }
  }

  /** With some grandchild below `parent`, the export is an object whose keys are exactly
      the labels of the children, each once, in the order of `natLess` when that is a
      strict order. */
  lemma ExportKeys(store: seq<Term>, rank: map<string, nat>, bound: nat,
                   natLess: (string, string) -> bool, taxonomyId: string, parent: Option<string>)
    requires WellFormed(store, rank)
    requires ExportBound(store, rank, bound, taxonomyId, parent)
    requires GrandparentRows(store, taxonomyId, parent) != []
    ensures var r := BuildExport(store, rank, bound, natLess, taxonomyId, parent);
            && r.Keyed?
            && Seqs.Distinct(JsObject.Keys(r.entries))
            && (forall k :: k in JsObject.Keys(r.entries) <==> k in Texts(ChildrenIn(store, taxonomyId, parent)))
            && (Seqs.StrictOrder(natLess) ==> Seqs.SortedBy(JsObject.Keys(r.entries), natLess))
  {
    var children := ChildrenIn(store, taxonomyId, parent);
    var rows := GrandparentRows(store, taxonomyId, parent);
    RowsBound(store, rank, bound, taxonomyId, parent);
    var ids := Seqs.Map(rows, IdOf);
    var others := ChildlessIn(store, taxonomyId, parent, ids);
    var merged := Merge(rows, ChildExports(store, rank, bound, natLess, taxonomyId, rows), others);
    var keys := JsObject.Keys(merged);
    var sortedKeys := Seqs.SortBy(keys, natLess);
    assert BuildExport(store, rank, bound, natLess, taxonomyId, parent) == Keyed(SortKeys(merged, natLess));
    Seqs.SortByDistinct(keys, natLess);
    forall k ensures k in sortedKeys <==> k in Texts(children) {
      assert (k in sortedKeys) == (k in multiset(sortedKeys));
      assert (k in keys) == (k in multiset(keys));
      ChildLabels(store, taxonomyId, parent, rows, ids, others, k);
    }
    if Seqs.StrictOrder(natLess) {
      Seqs.SortBySorted(keys, natLess);
    }
  }

  /** A label is a row's or another child's exactly when it is some child's. */
  lemma ChildLabels(store: seq<Term>, taxonomyId: string, parent: Option<string>,
                    rows: seq<Term>, ids: seq<string>, others: seq<Term>, k: string)
    requires rows == GrandparentRows(store, taxonomyId, parent) && ids == Seqs.Map(rows, IdOf)
    requires others == ChildlessIn(store, taxonomyId, parent, ids)
    ensures k in Texts(rows) || k in Texts(others) <==> k in Texts(ChildrenIn(store, taxonomyId, parent))
  {
    var children := ChildrenIn(store, taxonomyId, parent);
    if k in Texts(children) {
      var i :| 0 <= i < |children| && Texts(children)[i] == k;
      ChildLabelCovered(store, taxonomyId, parent, rows, ids, others, children[i]);
    }
    if k in Texts(rows) {
      var j :| 0 <= j < |rows| && Texts(rows)[j] == k;
      LabelOfMember(rows[j], rows, children);
    }
    if k in Texts(others) {
      var j :| 0 <= j < |others| && Texts(others)[j] == k;
      LabelOfMember(others[j], others, children);
    }
  }

  lemma LabelOfMember(t: Term, part: seq<Term>, whole: seq<Term>)
    requires t in part && forall u :: u in part ==> u in whole
    ensures t.text in Texts(whole)
  {
    var i :| 0 <= i < |whole| && whole[i] == t;
    assert Texts(whole)[i] == t.text;
  }

  /** Every child is a row (it has children) or one of the others (it has none). */
  lemma ChildLabelCovered(store: seq<Term>, taxonomyId: string, parent: Option<string>,
                          rows: seq<Term>, ids: seq<string>, others: seq<Term>, c: Term)
    requires rows == GrandparentRows(store, taxonomyId, parent) && ids == Seqs.Map(rows, IdOf)
    requires others == ChildlessIn(store, taxonomyId, parent, ids)
    requires c in ChildrenIn(store, taxonomyId, parent)
    ensures c.text in Texts(rows) || c.text in Texts(others)
  {
    if HasChild(store, c.id) {
      LabelOfMember(c, [c], rows);
    } else {
      NotARow(store, taxonomyId, parent, rows, ids, c);
      LabelOfMember(c, [c], others);
    }
  }

  /** A term without children is not among the rows of the grandchildren query. */
  lemma NotARow(store: seq<Term>, taxonomyId: string, parent: Option<string>,
                rows: seq<Term>, ids: seq<string>, c: Term)
    requires rows == GrandparentRows(store, taxonomyId, parent) && ids == Seqs.Map(rows, IdOf)
    requires !HasChild(store, c.id)
    ensures c.id !in ids
  {
    forall j | 0 <= j < |ids| ensures ids[j] != c.id {
      assert rows[j] in rows;
    }
  }

  /** A child without children of its own exports as the empty list, even when a row with
      the same label has a subtree: the spread puts the other children last. */
  lemma ExportChildless(store: seq<Term>, rank: map<string, nat>, bound: nat,
                        natLess: (string, string) -> bool, taxonomyId: string, parent: Option<string>, c: Term)
    requires WellFormed(store, rank)
    requires ExportBound(store, rank, bound, taxonomyId, parent)
    requires GrandparentRows(store, taxonomyId, parent) != []
    requires c in ChildrenIn(store, taxonomyId, parent) && !HasChild(store, c.id)
    ensures var r := BuildExport(store, rank, bound, natLess, taxonomyId, parent);
            r.Keyed? && JsObject.Lookup(r.entries, c.text) == Some(Labels([]))
  {
    var rows := GrandparentRows(store, taxonomyId, parent);
    RowsBound(store, rank, bound, taxonomyId, parent);
    var ids := Seqs.Map(rows, IdOf);
    var others := ChildlessIn(store, taxonomyId, parent, ids);
    var childrenTax := ChildExports(store, rank, bound, natLess, taxonomyId, rows);
    var merged := Merge(rows, childrenTax, others);
    assert BuildExport(store, rank, bound, natLess, taxonomyId, parent) == Keyed(SortKeys(merged, natLess));
    NotARow(store, taxonomyId, parent, rows, ids, c);
    LabelOfMember(c, [c], others);
    MergeOther(rows, childrenTax, others, c.text);
    SortKeysLookup(merged, natLess, c.text);
  }

  /** A row's label maps to the row's own export when no other child has that label and
      no later row repeats it. */
  lemma ExportRow(store: seq<Term>, rank: map<string, nat>, bound: nat,
                  natLess: (string, string) -> bool, taxonomyId: string, parent: Option<string>, i: nat)
    requires WellFormed(store, rank)
    requires ExportBound(store, rank, bound, taxonomyId, parent)
    requires i < |GrandparentRows(store, taxonomyId, parent)|
    requires var rows := GrandparentRows(store, taxonomyId, parent);
             forall c :: c in ChildrenIn(store, taxonomyId, parent) && c != rows[i] ==> c.text != rows[i].text
    ensures var rows := GrandparentRows(store, taxonomyId, parent);
            var r := BuildExport(store, rank, bound, natLess, taxonomyId, parent);
            && rows[i].id in rank && ExportBound(store, rank, rank[rows[i].id], taxonomyId, Some(rows[i].id))
            && r.Keyed?
            && JsObject.Lookup(r.entries, rows[i].text)
               == Some(BuildExport(store, rank, rank[rows[i].id], natLess, taxonomyId, Some(rows[i].id)))
  {
    var rows := GrandparentRows(store, taxonomyId, parent);
    RowsBound(store, rank, bound, taxonomyId, parent);
    assert rows[i] in rows;
    var ids := Seqs.Map(rows, IdOf);
    var others := ChildlessIn(store, taxonomyId, parent, ids);
    var childrenTax := ChildExports(store, rank, bound, natLess, taxonomyId, rows);
    var merged := Merge(rows, childrenTax, others);
    var r := BuildExport(store, rank, bound, natLess, taxonomyId, parent);
    assert r == Keyed(SortKeys(merged, natLess));
    var k := rows[i].text;
    assert JsObject.Lookup(r.entries, k) == Some(childrenTax[i]) by {
      UniqueRowLabel(store, rank, taxonomyId, parent, i, ids, others);
      JsObject.ZipObjectLast(Texts(rows), childrenTax, i);
      MergeRow(rows, childrenTax, others, k);
      SortKeysLookup(merged, natLess, k);
    }
  }

  /** The label of a row that no other child shares is neither among the other children's
      labels nor repeated by a later row. */
  lemma UniqueRowLabel(store: seq<Term>, rank: map<string, nat>, taxonomyId: string, parent: Option<string>,
                       i: nat, ids: seq<string>, others: seq<Term>)
    requires WellFormed(store, rank)
    requires i < |GrandparentRows(store, taxonomyId, parent)|
    requires var rows := GrandparentRows(store, taxonomyId, parent);
             forall c :: c in ChildrenIn(store, taxonomyId, parent) && c != rows[i] ==> c.text != rows[i].text
    requires ids == Seqs.Map(GrandparentRows(store, taxonomyId, parent), IdOf)
    requires others == ChildlessIn(store, taxonomyId, parent, ids)
    ensures var rows := GrandparentRows(store, taxonomyId, parent);
            && rows[i].text !in Texts(others)
            && forall j :: i < j < |rows| ==> Texts(rows)[j] != Texts(rows)[i]
  {
    var rows := GrandparentRows(store, taxonomyId, parent);
    assert rows[i] in rows;
    forall j | 0 <= j < |others| ensures Texts(others)[j] != rows[i].text {
      assert others[j] in others;
      assert rows[i].id == ids[i];
    }
    forall j | i < j < |rows| ensures Texts(rows)[j] != Texts(rows)[i] {
      assert rows[j] in rows;
      IndicesDiffer(store, rank, taxonomyId, parent, i, j);
    }
  }

  /** With unique term ids, two rows of the grandchildren query are different terms. */
  lemma IndicesDiffer(store: seq<Term>, rank: map<string, nat>, taxonomyId: string, parent: Option<string>, i: nat, j: nat)
    requires WellFormed(store, rank)
    requires i < j < |GrandparentRows(store, taxonomyId, parent)|
    ensures GrandparentRows(store, taxonomyId, parent)[i] != GrandparentRows(store, taxonomyId, parent)[j]
  {
    assert Seqs.Distinct(store);
    var p := (t: Term) => t.taxonomyId == taxonomyId && t.parentId == EffectiveParent(parent);
    Seqs.FilterDistinct(store, p);
    Seqs.FilterDistinct(ChildrenIn(store, taxonomyId, parent), (t: Term) => HasChild(store, t.id));
  }

  // ---------------------------------------------------------------------------
  // handleExport

  /** How writing the export to a temporary file went: `temp.file` threw, or passed an
      error to its callback, or `fs.writeFile` passed an error, or the file was written. */
  datatype FileStep = TempFileThrows | TempFileFails | WriteFails | Written

  /** What the HTTP response receives; `NoResponse` is a request left unanswered (the
      error is only logged). */
  datatype Response = Status(code: nat, body: string) | Download(fileName: string, contents: Export) | NoResponse

  const NotFoundBody := "Not found."
  const ExportFailedBody := "Something went wrong with export."

  function DownloadName(taxonomyName: string): string {
    "Endexa taxonomy export - " + taxonomyName + ".json"
  }

  /** `taxonomy.findById(taxId)`. */
  function FindTaxonomy(taxonomies: seq<TaxonomyRow>, id: string): (r: Option<TaxonomyRow>)
    ensures r.Some? ==> r.value in taxonomies && r.value.id == id
    ensures r.None? <==> forall t :: t in taxonomies ==> t.id != id
  {
    if taxonomies == [] then None
    else if taxonomies[0].id == id then Some(taxonomies[0])
    else FindTaxonomy(taxonomies[1..], id)
  }

  /** The root level of a well-formed store is within the top bound. */
  lemma RootBound(store: seq<Term>, rank: map<string, nat>, taxonomyId: string)
    requires WellFormed(store, rank)
    ensures ExportBound(store, rank, |store|, taxonomyId, None)
  {
    forall t | t in ChildrenIn(store, taxonomyId, None) ensures t.id in rank && rank[t.id] < |store| {
      var j :| 0 <= j < |store| && store[j] == t;
    }
  }

  /** The whole export of a taxonomy, from its root terms. */
  function ExportOf(store: seq<Term>, ghost rank: map<string, nat>, natLess: (string, string) -> bool,
                    taxonomyId: string): Export
    requires WellFormed(store, rank)
  {
    RootBound(store, rank, taxonomyId);
    BuildExport(store, rank, |store|, natLess, taxonomyId, None)
  }

  /** `handleExport(taxId, database, res, logger)`: 404 for an unknown taxonomy, a download
      named after the taxonomy once the file is written, 500 only when the step after the
      export throws, and no response when a file callback reports an error. */
  function HandleExport(taxonomies: seq<TaxonomyRow>, store: seq<Term>, ghost rank: map<string, nat>,
                        natLess: (string, string) -> bool, taxId: string, file: FileStep): (r: Response)
    requires WellFormed(store, rank)
    ensures r == Status(404, NotFoundBody) <==> forall t :: t in taxonomies ==> t.id != taxId
    ensures r == Status(500, ExportFailedBody) <==> FindTaxonomy(taxonomies, taxId).Some? && file == TempFileThrows
    ensures r.Download? <==> FindTaxonomy(taxonomies, taxId).Some? && file == Written
    ensures r.Download? ==> && r.fileName == DownloadName(FindTaxonomy(taxonomies, taxId).value.name)
                            && r.contents == ExportOf(store, rank, natLess, taxId)
  {
    match FindTaxonomy(taxonomies, taxId)
    case None => Status(404, NotFoundBody)
    case Some(tax) =>
      var contents := ExportOf(store, rank, natLess, taxId);
      match file
      case TempFileThrows => Status(500, ExportFailedBody)
      case TempFileFails => NoResponse
      case WriteFails => NoResponse
      case Written => Download(DownloadName(tax.name), contents)
  }

  /** The 404 answer depends on the taxonomy table alone: the terms are never read. */
  lemma NotFoundReadsNoTerms(taxonomies: seq<TaxonomyRow>, store: seq<Term>, rank: map<string, nat>,
                             store': seq<Term>, rank': map<string, nat>, natLess: (string, string) -> bool,
                             taxId: string, file: FileStep, file': FileStep)
    requires WellFormed(store, rank) && WellFormed(store', rank')
    requires FindTaxonomy(taxonomies, taxId).None?
    ensures HandleExport(taxonomies, store, rank, natLess, taxId, file)
            == HandleExport(taxonomies, store', rank', natLess, taxId, file')
  {
  }
}

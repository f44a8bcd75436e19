/** The relational entry store (the Prisma `knowledgeEntry` table) as a map from id
    to row, with the queries and writes the core issues against it. The `tags`
    column holds `JSON.stringify(tags)`; rows here keep the parsed list, which is the
    same thing by `Base.TagsRoundTrip`, and text matching runs on the JSON form. */
module EntryStore {
  import opened Base

  datatype Entry = Entry(
    id: string,
    title: string,
    textForEmbedding: string,
    originalSource: string,
    contentType: ContentType,
    tags: seq<Tag>,
    chromaId: Option<string>,
    userId: string,
    createdAt: int,
    updatedAt: int)

  /** The columns a caller supplies on `create`. */
  datatype NewRow = NewRow(
    title: string,
    textForEmbedding: string,
    originalSource: string,
    contentType: ContentType,
    tags: seq<Tag>,
    userId: string)

  /** The columns an `update` sets; `None` leaves a column as it is. */
  datatype Patch = Patch(
    title: Option<string>,
    contentType: Option<ContentType>,
    originalSource: Option<string>,
    textForEmbedding: Option<string>,
    tags: Option<seq<Tag>>,
    chromaId: Option<string>)

  /** Prisma's "record to update/delete does not exist" error. */
  datatype StoreError = RecordNotFound

  /** The owner condition of a query; `None` means the query has none. */
  predicate InScope(e: Entry, owner: Option<string>) {
    owner.None? || e.userId == owner.value
  }

  /** `...(userId && { userId })`: the owner condition is added only for a truthy
      user id, so an absent or empty id searches every owner's rows. */
  function ScopeOf(userId: Option<string>): (owner: Option<string>)
    ensures owner.Some? <==> Truthy(userId)
    ensures owner.Some? ==> owner == userId
  {
    if Truthy(userId) then userId else None
  }

  /** The `OR` of the text query: the query is a case-sensitive substring of the
      title, of the searchable text, or of the tags' JSON. */
  predicate MatchesText(e: Entry, query: string) {
    Contains(e.title, query) || Contains(e.textForEmbedding, query) || Contains(TagsJson(e.tags), query)
  }

  predicate TextCandidate(e: Entry, owner: Option<string>, query: string, exclude: set<string>) {
    InScope(e, owner) && MatchesText(e, query) && e.id !in exclude
  }

  function Candidates(rows: map<string, Entry>, owner: Option<string>, query: string, exclude: set<string>): set<string> {
    set k | k in rows && TextCandidate(rows[k], owner, query, exclude)
  }

  function IdSet(es: seq<Entry>): set<string> {
    set i | 0 <= i < |es| :: es[i].id
  }

  predicate DistinctIds(es: seq<Entry>) {
    forall i, j :: 0 <= i < j < |es| ==> es[i].id != es[j].id
  }

  /** `orderBy: { createdAt: 'desc' }` */
  predicate NewestFirst(es: seq<Entry>) {
    forall i, j :: 0 <= i < j < |es| ==> es[i].createdAt >= es[j].createdAt
  }

  /** `found` is a correct answer of `findMany({ where: owner, text OR, id notIn
      exclude; take; orderBy createdAt desc })`: stored candidate rows, each once,
      newest first, as many as `take` allows, and no candidate left out is newer
      than one taken. Rows with equal `createdAt` may come in any order. */
  ghost predicate TextAnswer(rows: map<string, Entry>, owner: Option<string>, query: string,
                             exclude: set<string>, take: int, found: seq<Entry>)
  {
    var cands := Candidates(rows, owner, query, exclude);
    && (forall i :: 0 <= i < |found| ==> found[i].id in cands && rows[found[i].id] == found[i])
    && DistinctIds(found)
    && NewestFirst(found)
    && |found| == (if take <= 0 then 0 else if take < |cands| then take else |cands|)
    && (forall k, i :: k in cands && k !in IdSet(found) && 0 <= i < |found| ==> rows[k].createdAt <= found[i].createdAt)
  }

  /** A finite non-empty set of stored ids has a newest row. */
  lemma {:induction false} NewestExists(rows: map<string, Entry>, pool: set<string>) returns (k: string)
    requires pool != {} && pool <= rows.Keys
    ensures k in pool && forall j :: j in pool ==> rows[j].createdAt <= rows[k].createdAt
    decreases pool
  {
    var x :| x in pool;
    if pool == {x} {
      return x;
    }
    var m := NewestExists(rows, pool - {x});
    k := if rows[x].createdAt > rows[m].createdAt then x else m;
  }

  lemma IdSetAppend(es: seq<Entry>, e: Entry)
    ensures IdSet(es + [e]) == IdSet(es) + {e.id}
  {
    var s := es + [e];
    assert s[|es|].id == e.id;
    forall id | id in IdSet(es)
      ensures id in IdSet(s)
    {
      var i :| 0 <= i < |es| && es[i].id == id;
      assert s[i].id == id;
    }
  }

  /** Applies the columns a patch sets; `@updatedAt` becomes `now`. */
  function Patched(e: Entry, p: Patch, now: int): Entry {
    e.(title := p.title.GetOr(e.title),
       contentType := p.contentType.GetOr(e.contentType),
       originalSource := p.originalSource.GetOr(e.originalSource),
       textForEmbedding := p.textForEmbedding.GetOr(e.textForEmbedding),
       tags := p.tags.GetOr(e.tags),
       chromaId := if p.chromaId.Some? then p.chromaId else e.chromaId,
       updatedAt := now)
  }

  /** The state of the newest-first selection: `found` holds the newest candidates
      in order, `pool` the candidates not taken yet, none of them newer. */
  ghost predicate Selecting(rows: map<string, Entry>, cands: set<string>, pool: set<string>, found: seq<Entry>) {
    PoolAccounted(cands, pool, found) && TakenNewestFirst(rows, cands, pool, found)
  }

  ghost predicate PoolAccounted(cands: set<string>, pool: set<string>, found: seq<Entry>) {
    && pool == cands - IdSet(found)
    && IdSet(found) <= cands
    && |pool| + |found| == |cands|
  }

  ghost predicate TakenNewestFirst(rows: map<string, Entry>, cands: set<string>, pool: set<string>, found: seq<Entry>) {
    && cands <= rows.Keys
    && pool <= cands
    && (forall i :: 0 <= i < |found| ==> found[i].id in cands && rows[found[i].id] == found[i])
    && DistinctIds(found)
    && NewestFirst(found)
    && (forall k, i :: k in pool && 0 <= i < |found| ==> rows[k].createdAt <= found[i].createdAt)
  }

  /** Taking the newest row of the pool keeps the selection state. */
  lemma SelectNewest(rows: map<string, Entry>, cands: set<string>, pool: set<string>, found: seq<Entry>, k: string)
    requires Selecting(rows, cands, pool, found)
    requires (forall id :: id in rows ==> rows[id].id == id)
    requires k in pool && forall j :: j in pool ==> rows[j].createdAt <= rows[k].createdAt
    ensures Selecting(rows, cands, pool - {k}, found + [rows[k]])
  {
    AccountNewest(cands, pool, found, rows[k]);
    OrderNewest(rows, cands, pool, found, k);
  }

  lemma AccountNewest(cands: set<string>, pool: set<string>, found: seq<Entry>, e: Entry)
    requires PoolAccounted(cands, pool, found)
    requires e.id in pool
    ensures PoolAccounted(cands, pool - {e.id}, found + [e])
  {
    var found' := found + [e];
    var pool' := pool - {e.id};
    IdSetAppend(found, e);
    assert pool' == cands - IdSet(found');
    assert |pool'| == |pool| - 1 by {
      assert pool == pool' + {e.id};
    }
  }

  lemma OrderNewest(rows: map<string, Entry>, cands: set<string>, pool: set<string>, found: seq<Entry>, k: string)
    requires TakenNewestFirst(rows, cands, pool, found)
    requires pool == cands - IdSet(found)
    requires (forall id :: id in rows ==> rows[id].id == id)
    requires k in pool && forall j :: j in pool ==> rows[j].createdAt <= rows[k].createdAt
    ensures TakenNewestFirst(rows, cands, pool - {k}, found + [rows[k]])
  {
    var e := rows[k];
    var found' := found + [e];
    var pool' := pool - {k};
    assert e.id == k;
    forall i | 0 <= i < |found'|
      ensures found'[i].id in cands && rows[found'[i].id] == found'[i]
    {
      if i < |found| {
        assert found'[i] == found[i];
      }
    }
    forall i, j | 0 <= i < j < |found'|
      ensures found'[i].id != found'[j].id && found'[i].createdAt >= found'[j].createdAt
    {
      assert found'[i] == found[i];
      if j == |found| {
        assert found[i].id in IdSet(found);
      } else {
        assert found'[j] == found[j];
      }
    }
    forall k2, i | k2 in pool' && 0 <= i < |found'|
      ensures rows[k2].createdAt <= found'[i].createdAt
    {
      if i < |found| {
        assert found'[i] == found[i];
      }
    }
  }

  /** When the selection stops, it is a correct answer of the text query. */
  lemma SelectionDone(rows: map<string, Entry>, owner: Option<string>, query: string, exclude: set<string>,
                      take: int, pool: set<string>, found: seq<Entry>)
    requires Selecting(rows, Candidates(rows, owner, query, exclude), pool, found)
    requires |found| >= take || pool == {}
    requires |found| <= take || found == []
    ensures TextAnswer(rows, owner, query, exclude, take, found)
  {
  }

  class EntryTable {
    var rows: map<string, Entry>
    /** Every id the table has handed out, including those of deleted rows. */
    var issued: set<string>

    ghost predicate Valid()
      reads this
    {
      rows.Keys <= issued && forall k :: k in rows ==> rows[k].id == k
    }

    constructor ()
      ensures Valid() && rows == map[] && issued == {}
    {
      rows := map[];
      issued := {};
    }

    /** `findUnique({ where: { id, ...owner } })` */
    function FindUnique(id: string, owner: Option<string>): Option<Entry>
      reads this
    {
      if id in rows && InScope(rows[id], owner) then Some(rows[id]) else None
    }

    /** `create`: a row under an id never handed out before, with no vector id
        yet and both timestamps `now`. */
    method Create(row: NewRow, now: int) returns (e: Entry)
      requires Valid()
      modifies this
      ensures Valid()
      ensures e.id !in old(issued) && issued == old(issued) + {e.id}
      ensures e == Entry(e.id, row.title, row.textForEmbedding, row.originalSource, row.contentType,
                         row.tags, None, row.userId, now, now)
      ensures rows == old(rows)[e.id := e]
    {
      FreshIdExists(issued);
      var id :| id !in issued;
      e := Entry(id, row.title, row.textForEmbedding, row.originalSource, row.contentType,
                 row.tags, None, row.userId, now, now);
      rows := rows[id := e];
      issued := issued + {id};
    }

    /** `update({ where: { id, ...owner }, data })`: throws when no row matches. */
    method Update(id: string, owner: Option<string>, patch: Patch, now: int) returns (r: Result<Entry, StoreError>)
      requires Valid()
      modifies this
      ensures Valid() && issued == old(issued)
      ensures r.Err? <==> old(FindUnique(id, owner)).None?
      ensures r.Ok? ==> r.value == Patched(old(rows)[id], patch, now) && rows == old(rows)[id := r.value]
      ensures r.Err? ==> rows == old(rows)
    {
      if FindUnique(id, owner).None? {
        return Err(RecordNotFound);
      }
      var e := Patched(rows[id], patch, now);
      rows := rows[id := e];
      return Ok(e);
    }

    /** `delete({ where: { id, ...owner } })`: throws when no row matches. */
    method Delete(id: string, owner: Option<string>) returns (r: Result<Entry, StoreError>)
      requires Valid()
      modifies this
      ensures Valid() && issued == old(issued)
      ensures r.Err? <==> old(FindUnique(id, owner)).None?
      ensures r.Ok? ==> r.value == old(rows)[id] && rows == old(rows) - {id}
      ensures r.Err? ==> rows == old(rows)
    {
      if FindUnique(id, owner).None? {
        return Err(RecordNotFound);
      }
      r := Ok(rows[id]);
      rows := rows - {id};
    }

    /** The text query of the hybrid search. Among rows of equal `createdAt` the
        store may answer in any order; the choice below is arbitrary in the same way. */
    method FindByText(owner: Option<string>, query: string, exclude: set<string>, take: int)
      returns (found: seq<Entry>)
      requires Valid()
      ensures TextAnswer(rows, owner, query, exclude, take, found)
    {
      found := [];
      var cands := Candidates(rows, owner, query, exclude);
      var pool := cands;
      while |found| < take && pool != {}
        invariant Selecting(rows, cands, pool, found)
        invariant |found| <= take || found == []
        decreases |pool|
      {
        var newest := NewestExists(rows, pool);
        var k :| k in pool && forall j :: j in pool ==> rows[j].createdAt <= rows[k].createdAt;
        SelectNewest(rows, cands, pool, found, k);
        found := found + [rows[k]];
        pool := pool - {k};
      }
      SelectionDone(rows, owner, query, exclude, take, pool, found);
    }
  }
}

/**
 * The memory store (`MemoryDB`): the `memories` table with its AUTOINCREMENT rowids,
 * `memory_details`, `meta`, the FTS5 index kept in step by triggers, and the optional
 * vec0 table of embeddings. SQL is not modelled; each table is a field, and the two
 * engine computations the store delegates (BM25 ranking, vector distance) are oracles.
 */
module Store {
  import opened Wrappers
  import opened Errors
  import opened Text
  import opened Models
  import Seqs

  /** The `meta` key under which the embedding width is stored. */
  const EmbeddingDimKey: string := "embedding_dim"

  /** A row of `memories`: the AUTOINCREMENT rowid, the record, and the `updated_count` column. */
  datatype Row = Row(rowid: int, mem: Memory, updatedCount: int)

  /** A row of `memory_details`. */
  datatype Detail = Detail(memoryId: string, body: string)

  /** A row of the vec0 table `memories_vec`. */
  datatype VecRow = VecRow(rowid: int, embedding: seq<real>)

  /** The columns the FTS5 index `memories_fts` holds for a rowid. */
  datatype FtsDoc = FtsDoc(
    title: string, what: string, why: Option<string>, impact: Option<string>,
    tags: seq<string>, category: Option<string>, project: string, source: Option<string>)

  /** A result dict of `fts_search` or `vector_search`: the row, its `score`, and `has_details`. */
  datatype Hit = Hit(row: Row, score: real, hasDetails: bool)

  /** The dict `get_memory` returns. */
  datatype Record = Record(row: Row, hasDetails: bool)

  /** The dict `list_recent` returns for each record. */
  datatype Pointer = Pointer(
    id: string, title: string, category: Option<string>, tags: seq<string>,
    project: string, source: Option<string>, createdAt: string, hasDetails: bool)

  /**
   * What the store leaves to its engines: whether FTS5 accepts a MATCH expression,
   * whether an indexed document matches it, the BM25 `rank` of a rowid given the
   * whole index (lower is better), and the vec0 distance between two vectors.
   */
  datatype Engine = Engine(
    parses: string -> bool,
    matches: (string, FtsDoc) -> bool,
    rank: (string, map<int, FtsDoc>, int) -> real,
    distance: (seq<real>, seq<real>) -> real)

  function DocOf(m: Memory): FtsDoc
  {
    FtsDoc(m.title, m.what, m.why, m.impact, m.tags, m.category, m.project, m.source)
  }

  /** `id LIKE prefix || '%'`, read as a plain prefix test. */
  predicate IsPrefix(p: string, s: string)
  {
    |p| <= |s| && s[..|p|] == p
  }

  function IdHasPrefix(prefix: string): Row -> bool
  {
    (r: Row) => IsPrefix(prefix, r.mem.id)
  }

  function IdIs(id: string): Row -> bool
  {
    (r: Row) => r.mem.id == id
  }

  /** The first row with this rowid, if any: the join on `memories.rowid`. */
  function RowWithRowid(rows: seq<Row>, rowid: int): (r: Option<Row>)
    ensures r.Some? ==> r.value in rows && r.value.rowid == rowid
    ensures r.None? ==> forall i :: 0 <= i < |rows| ==> rows[i].rowid != rowid
  {
    if rows == [] then None
    else if rows[0].rowid == rowid then Some(rows[0])
    else
      var r := RowWithRowid(rows[1..], rowid);
      assert forall i :: 0 < i < |rows| ==> rows[i] == rows[1..][i - 1];
      r
  }

  function DetailIdHasPrefix(prefix: string): Detail -> bool
  {
    (d: Detail) => IsPrefix(prefix, d.memoryId)
  }

  function DetailIdIs(id: string): Detail -> bool
  {
    (d: Detail) => d.memoryId == id
  }

  /** `EXISTS(SELECT 1 FROM memory_details WHERE memory_id = id)`. */
  predicate HasDetail(details: seq<Detail>, id: string)
  {
    exists i :: 0 <= i < |details| && details[i].memoryId == id
  }

  /**
   * The optional `project`/`source` filters: a falsy filter is not applied, and a
   * NULL source never equals a requested one.
   */
  predicate PassesFilters(m: Memory, project: Option<string>, source: Option<string>)
  {
    (Truthy(project) ==> m.project == project.value) &&
    (Truthy(source) ==> m.source == Some(source.value))
  }

  function FiltersOf(project: Option<string>, source: Option<string>): Row -> bool
  {
    (r: Row) => PassesFilters(r.mem, project, source)
  }

  // ---------------------------------------------------------------- invariants

  /** Rowids strictly increase in table order and stay below the next AUTOINCREMENT value; ids are unique. */
  predicate RowsValid(rows: seq<Row>, nextRowid: int)
  {
    nextRowid >= 1 &&
    (forall i, j :: 0 <= i < j < |rows| ==> rows[i].rowid < rows[j].rowid) &&
    (forall i :: 0 <= i < |rows| ==> 0 < rows[i].rowid < nextRowid) &&
    (forall i, j :: 0 <= i < j < |rows| ==> rows[i].mem.id != rows[j].mem.id) &&
    (forall i :: 0 <= i < |rows| ==> rows[i].updatedCount >= 0)
  }

  /** Some live record has this id. */
  predicate HasId(rows: seq<Row>, id: string)
  {
    exists j :: 0 <= j < |rows| && rows[j].mem.id == id
  }

  /** `memory_id` is the primary key of `memory_details`. */
  predicate UniqueDetailIds(details: seq<Detail>)
  {
    forall i, j :: 0 <= i < j < |details| ==> details[i].memoryId != details[j].memoryId
  }

  /** Detail ids are unique, and every detail belongs to a live record. */
  predicate DetailsValid(details: seq<Detail>, rows: seq<Row>)
  {
    UniqueDetailIds(details) && forall i :: 0 <= i < |details| ==> HasId(rows, details[i].memoryId)
  }

  /** Live rows are indexed with their current columns; stale entries of deleted rows may remain. */
  predicate FtsValid(fts: map<int, FtsDoc>, rows: seq<Row>, nextRowid: int)
  {
    (forall i :: 0 <= i < |rows| ==> rows[i].rowid in fts && fts[rows[i].rowid] == DocOf(rows[i].mem)) &&
    (forall k :: k in fts ==> 0 < k < nextRowid)
  }

  /** Without a vec table there are no vectors; with one, every vector has its width and rowids are unique. */
  predicate VectorsValid(vecTable: Option<nat>, vectors: seq<VecRow>)
  {
    (vecTable.None? ==> vectors == []) &&
    (forall i :: 0 <= i < |vectors| ==> vecTable.Some? && |vectors[i].embedding| == vecTable.value) &&
    (forall i, j :: 0 <= i < j < |vectors| ==> vectors[i].rowid != vectors[j].rowid)
  }

  // ---------------------------------------------------------------- meta and the dimension state machine

  /** `get_meta(key)`: the stored value, or None when the key was never set. */
  function MetaValue(meta: map<string, string>, key: string): (r: Option<string>)
    ensures r.Some? <==> key in meta
    ensures r.Some? ==> r.value == meta[key]
  {
    if key in meta then Some(meta[key]) else None
  }

  /** `get_meta` after `set_meta` returns the value set last; other keys are unaffected. */
  lemma MetaLastWriteWins(meta: map<string, string>, key: string, value: string, other: string)
    ensures MetaValue(meta[key := value], key) == Some(value)
    ensures other != key ==> MetaValue(meta[key := value], other) == MetaValue(meta, other)
  {
  }

  /** `get_embedding_dim`: `int(value)` of the stored dimension; a value that is no numeral is an error. */
  function StoredDim(meta: map<string, string>): (r: Result<Option<nat>, Error>)
    ensures EmbeddingDimKey !in meta ==> r == Ok(None)
    ensures r.Ok? && r.value.Some? ==> EmbeddingDimKey in meta && ParseNat(meta[EmbeddingDimKey]) == r.value
    ensures r.Err? ==> EmbeddingDimKey in meta && r.error == BadMetaValue(meta[EmbeddingDimKey])
  {
    match MetaValue(meta, EmbeddingDimKey)
    case None => Ok(None)
    case Some(v) =>
      match ParseNat(v)
      case Some(n) => Ok(Some(n))
      case None => Err(BadMetaValue(v))
  }

  /** What `set_embedding_dim(d)` stores is read back by `get_embedding_dim` as `d`. */
  lemma StoredDimRoundTrip(meta: map<string, string>, d: nat)
    ensures StoredDim(meta[EmbeddingDimKey := NatToString(d)]) == Ok(Some(d))
  {
    ParseNatToString(d);
  }

  /** The part of the store `ensure_vec_table` reads and writes. */
  datatype DimState = DimState(meta: map<string, string>, vecTable: Option<nat>)

  /**
   * `ensure_vec_table(dim)`: with no stored dimension it records `dim` and creates the
   * table (unless one exists); with `dim` stored it does nothing; with another
   * dimension stored it raises DimensionMismatchError and changes nothing.
   */
  function EnsureVec(st: DimState, dim: nat): (r: (Result<(), Error>, DimState))
    ensures StoredDim(st.meta) == Ok(None) ==>
      r.0 == Ok(()) && StoredDim(r.1.meta) == Ok(Some(dim)) &&
      r.1.vecTable == (if st.vecTable.None? then Some(dim) else st.vecTable)
    ensures StoredDim(st.meta) == Ok(Some(dim)) ==> r == (Ok(()), st)
    ensures forall d :: StoredDim(st.meta) == Ok(Some(d)) && d != dim ==>
      r == (Err(DimensionMismatch(d, dim)), st)
    ensures StoredDim(st.meta).Err? ==> r == (Err(StoredDim(st.meta).error), st)
  {
    match StoredDim(st.meta)
    case Err(e) => (Err(e), st)
    case Ok(None) =>
      StoredDimRoundTrip(st.meta, dim);
      var meta := st.meta[EmbeddingDimKey := NatToString(dim)];
      (Ok(()), DimState(meta, if st.vecTable.None? then Some(dim) else st.vecTable))
    case Ok(Some(d)) =>
      if d == dim then (Ok(()), st) else (Err(DimensionMismatch(d, dim)), st)
  }

  /** A successful `ensure_vec_table(dim)` can be repeated: the second call succeeds and changes nothing. */
  lemma EnsureVecIdempotent(st: DimState, dim: nat)
    requires EnsureVec(st, dim).0.Ok?
    ensures EnsureVec(EnsureVec(st, dim).1, dim) == (Ok(()), EnsureVec(st, dim).1)
  {
    var s1 := EnsureVec(st, dim).1;
    match StoredDim(st.meta)
    case Err(e) =>
    case Ok(None) =>
      assert StoredDim(s1.meta) == Ok(Some(dim));
    case Ok(Some(d)) =>
  }

  /** On a fresh store, `ensure_vec_table(dim)` leaves a table of width `dim` and `dim` stored. */
  lemma EnsureVecFresh(dim: nat)
    ensures EnsureVec(DimState(map[], None), dim) ==
      (Ok(()), DimState(map[EmbeddingDimKey := NatToString(dim)], Some(dim)))
  {
  }

  // ---------------------------------------------------------------- record lookups

  /** `get_memory(id)`: the record with exactly this id and whether it has details. */
  function LookupRecord(rows: seq<Row>, details: seq<Detail>, id: string): (r: Option<Record>)
    ensures r.Some? ==>
      r.value.row in rows && r.value.row.mem.id == id && (r.value.hasDetails <==> HasDetail(details, id))
    ensures r.None? ==> forall i :: 0 <= i < |rows| ==> rows[i].mem.id != id
  {
    match Seqs.FindFirst(rows, IdIs(id))
    case None => None
    case Some(i) => Some(Record(rows[i], HasDetail(details, id)))
  }

  /** `get_details(prefix)`: the first detail row, in table order, whose id starts with the prefix. */
  function LookupDetail(details: seq<Detail>, prefix: string): (r: Option<Detail>)
    ensures r.Some? ==> r.value in details && IsPrefix(prefix, r.value.memoryId)
    ensures r.None? ==> forall i :: 0 <= i < |details| ==> !IsPrefix(prefix, details[i].memoryId)
  {
    match Seqs.FindFirst(details, DetailIdHasPrefix(prefix))
    case None => None
    case Some(i) => Some(details[i])
  }

  /** `INSERT INTO memory_details`: adds a detail row only when `details` is truthy. */
  function AddDetail(details: seq<Detail>, id: string, body: Option<string>): seq<Detail>
  {
    if Truthy(body) then details + [Detail(id, body.value)] else details
  }

  /** A record just inserted is returned by `get_memory` with its fields, `updated_count` 0, and `has_details` exactly when details were given. */
  lemma InsertThenLookup(rows: seq<Row>, details: seq<Detail>, mem: Memory, rowid: int, body: Option<string>)
    requires forall i :: 0 <= i < |rows| ==> rows[i].mem.id != mem.id
    requires forall i :: 0 <= i < |details| ==> details[i].memoryId != mem.id
    ensures LookupRecord(rows + [Row(rowid, mem, 0)], AddDetail(details, mem.id, body), mem.id) ==
      Some(Record(Row(rowid, mem, 0), Truthy(body)))
  {
    var rows' := rows + [Row(rowid, mem, 0)];
    var details' := AddDetail(details, mem.id, body);
    var r := Seqs.FindFirst(rows', IdIs(mem.id));
    assert IdIs(mem.id)(rows'[|rows|]);
    assert r.Some? && r.value == |rows|;
    if Truthy(body) {
      assert details'[|details|].memoryId == mem.id;
    } else {
      assert !HasDetail(details', mem.id);
    }
  }

  // ---------------------------------------------------------------- update and delete

  /**
   * The row `update_memory` writes: `updated_count + 1`, `updated_at = now`, and each of
   * `what`/`why`/`impact`/`tags` replaced only when given (not None). Nothing else changes.
   */
  function Patched(row: Row, what: Option<string>, why: Option<string>, impact: Option<string>,
                   tags: Option<seq<string>>, now: string): (r: Row)
    ensures r.rowid == row.rowid && r.updatedCount == row.updatedCount + 1
    ensures r.mem.updatedAt == now
    ensures r.mem.what == (if what.Some? then what.value else row.mem.what)
    ensures r.mem.why == (if why.Some? then why else row.mem.why)
    ensures r.mem.impact == (if impact.Some? then impact else row.mem.impact)
    ensures r.mem.tags == (if tags.Some? then tags.value else row.mem.tags)
    ensures r.mem.(what := row.mem.what, why := row.mem.why, impact := row.mem.impact,
                   tags := row.mem.tags, updatedAt := row.mem.updatedAt) == row.mem
  {
    var m := row.mem;
    var m1 := if what.Some? then m.(what := what.value) else m;
    var m2 := if why.Some? then m1.(why := why) else m1;
    var m3 := if impact.Some? then m2.(impact := impact) else m2;
    var m4 := if tags.Some? then m3.(tags := tags.value) else m3;
    Row(row.rowid, m4.(updatedAt := now), row.updatedCount + 1)
  }

  /**
   * The details append of `update_memory`: an existing body becomes
   * `body + "\n\n" + text`, an absent one is created as `text`.
   */
  function AppendDetail(details: seq<Detail>, id: string, text: string): (r: seq<Detail>)
    ensures |r| == |details| || r == details + [Detail(id, text)]
  {
    match Seqs.FindFirst(details, DetailIdIs(id))
    case Some(i) => details[i := Detail(id, details[i].body + "\n\n" + text)]
    case None => details + [Detail(id, text)]
  }

  /** After an append, the detail of `id` holds the old body, a blank line and the text, or just the text; every other detail is unchanged. */
  lemma AppendDetailEffect(details: seq<Detail>, id: string, text: string)
    requires forall i, j :: 0 <= i < j < |details| ==> details[i].memoryId != details[j].memoryId
    ensures var r := AppendDetail(details, id, text);
      (forall i, j :: 0 <= i < j < |r| ==> r[i].memoryId != r[j].memoryId) &&
      HasDetail(r, id) &&
      (forall i :: 0 <= i < |r| && r[i].memoryId == id ==>
         r[i].body == (if HasDetail(details, id) then BodyOf(details, id) + "\n\n" + text else text)) &&
      (forall i :: 0 <= i < |details| && details[i].memoryId != id ==> details[i] in r)
  {
    var r := AppendDetail(details, id, text);
    match Seqs.FindFirst(details, DetailIdIs(id))
    case Some(k) =>
      assert details[k].memoryId == id;
      assert BodyOf(details, id) == details[k].body;
      assert r[k].memoryId == id;
      forall i | 0 <= i < |details| && details[i].memoryId != id ensures details[i] in r {
        assert r[i] == details[i];
      }
    case None =>
      assert !HasDetail(details, id);
      assert r[|details|].memoryId == id;
  }

  /** The body of the detail row of `id` (the empty string when there is none). */
  function BodyOf(details: seq<Detail>, id: string): string
  {
    match Seqs.FindFirst(details, DetailIdIs(id))
    case Some(i) => details[i].body
    case None => ""
  }

  /** `DELETE FROM memory_details WHERE memory_id = id`. */
  function RemoveDetails(details: seq<Detail>, id: string): (r: seq<Detail>)
    ensures forall d :: d in r <==> d in details && d.memoryId != id
    ensures !HasDetail(r, id)
  {
    if details == [] then []
    else if details[0].memoryId == id then RemoveDetails(details[1..], id)
    else [details[0]] + RemoveDetails(details[1..], id)
  }

  /** `DELETE FROM memories WHERE id = full_id` on row `i`. */
  function RemoveAt<T>(s: seq<T>, i: nat): (r: seq<T>)
    requires i < |s|
    ensures |r| == |s| - 1
    ensures forall k :: 0 <= k < i ==> r[k] == s[k]
    ensures forall k :: i <= k < |r| ==> r[k] == s[k + 1]
  {
    s[..i] + s[i + 1..]
  }

  /** Once a record is deleted, neither `get_memory` nor `get_details` nor any row-based query can return it. */
  lemma DeleteHides(rows: seq<Row>, details: seq<Detail>, i: nat, prefix: string)
    requires i < |rows|
    requires forall a, b :: 0 <= a < b < |rows| ==> rows[a].mem.id != rows[b].mem.id
    ensures var id := rows[i].mem.id;
      LookupRecord(RemoveAt(rows, i), RemoveDetails(details, id), id) == None &&
      (forall k :: 0 <= k < |rows| - 1 ==> RemoveAt(rows, i)[k].mem.id != id) &&
      (LookupDetail(RemoveDetails(details, id), prefix).Some? ==>
         LookupDetail(RemoveDetails(details, id), prefix).value.memoryId != id)
  {
    var id := rows[i].mem.id;
    var r := RemoveAt(rows, i);
    forall k | 0 <= k < |r| ensures r[k].mem.id != id {
      if k < i {
        assert r[k] == rows[k];
      } else {
        assert r[k] == rows[k + 1];
      }
    }
  }

  // ---------------------------------------------------------------- keyword search

  /** `f'"{term}"*'`: a quoted prefix query for one term. */
  function QuoteTerm(t: string): string
  {
    "\"" + t + "\"*"
  }

  function QuoteTerms(ts: seq<string>): (r: seq<string>)
    ensures |r| == |ts|
    ensures forall k :: 0 <= k < |ts| ==> r[k] == QuoteTerm(ts[k])
  {
    if ts == [] then [] else [QuoteTerm(ts[0])] + QuoteTerms(ts[1..])
  }

  /** The MATCH expression `fts_search` builds: the whitespace-split terms, each quoted as a prefix query, joined by OR. */
  function FtsQuery(query: string): string
  {
    Join(" OR ", QuoteTerms(SplitWs(query)))
  }

  /** A blank query builds the empty MATCH expression. */
  lemma FtsQueryBlank(query: string)
    requires forall i :: 0 <= i < |query| ==> IsSpace(query[i])
    ensures FtsQuery(query) == ""
  {
    assert SkipSpace(query, 0) == |query|;
  }

  /** A single word becomes one quoted prefix term. */
  lemma FtsQuerySingleTerm(t: string)
    requires t != [] && forall i :: 0 <= i < |t| ==> !IsSpace(t[i])
    ensures FtsQuery(t) == "\"" + t + "\"*"
  {
    assert SkipSpace(t, 0) == 0;
    assert SkipWord(t, 0) == |t|;
    assert SkipSpace(t, |t|) == |t|;
    assert SplitWsFrom(t, |t|) == [];
    assert SplitWsFrom(t, 0) == [t[0..|t|]] + SplitWsFrom(t, |t|);
    assert t[0..|t|] == t;
  }

  /** Two words separated by a space become two quoted prefix terms joined by OR. */
  lemma FtsQueryTwoTerms(a: string, b: string)
    requires IsWord(a) && IsWord(b)
    ensures FtsQuery(a + " " + b) == "\"" + a + "\"* OR \"" + b + "\"*"
  {
    var s := a + " " + b;
    var n := |a|;
    assert forall i :: 0 <= i < n ==> s[i] == a[i];
    assert s[n] == ' ';
    assert forall i :: 0 <= i < |b| ==> s[n + 1 + i] == b[i];
    assert SkipSpace(s, 0) == 0;
    assert SkipWord(s, 0) == n;
    assert SkipSpace(s, n) == n + 1;
    assert SkipWord(s, n + 1) == |s|;
    assert SkipSpace(s, |s|) == |s|;
    assert SplitWsFrom(s, |s|) == [];
    assert s[0..n] == a && s[n + 1..|s|] == b;
    assert SplitWsFrom(s, n) == [b];
    assert SplitWs(s) == [a, b];
    var qs := QuoteTerms([a, b]);
    assert qs == [QuoteTerm(a), QuoteTerm(b)];
    assert qs[1..] == [QuoteTerm(b)];
    assert Join(" OR ", qs) == QuoteTerm(a) + " OR " + QuoteTerm(b);
  }

  /** The records matching the expression and the filters, in rowid order, as scored hits (`-rank`). */
  function FtsCandidates(rows: seq<Row>, details: seq<Detail>, fts: map<int, FtsDoc>, engine: Engine,
                         q: string, project: Option<string>, source: Option<string>): (r: seq<Hit>)
    ensures |r| <= |rows|
    ensures forall h :: h in r ==>
      h.row in rows && engine.matches(q, DocOf(h.row.mem)) && PassesFilters(h.row.mem, project, source) &&
      h.score == -engine.rank(q, fts, h.row.rowid) && (h.hasDetails <==> HasDetail(details, h.row.mem.id))
    ensures forall i :: (0 <= i < |rows| && engine.matches(q, DocOf(rows[i].mem)) &&
                         PassesFilters(rows[i].mem, project, source)) ==>
      exists h :: h in r && h.row == rows[i]
  {
    if rows == [] then []
    else
      var rest := FtsCandidates(rows[1..], details, fts, engine, q, project, source);
      var row := rows[0];
      if engine.matches(q, DocOf(row.mem)) && PassesFilters(row.mem, project, source) then
        var h := Hit(row, -engine.rank(q, fts, row.rowid), HasDetail(details, row.mem.id));
        assert forall i :: 1 <= i < |rows| ==> rows[i] == rows[1..][i - 1];
        [h] + rest
      else
        assert forall i :: 1 <= i < |rows| ==> rows[i] == rows[1..][i - 1];
        rest
  }

  /** `ORDER BY` on a score, best first. */
  const ScoreDesc: (Hit, Hit) -> bool := (a: Hit, b: Hit) => a.score >= b.score

  /** Hits ordered by score, best first (ties keep their order), cut to `LIMIT`. */
  function BestFirst(hits: seq<Hit>, limit: int): (r: seq<Hit>)
    ensures |r| == if limit < 0 then |hits| else Seqs.Min(limit, |hits|)
    ensures forall h :: h in r ==> h in hits
    ensures Seqs.Sorted(r, ScoreDesc)
  {
    assert Seqs.Total(ScoreDesc) && Seqs.Transitive(ScoreDesc);
    Seqs.TopNSorted(hits, ScoreDesc, limit);
    Seqs.TopN(hits, ScoreDesc, limit)
  }

  /**
   * `fts_search`: the expression is rejected by FTS5 or the matching live records are
   * returned best-ranked first (`ORDER BY rank`, the score being `-rank`), cut to `LIMIT`.
   */
  function FtsSearchIn(rows: seq<Row>, details: seq<Detail>, fts: map<int, FtsDoc>, engine: Engine,
                       query: string, limit: int, project: Option<string>, source: Option<string>): (r: Result<seq<Hit>, Error>)
    ensures r.Err? <==> !engine.parses(FtsQuery(query))
    ensures r.Err? ==> r.error == FtsSyntax(FtsQuery(query))
    ensures r.Ok? ==> limit >= 0 ==> |r.value| <= limit
    ensures r.Ok? ==> Seqs.Sorted(r.value, ScoreDesc)
    ensures r.Ok? ==> forall h :: h in r.value ==>
      h.row in rows && engine.matches(FtsQuery(query), DocOf(h.row.mem)) &&
      PassesFilters(h.row.mem, project, source) &&
      h.score == -engine.rank(FtsQuery(query), fts, h.row.rowid) &&
      (h.hasDetails <==> HasDetail(details, h.row.mem.id))
  {
    var q := FtsQuery(query);
    if !engine.parses(q) then Err(FtsSyntax(q))
    else
      var c := FtsCandidates(rows, details, fts, engine, q, project, source);
      Ok(BestFirst(c, limit))
  }

  // ---------------------------------------------------------------- vector search

  function NearerTo(query: seq<real>, distance: (seq<real>, seq<real>) -> real): (VecRow, VecRow) -> bool
  {
    (a: VecRow, b: VecRow) => distance(a.embedding, query) <= distance(b.embedding, query)
  }

  /** The `k` nearest vectors, nearest first (vec0's KNN query). */
  function Nearest(vectors: seq<VecRow>, query: seq<real>, k: nat, distance: (seq<real>, seq<real>) -> real): (r: seq<VecRow>)
    ensures |r| <= k
    ensures forall v :: v in r ==> v in vectors
    ensures Seqs.Sorted(r, NearerTo(query, distance))
  {
    var before := NearerTo(query, distance);
    Seqs.TopNSorted(vectors, before, k);
    Seqs.TopN(vectors, before, k)
  }

  /** One KNN row joined with `memories` on rowid (an orphan vector joins nothing), with `score = 1 - distance`. */
  function JoinVector(v: VecRow, rows: seq<Row>, details: seq<Detail>, query: seq<real>,
                      distance: (seq<real>, seq<real>) -> real): (r: seq<Hit>)
    ensures |r| <= 1
    ensures forall h :: h in r ==>
      h.row in rows && h.row.rowid == v.rowid &&
      h.score == 1.0 - distance(v.embedding, query) && (h.hasDetails <==> HasDetail(details, h.row.mem.id))
  {
    match RowWithRowid(rows, v.rowid)
    case None => []
    case Some(row) => [Hit(row, 1.0 - distance(v.embedding, query), HasDetail(details, row.mem.id))]
  }

  function JoinVectors(knn: seq<VecRow>, rows: seq<Row>, details: seq<Detail>, query: seq<real>,
                       distance: (seq<real>, seq<real>) -> real): (r: seq<Hit>)
    ensures |r| <= |knn|
    ensures forall h :: h in r ==>
      h.row in rows && (h.hasDetails <==> HasDetail(details, h.row.mem.id)) &&
      exists v :: v in knn && h.row.rowid == v.rowid && h.score == 1.0 - distance(v.embedding, query)
  {
    if knn == [] then []
    else JoinVectors(knn[..|knn| - 1], rows, details, query, distance) +
         JoinVector(knn[|knn| - 1], rows, details, query, distance)
  }

  /** Joining a distance-ordered KNN result gives hits ordered by score, best first. */
  lemma {:induction false} JoinVectorsSorted(knn: seq<VecRow>, rows: seq<Row>, details: seq<Detail>,
                                             query: seq<real>, distance: (seq<real>, seq<real>) -> real)
    requires Seqs.Sorted(knn, NearerTo(query, distance))
    ensures Seqs.Sorted(JoinVectors(knn, rows, details, query, distance), ScoreDesc)
  {
    if knn != [] {
      var init := knn[..|knn| - 1];
      var last := knn[|knn| - 1];
      JoinVectorsSorted(init, rows, details, query, distance);
      var a := JoinVectors(init, rows, details, query, distance);
      var b := JoinVector(last, rows, details, query, distance);
      forall i, j | 0 <= i < j < |a + b| ensures ScoreDesc((a + b)[i], (a + b)[j]) {
        if j >= |a| {
          assert (a + b)[j] == b[j - |a|];
          if i < |a| {
            assert a[i] in a;
            var v :| v in init && a[i].row.rowid == v.rowid && a[i].score == 1.0 - distance(v.embedding, query);
            var k :| 0 <= k < |init| && init[k] == v;
            assert NearerTo(query, distance)(knn[k], knn[|knn| - 1]);
            assert b[j - |a|] in b;
          }
        } else {
          assert (a + b)[i] == a[i] && (a + b)[j] == a[j];
        }
      }
    }
  }

  function ProjectIs(project: string): Hit -> bool
  {
    (h: Hit) => h.row.mem.project == project
  }

  function SourceIs(source: string): Hit -> bool
  {
    (h: Hit) => h.row.mem.source == Some(source)
  }

  /** The post-filters of `vector_search`. */
  function PostFilter(hits: seq<Hit>, project: Option<string>, source: Option<string>): (r: seq<Hit>)
    ensures forall h :: h in r <==> h in hits && PassesFilters(h.row.mem, project, source)
  {
    var byProject := if Truthy(project) then Seqs.Filter(hits, ProjectIs(project.value)) else hits;
    if Truthy(source) then Seqs.Filter(byProject, SourceIs(source.value)) else byProject
  }

  lemma PostFilterSorted(hits: seq<Hit>, project: Option<string>, source: Option<string>)
    requires Seqs.Sorted(hits, ScoreDesc)
    ensures Seqs.Sorted(PostFilter(hits, project, source), ScoreDesc)
  {
    var byProject := if Truthy(project) then Seqs.Filter(hits, ProjectIs(project.value)) else hits;
    if Truthy(project) {
      Seqs.FilterSorted(hits, ProjectIs(project.value), ScoreDesc);
    }
    if Truthy(source) {
      Seqs.FilterSorted(byProject, SourceIs(source.value), ScoreDesc);
    }
  }

  /**
   * `vector_search`: `[]` without a vec table; otherwise the `k = limit` nearest vectors,
   * joined with live records, scored `1 - distance`, then post-filtered by project and
   * source. A query of the wrong width, or a negative `k`, is rejected by vec0.
   */
  function VectorSearchIn(rows: seq<Row>, details: seq<Detail>, vecTable: Option<nat>, vectors: seq<VecRow>,
                          distance: (seq<real>, seq<real>) -> real, query: seq<real>, limit: int,
                          project: Option<string>, source: Option<string>): (r: Result<seq<Hit>, Error>)
    ensures vecTable.None? ==> r == Ok([])
    ensures vecTable.Some? && |query| != vecTable.value ==> r == Err(VectorWidth(vecTable.value, |query|))
    ensures r.Err? ==> vecTable.Some?
    ensures r.Ok? ==> |r.value| <= (if limit < 0 then 0 else limit)
    ensures r.Ok? ==> Seqs.Sorted(r.value, ScoreDesc)
    ensures r.Ok? ==> forall h :: h in r.value ==>
      h.row in rows && PassesFilters(h.row.mem, project, source) && (h.hasDetails <==> HasDetail(details, h.row.mem.id)) &&
      exists v :: v in vectors && v.rowid == h.row.rowid && h.score == 1.0 - distance(v.embedding, query)
  {
    if vecTable.None? then Ok([])
    else if |query| != vecTable.value then Err(VectorWidth(vecTable.value, |query|))
    else if limit < 0 then Err(NegativeK(limit))
    else
      var knn := Nearest(vectors, query, limit, distance);
      var joined := JoinVectors(knn, rows, details, query, distance);
      JoinVectorsSorted(knn, rows, details, query, distance);
      PostFilterSorted(joined, project, source);
      Ok(PostFilter(joined, project, source))
  }

  // ---------------------------------------------------------------- listing and counting

  function PointerOf(row: Row, details: seq<Detail>): Pointer
  {
    var m := row.mem;
    Pointer(m.id, m.title, m.category, m.tags, m.project, m.source, m.createdAt, HasDetail(details, m.id))
  }

  function Pointers(rows: seq<Row>, details: seq<Detail>): (r: seq<Pointer>)
    ensures |r| == |rows|
    ensures forall i :: 0 <= i < |rows| ==> r[i] == PointerOf(rows[i], details)
  {
    if rows == [] then [] else [PointerOf(rows[0], details)] + Pointers(rows[1..], details)
  }

  /** `ORDER BY created_at DESC`. */
  const NewerFirst: (Pointer, Pointer) -> bool := (a: Pointer, b: Pointer) => StrLe(b.createdAt, a.createdAt)

  lemma NewerFirstOrders()
    ensures Seqs.Total(NewerFirst) && Seqs.Transitive(NewerFirst)
  {
    forall a: Pointer, b: Pointer ensures NewerFirst(a, b) || NewerFirst(b, a) {
      StrLeTotal(a.createdAt, b.createdAt);
    }
    forall a: Pointer, b: Pointer, c: Pointer | NewerFirst(a, b) && NewerFirst(b, c) ensures NewerFirst(a, c) {
      StrLeTransitive(c.createdAt, b.createdAt, a.createdAt);
    }
  }

  /** `list_recent`: the matching records, newest first, cut to `LIMIT`. */
  function ListRecentIn(rows: seq<Row>, details: seq<Detail>, limit: int,
                        project: Option<string>, source: Option<string>): (r: seq<Pointer>)
    ensures |r| == (if limit < 0 then CountIn(rows, project, source) else Seqs.Min(limit, CountIn(rows, project, source)))
    ensures Seqs.Sorted(r, NewerFirst)
    ensures forall p :: p in r ==> exists row :: row in rows && PassesFilters(row.mem, project, source) && p == PointerOf(row, details)
  {
    var matching := Seqs.Filter(rows, FiltersOf(project, source));
    var ps := Pointers(matching, details);
    NewerFirstOrders();
    Seqs.TopNSorted(ps, NewerFirst, limit);
    var out := Seqs.TopN(ps, NewerFirst, limit);
    forall p | p in out
      ensures exists row :: row in rows && PassesFilters(row.mem, project, source) && p == PointerOf(row, details)
    {
      var i :| 0 <= i < |ps| && ps[i] == p;
      assert matching[i] in matching;
      assert FiltersOf(project, source)(matching[i]);
    }
    out
  }

  /** `count_memories`: how many records pass the filters; there is no limit. */
  function CountIn(rows: seq<Row>, project: Option<string>, source: Option<string>): (n: nat)
    ensures n <= |rows|
  {
    |Seqs.Filter(rows, FiltersOf(project, source))|
  }

  /** The count equals the length of `list_recent` without a limit (a negative LIMIT). */
  lemma CountIsUnlimitedListing(rows: seq<Row>, details: seq<Detail>, project: Option<string>, source: Option<string>)
    ensures CountIn(rows, project, source) == |ListRecentIn(rows, details, -1, project, source)|
  {
  }

  /** Without filters every record is counted. */
  lemma {:induction false} CountUnfiltered(rows: seq<Row>)
    ensures CountIn(rows, None, None) == |rows|
  {
    if rows != [] {
      CountUnfiltered(rows[1..]);
      assert FiltersOf(None, None)(rows[0]);
    }
  }

  // ---------------------------------------------------------------- the store

  class MemoryDB {
    const engine: Engine
    /** `memories`, in rowid order. */
    var memories: seq<Row>
    /** The next AUTOINCREMENT rowid: one past the largest ever used. */
    var nextRowid: int
    /** `memory_details`, in table order. */
    var details: seq<Detail>
    var meta: map<string, string>
    /** The width of `memories_vec`, or None while the table does not exist. */
    var vecTable: Option<nat>
    var vectors: seq<VecRow>
    /** `memories_fts`, rowid to indexed columns. */
    var fts: map<int, FtsDoc>

    ghost predicate Valid()
      reads this
    {
      RowsValid(memories, nextRowid) && DetailsValid(details, memories) &&
      FtsValid(fts, memories, nextRowid) && VectorsValid(vecTable, vectors)
    }

    /** A store on a new database file: every table empty, no vec table yet. */
    constructor (engine: Engine)
      ensures Valid() && this.engine == engine
      ensures memories == [] && details == [] && meta == map[] && vecTable == None && vectors == [] && fts == map[]
    {
      this.engine := engine;
      memories := [];
      nextRowid := 1;
      details := [];
      meta := map[];
      vecTable := None;
      vectors := [];
      fts := map[];
    }

    function GetMeta(key: string): (r: Option<string>)
      reads this
      ensures r == MetaValue(meta, key)
    {
      MetaValue(meta, key)
    }

    /** `INSERT OR REPLACE INTO meta`. */
    method SetMeta(key: string, value: string)
      requires Valid()
      modifies this
      ensures Valid() && meta == old(meta)[key := value]
      ensures memories == old(memories) && nextRowid == old(nextRowid) && details == old(details)
      ensures vecTable == old(vecTable) && vectors == old(vectors) && fts == old(fts)
    {
      meta := meta[key := value];
    }

    function GetEmbeddingDim(): (r: Result<Option<nat>, Error>)
      reads this
      ensures r == StoredDim(meta)
    {
      StoredDim(meta)
    }

    method SetEmbeddingDim(dim: nat)
      requires Valid()
      modifies this
      ensures Valid() && meta == old(meta)[EmbeddingDimKey := NatToString(dim)]
      ensures GetEmbeddingDim() == Ok(Some(dim))
      ensures memories == old(memories) && nextRowid == old(nextRowid) && details == old(details)
      ensures vecTable == old(vecTable) && vectors == old(vectors) && fts == old(fts)
    {
      SetMeta(EmbeddingDimKey, NatToString(dim));
      StoredDimRoundTrip(old(meta), dim);
    }

    function HasVecTable(): (r: bool)
      reads this
      ensures r <==> vecTable.Some?
    {
      vecTable.Some?
    }

    /** `CREATE VIRTUAL TABLE IF NOT EXISTS memories_vec … float[dim]`. */
    method CreateVecTable(dim: nat)
      requires Valid()
      modifies this
      ensures Valid()
      ensures vecTable == (if old(vecTable).None? then Some(dim) else old(vecTable))
      ensures vectors == old(vectors)
      ensures memories == old(memories) && nextRowid == old(nextRowid) && details == old(details)
      ensures meta == old(meta) && fts == old(fts)
    {
      if vecTable.None? {
        vecTable := Some(dim);
      }
    }

    /** `DROP TABLE IF EXISTS memories_vec`: the table and all its vectors are gone. */
    method DropVecTable()
      requires Valid()
      modifies this
      ensures Valid() && vecTable == None && vectors == []
      ensures memories == old(memories) && nextRowid == old(nextRowid) && details == old(details)
      ensures meta == old(meta) && fts == old(fts)
    {
      vecTable := None;
      vectors := [];
    }

    /** The last step of opening a database: recreate the vec table from a stored dimension. */
    method Reopen() returns (r: Result<(), Error>)
      requires Valid()
      modifies this
      ensures Valid()
      ensures r.Err? <==> StoredDim(old(meta)).Err?
      ensures vecTable == (if StoredDim(old(meta)).Ok? && StoredDim(old(meta)).value.Some? && old(vecTable).None?
                           then Some(StoredDim(old(meta)).value.value) else old(vecTable))
      ensures memories == old(memories) && nextRowid == old(nextRowid) && details == old(details)
      ensures meta == old(meta) && fts == old(fts) && vectors == old(vectors)
    {
      var dim := GetEmbeddingDim();
      match dim
      case Err(e) =>
        r := Err(e);
      case Ok(None) =>
        r := Ok(());
      case Ok(Some(d)) =>
        CreateVecTable(d);
        r := Ok(());
    }

    method EnsureVecTable(dim: nat) returns (r: Result<(), Error>)
      requires Valid()
      modifies this
      ensures Valid()
      ensures (r, DimState(meta, vecTable)) == EnsureVec(old(DimState(meta, vecTable)), dim)
      ensures vectors == old(vectors)
      ensures memories == old(memories) && nextRowid == old(nextRowid) && details == old(details)
      ensures fts == old(fts)
    {
      var stored := GetEmbeddingDim();
      match stored
      case Err(e) =>
        r := Err(e);
      case Ok(None) =>
        SetEmbeddingDim(dim);
        CreateVecTable(dim);
        r := Ok(());
      case Ok(Some(d)) =>
        if d != dim {
          r := Err(DimensionMismatch(d, dim));
        } else {
          r := Ok(());
        }
    }

    /**
     * `insert_memory`: appends the record under the next rowid with `updated_count` 0,
     * indexes it, and stores its details when they are truthy. A duplicate id violates
     * `id UNIQUE` and changes nothing.
     */
    method InsertMemory(mem: Memory, body: Option<string>) returns (r: Result<int, Error>)
      requires Valid()
      modifies this
      ensures Valid()
      ensures r.Err? <==> LookupRecord(old(memories), old(details), mem.id).Some?
      ensures r.Err? ==>
        r.error == DuplicateId(mem.id) && memories == old(memories) &&
        nextRowid == old(nextRowid) && details == old(details) && fts == old(fts)
      ensures r.Ok? ==>
        r.value == old(nextRowid) && nextRowid == old(nextRowid) + 1 &&
        memories == old(memories) + [Row(r.value, mem, 0)] &&
        details == AddDetail(old(details), mem.id, body) &&
        r.value !in old(fts) && fts == old(fts)[r.value := DocOf(mem)]
      ensures r.Ok? ==> LookupRecord(memories, details, mem.id) == Some(Record(Row(r.value, mem, 0), Truthy(body)))
      ensures meta == old(meta) && vecTable == old(vecTable) && vectors == old(vectors)
    {
      if LookupRecord(memories, details, mem.id).Some? {
        return Err(DuplicateId(mem.id));
      }
      var rowid := nextRowid;
      InsertKeepsValid(memories, details, fts, nextRowid, mem, body);
      memories := memories + [Row(rowid, mem, 0)];
      nextRowid := nextRowid + 1;
      fts := fts[rowid := DocOf(mem)];
      details := AddDetail(details, mem.id, body);
      r := Ok(rowid);
    }

    /**
     * `insert_vector`: without a vec table nothing happens. Otherwise vec0 rejects a
     * vector of the wrong width or a rowid it already holds, and stores the rest.
     */
    method InsertVector(rowid: int, embedding: seq<real>) returns (r: Result<(), Error>)
      requires Valid()
      modifies this
      ensures Valid()
      ensures vecTable.None? ==> r == Ok(()) && vectors == old(vectors)
      ensures r.Err? ==> vectors == old(vectors)
      ensures vecTable.Some? && |embedding| != vecTable.value ==> r == Err(VectorWidth(vecTable.value, |embedding|))
      ensures r.Ok? && vecTable.Some? ==> vectors == old(vectors) + [VecRow(rowid, embedding)]
      ensures vecTable.Some? && |embedding| == vecTable.value ==>
        (r.Err? <==> exists i :: 0 <= i < |old(vectors)| && old(vectors)[i].rowid == rowid)
      ensures memories == old(memories) && nextRowid == old(nextRowid) && details == old(details)
      ensures meta == old(meta) && fts == old(fts) && vecTable == old(vecTable)
    {
      if !HasVecTable() {
        return Ok(());
      }
      if |embedding| != vecTable.value {
        return Err(VectorWidth(vecTable.value, |embedding|));
      }
      var i := 0;
      while i < |vectors|
        invariant 0 <= i <= |vectors|
        invariant forall j :: 0 <= j < i ==> vectors[j].rowid != rowid
      {
        if vectors[i].rowid == rowid {
          return Err(DuplicateVector(rowid));
        }
        i := i + 1;
      }
      vectors := vectors + [VecRow(rowid, embedding)];
      r := Ok(());
    }

    function GetMemory(id: string): (r: Option<Record>)
      reads this
      ensures r == LookupRecord(memories, details, id)
    {
      LookupRecord(memories, details, id)
    }

    function GetDetails(prefix: string): (r: Option<Detail>)
      reads this
      ensures r == LookupDetail(details, prefix)
    {
      LookupDetail(details, prefix)
    }

    /** `SELECT id, rowid FROM memories WHERE id LIKE prefix || '%'`: the first match in rowid order. */
    function ResolvePrefix(prefix: string): (r: Option<nat>)
      reads this
      ensures r.Some? ==>
        r.value < |memories| && IsPrefix(prefix, memories[r.value].mem.id) &&
        forall j :: 0 <= j < r.value ==> !IsPrefix(prefix, memories[j].mem.id)
      ensures r.None? ==> forall j :: 0 <= j < |memories| ==> !IsPrefix(prefix, memories[j].mem.id)
    {
      Seqs.FindFirst(memories, IdHasPrefix(prefix))
    }

    /**
     * `update_memory`: resolves the prefix; an unmatched prefix returns false and
     * changes nothing. Otherwise the record is patched, re-indexed, and a truthy
     * `detailsAppend` is appended to (or creates) its details.
     */
    method UpdateMemory(prefix: string, what: Option<string>, why: Option<string>, impact: Option<string>,
                        tags: Option<seq<string>>, detailsAppend: Option<string>, now: string) returns (found: bool)
      requires Valid()
      modifies this
      ensures Valid()
      ensures found <==> old(ResolvePrefix(prefix)).Some?
      ensures !found ==> memories == old(memories) && details == old(details) && fts == old(fts)
      ensures found ==>
        var i := old(ResolvePrefix(prefix)).value;
        var row := Patched(old(memories)[i], what, why, impact, tags, now);
        memories == old(memories)[i := row] && fts == old(fts)[row.rowid := DocOf(row.mem)] &&
        details == (if Truthy(detailsAppend) then AppendDetail(old(details), row.mem.id, detailsAppend.value) else old(details))
      ensures nextRowid == old(nextRowid) && meta == old(meta) && vecTable == old(vecTable) && vectors == old(vectors)
    {
      var k := ResolvePrefix(prefix);
      if k.None? {
        return false;
      }
      var i := k.value;
      var row := Patched(memories[i], what, why, impact, tags, now);
      memories := memories[i := row];
      fts := fts[row.rowid := DocOf(row.mem)];
      UpdateKeepsValid(old(memories), details, old(fts), nextRowid, i, row, detailsAppend);
      if Truthy(detailsAppend) {
        details := AppendDetail(details, row.mem.id, detailsAppend.value);
      }
      found := true;
    }

    /**
     * `delete_memory`: resolves the prefix and removes the record and its details.
     * The FTS entry and any vector stay behind, hidden by the joins.
     */
    method DeleteMemory(prefix: string) returns (found: bool)
      requires Valid()
      modifies this
      ensures Valid()
      ensures found <==> old(ResolvePrefix(prefix)).Some?
      ensures !found ==> memories == old(memories) && details == old(details)
      ensures found ==>
        var i := old(ResolvePrefix(prefix)).value;
        var id := old(memories)[i].mem.id;
        memories == RemoveAt(old(memories), i) && details == RemoveDetails(old(details), id) &&
        GetMemory(id) == None && !HasDetail(details, id)
      ensures nextRowid == old(nextRowid) && meta == old(meta) && fts == old(fts)
      ensures vecTable == old(vecTable) && vectors == old(vectors)
    {
      var k := ResolvePrefix(prefix);
      if k.None? {
        return false;
      }
      var i := k.value;
      var id := memories[i].mem.id;
      DeleteHides(memories, details, i, prefix);
      RemoveKeepsValid(memories, details, fts, nextRowid, i);
      details := RemoveDetails(details, id);
      memories := RemoveAt(memories, i);
      found := true;
    }

    function FtsSearch(query: string, limit: int, project: Option<string>, source: Option<string>): (r: Result<seq<Hit>, Error>)
      reads this
      ensures r == FtsSearchIn(memories, details, fts, engine, query, limit, project, source)
    {
      FtsSearchIn(memories, details, fts, engine, query, limit, project, source)
    }

    /** `vector_search`, with the loop that turns each joined KNN row into a scored hit. */
    method VectorSearch(query: seq<real>, limit: int, project: Option<string>, source: Option<string>)
      returns (r: Result<seq<Hit>, Error>)
      ensures r == VectorSearchIn(memories, details, vecTable, vectors, engine.distance, query, limit, project, source)
    {
      if !HasVecTable() {
        return Ok([]);
      }
      if |query| != vecTable.value {
        return Err(VectorWidth(vecTable.value, |query|));
      }
      if limit < 0 {
        return Err(NegativeK(limit));
      }
      var knn := Nearest(vectors, query, limit, engine.distance);
      var results: seq<Hit> := [];
      var i := 0;
      while i < |knn|
        invariant 0 <= i <= |knn|
        invariant results == JoinVectors(knn[..i], memories, details, query, engine.distance)
      {
        assert knn[..i + 1][..i] == knn[..i];
        results := results + JoinVector(knn[i], memories, details, query, engine.distance);
        i := i + 1;
      }
      assert knn[..i] == knn;
      r := Ok(PostFilter(results, project, source));
    }

    function ListRecent(limit: int, project: Option<string>, source: Option<string>): (r: seq<Pointer>)
      reads this
      ensures r == ListRecentIn(memories, details, limit, project, source)
    {
      ListRecentIn(memories, details, limit, project, source)
    }

    function CountMemories(project: Option<string>, source: Option<string>): (n: nat)
      reads this
      ensures n == CountIn(memories, project, source)
    {
      CountIn(memories, project, source)
    }

    /** `list_all_for_reindex`: every record, in ascending rowid order. */
    function ListAllForReindex(): (r: seq<Row>)
      reads this
      requires Valid()
      ensures r == memories && |r| == CountMemories(None, None)
      ensures forall i, j :: 0 <= i < j < |r| ==> r[i].rowid < r[j].rowid
    {
      CountUnfiltered(memories);
      memories
    }
  }

  // ---------------------------------------------------------------- invariant helpers

  lemma InsertKeepsValid(rows: seq<Row>, details: seq<Detail>, fts: map<int, FtsDoc>, next: int,
                         mem: Memory, body: Option<string>)
    requires RowsValid(rows, next) && DetailsValid(details, rows) && FtsValid(fts, rows, next)
    requires LookupRecord(rows, details, mem.id).None?
    ensures var rows' := rows + [Row(next, mem, 0)];
      RowsValid(rows', next + 1) && DetailsValid(AddDetail(details, mem.id, body), rows') &&
      FtsValid(fts[next := DocOf(mem)], rows', next + 1) && next !in fts &&
      LookupRecord(rows', AddDetail(details, mem.id, body), mem.id) == Some(Record(Row(next, mem, 0), Truthy(body)))
  {
    assert !HasId(rows, mem.id);
    AppendRowValid(rows, next, mem);
    AppendFtsValid(fts, rows, next, mem);
    AddDetailValid(details, rows, next, mem, body);
    InsertThenLookup(rows, details, mem, next, body);
  }

  lemma AppendRowValid(rows: seq<Row>, next: int, mem: Memory)
    requires RowsValid(rows, next) && !HasId(rows, mem.id)
    ensures RowsValid(rows + [Row(next, mem, 0)], next + 1)
  {
    var rows' := rows + [Row(next, mem, 0)];
    forall a, b | 0 <= a < b < |rows'| ensures rows'[a].rowid < rows'[b].rowid && rows'[a].mem.id != rows'[b].mem.id {
      assert rows'[a] == rows[a];
      if b < |rows| {
        assert rows'[b] == rows[b];
      }
    }
  }

  lemma AppendFtsValid(fts: map<int, FtsDoc>, rows: seq<Row>, next: int, mem: Memory)
    requires RowsValid(rows, next) && FtsValid(fts, rows, next)
    ensures FtsValid(fts[next := DocOf(mem)], rows + [Row(next, mem, 0)], next + 1) && next !in fts
  {
    var rows' := rows + [Row(next, mem, 0)];
    forall k | 0 <= k < |rows'|
      ensures rows'[k].rowid in fts[next := DocOf(mem)] && fts[next := DocOf(mem)][rows'[k].rowid] == DocOf(rows'[k].mem)
    {
      if k < |rows| {
        assert rows'[k] == rows[k];
      }
    }
  }

  lemma AddDetailValid(details: seq<Detail>, rows: seq<Row>, next: int, mem: Memory, body: Option<string>)
    requires DetailsValid(details, rows) && !HasId(rows, mem.id)
    ensures DetailsValid(AddDetail(details, mem.id, body), rows + [Row(next, mem, 0)])
  {
    var rows' := rows + [Row(next, mem, 0)];
    var details' := AddDetail(details, mem.id, body);
    assert HasId(rows', mem.id) by {
      assert rows'[|rows|].mem.id == mem.id;
    }
    forall x | HasId(rows, x) ensures HasId(rows', x) {
      var j :| 0 <= j < |rows| && rows[j].mem.id == x;
      assert rows'[j] == rows[j];
    }
    forall k | 0 <= k < |details| ensures details[k].memoryId != mem.id {
      assert HasId(rows, details[k].memoryId);
    }
    assert forall k :: 0 <= k < |details'| ==> HasId(rows', details'[k].memoryId);
  }

  lemma SameIdsKeepOwners(details: seq<Detail>, rows: seq<Row>, i: nat, row: Row)
    requires i < |rows| && row.mem.id == rows[i].mem.id
    requires DetailsValid(details, rows)
    ensures DetailsValid(details, rows[i := row])
    ensures forall x :: HasId(rows, x) ==> HasId(rows[i := row], x)
  {
    var rows' := rows[i := row];
    forall x | HasId(rows, x) ensures HasId(rows', x) {
      var j :| 0 <= j < |rows| && rows[j].mem.id == x;
      assert rows'[j].mem.id == x;
    }
  }

  lemma AppendKeepsOwners(details: seq<Detail>, rows: seq<Row>, i: nat, row: Row, text: string)
    requires i < |rows| && row.mem.id == rows[i].mem.id
    requires DetailsValid(details, rows)
    ensures DetailsValid(AppendDetail(details, row.mem.id, text), rows[i := row])
  {
    var rows' := rows[i := row];
    var r := AppendDetail(details, row.mem.id, text);
    AppendDetailEffect(details, row.mem.id, text);
    SameIdsKeepOwners(details, rows, i, row);
    assert HasId(rows', row.mem.id) by {
      assert rows'[i].mem.id == row.mem.id;
    }
    forall d | 0 <= d < |r| ensures HasId(rows', r[d].memoryId) {
      if r[d].memoryId != row.mem.id {
        assert d < |details| && r[d].memoryId == details[d].memoryId;
        assert HasId(rows, details[d].memoryId);
      }
    }
  }

  lemma UpdateKeepsValid(rows: seq<Row>, details: seq<Detail>, fts: map<int, FtsDoc>, next: int,
                         i: nat, row: Row, append: Option<string>)
    requires RowsValid(rows, next) && DetailsValid(details, rows) && FtsValid(fts, rows, next)
    requires i < |rows| && row.rowid == rows[i].rowid && row.mem.id == rows[i].mem.id && row.updatedCount >= 0
    ensures var rows' := rows[i := row];
      RowsValid(rows', next) && FtsValid(fts[row.rowid := DocOf(row.mem)], rows', next) &&
      DetailsValid(if Truthy(append) then AppendDetail(details, row.mem.id, append.value) else details, rows')
  {
    var rows' := rows[i := row];
    forall a, b | 0 <= a < b < |rows'| ensures rows'[a].rowid < rows'[b].rowid && rows'[a].mem.id != rows'[b].mem.id {
      assert rows'[a].rowid == rows[a].rowid && rows'[a].mem.id == rows[a].mem.id;
      assert rows'[b].rowid == rows[b].rowid && rows'[b].mem.id == rows[b].mem.id;
    }
    forall k | 0 <= k < |rows'|
      ensures rows'[k].rowid in fts[row.rowid := DocOf(row.mem)] &&
        fts[row.rowid := DocOf(row.mem)][rows'[k].rowid] == DocOf(rows'[k].mem)
    {
      if k != i {
        assert rows'[k] == rows[k] && rows[k].rowid != rows[i].rowid;
      }
    }
    if Truthy(append) {
      AppendKeepsOwners(details, rows, i, row, append.value);
    } else {
      SameIdsKeepOwners(details, rows, i, row);
    }
  }

  lemma {:induction false} RemoveDetailsUnique(details: seq<Detail>, id: string)
    requires UniqueDetailIds(details)
    ensures UniqueDetailIds(RemoveDetails(details, id))
  {
    if details != [] {
      var rest := RemoveDetails(details[1..], id);
      RemoveDetailsUnique(details[1..], id);
      if details[0].memoryId != id {
        var r := [details[0]] + rest;
        forall b | 1 <= b < |r| ensures r[0].memoryId != r[b].memoryId {
          assert r[b] == rest[b - 1] && r[b] in rest;
          var y :| 0 <= y < |details[1..]| && details[1..][y] == r[b];
          assert details[y + 1] == r[b];
        }
        forall a, b | 0 <= a < b < |r| ensures r[a].memoryId != r[b].memoryId {
          if a > 0 {
            assert r[a] == rest[a - 1] && r[b] == rest[b - 1];
          }
        }
      }
    }
  }

  lemma RemoveKeepsValid(rows: seq<Row>, details: seq<Detail>, fts: map<int, FtsDoc>, next: int, i: nat)
    requires i < |rows|
    requires RowsValid(rows, next) && DetailsValid(details, rows) && FtsValid(fts, rows, next)
    ensures var id := rows[i].mem.id;
      RowsValid(RemoveAt(rows, i), next) && DetailsValid(RemoveDetails(details, id), RemoveAt(rows, i)) &&
      FtsValid(fts, RemoveAt(rows, i), next)
  {
    var id := rows[i].mem.id;
    var rows' := RemoveAt(rows, i);
    var details' := RemoveDetails(details, id);
    forall a, b | 0 <= a < b < |rows'| ensures rows'[a].rowid < rows'[b].rowid && rows'[a].mem.id != rows'[b].mem.id {
      var a0 := if a < i then a else a + 1;
      var b0 := if b < i then b else b + 1;
      assert rows'[a] == rows[a0] && rows'[b] == rows[b0];
    }
    forall k | 0 <= k < |rows'|
      ensures 0 < rows'[k].rowid < next && rows'[k].updatedCount >= 0 &&
        rows'[k].rowid in fts && fts[rows'[k].rowid] == DocOf(rows'[k].mem)
    {
      var k0 := if k < i then k else k + 1;
      assert rows'[k] == rows[k0];
    }
    RemoveDetailsUnique(details, id);
    forall d | 0 <= d < |details'| ensures HasId(rows', details'[d].memoryId) {
      assert details'[d] in details';
      var e :| 0 <= e < |details| && details[e] == details'[d];
      assert HasId(rows, details[e].memoryId);
      var j :| 0 <= j < |rows| && rows[j].mem.id == details[e].memoryId;
      assert j != i;
      if j < i {
        assert rows'[j] == rows[j];
      } else {
        assert rows'[j - 1] == rows[j];
      }
    }
  }
}

/**
 * The `MemoryService` orchestrator: the save pipeline with its duplicate check, search
 * routing, context retrieval with recent top-up, reindexing, and the three lazily
 * filled caches.
 */
module Service {
  import opened Wrappers
  import opened Errors
  import opened Text
  import opened Models
  import Seqs
  import opened Store
  import opened Search

  // ---------------------------------------------------------------- configuration

  /** A configuration value that may be missing, a YAML boolean, or a string. */
  datatype Setting = Unset | Flag(b: bool) | Named(s: string)

  /** `embedding.provider`, `embedding.model`, `context.semantic`, `context.topup_recent`. */
  datatype Config = Config(provider: string, model: string, semantic: Setting, topupRecent: bool)

  /** The configuration used when no configuration file exists. */
  const DefaultConfig: Config := Config("ollama", "nomic-embed-text", Named("auto"), true)

  /** The clients behind the two provider names the configuration accepts. */
  datatype Clients = Clients(ollama: Provider, openai: Provider)

  /** `_create_embedding_provider`: the configured client, or ValueError for any other name. */
  function CreateProvider(config: Config, clients: Clients): Result<Provider, Error>
  {
    if config.provider == "ollama" then Ok(clients.ollama)
    else if config.provider == "openai" then Ok(clients.openai)
    else Err(UnknownProvider(config.provider))
  }

  // ---------------------------------------------------------------- tag union

  /** The lowercased forms of a tag list: `{t.lower() for t in tags}`. */
  function LowerSet(tags: seq<string>): set<string>
  {
    if tags == [] then {} else LowerSet(tags[..|tags| - 1]) + {Lower(tags[|tags| - 1])}
  }

  lemma LowerSetAppend(tags: seq<string>, t: string)
    ensures LowerSet(tags + [t]) == LowerSet(tags) + {Lower(t)}
  {
    assert (tags + [t])[..|tags|] == tags;
  }

  /** The tags `_merge_tags` returns, one loop step per tag of `extra`. */
  function MergedTags(existing: seq<string>, extra: seq<string>): seq<string>
  {
    if extra == [] then existing
    else
      var acc := MergedTags(existing, extra[..|extra| - 1]);
      var tag := extra[|extra| - 1];
      if Lower(tag) in LowerSet(acc) then acc else acc + [tag]
  }

  /**
   * The reference definition of what `_merge_tags` appends: each tag of `extra` whose
   * lowercased form occurs neither in `existing` nor earlier in `extra`.
   */
  function NewTags(existing: seq<string>, extra: seq<string>): (r: seq<string>)
    ensures forall t :: t in r ==> t in extra && Lower(t) !in LowerSet(existing)
  {
    if extra == [] then []
    else
      var init := extra[..|extra| - 1];
      var tag := extra[|extra| - 1];
      NewTags(existing, init) + (if Lower(tag) in LowerSet(existing) + LowerSet(init) then [] else [tag])
  }

  lemma {:induction false} LowerSetConcat(a: seq<string>, b: seq<string>)
    ensures LowerSet(a + b) == LowerSet(a) + LowerSet(b)
  {
    if b == [] {
      assert a + b == a;
    } else {
      var init := b[..|b| - 1];
      LowerSetConcat(a, init);
      assert (a + b)[..|a + b| - 1] == a + init;
    }
  }

  /** The new tags bring in exactly the lowercased forms of `extra` that `existing` lacks. */
  lemma {:induction false} NewTagsLowerSet(existing: seq<string>, extra: seq<string>)
    ensures LowerSet(existing) + LowerSet(NewTags(existing, extra)) == LowerSet(existing) + LowerSet(extra)
  {
    if extra != [] {
      var init := extra[..|extra| - 1];
      var tag := extra[|extra| - 1];
      NewTagsLowerSet(existing, init);
      var d := if Lower(tag) in LowerSet(existing) + LowerSet(init) then [] else [tag];
      LowerSetConcat(NewTags(existing, init), d);
    }
  }

  /** `_merge_tags` keeps `existing` as a prefix and appends exactly the new tags. */
  lemma {:induction false} MergedTagsPrefix(existing: seq<string>, extra: seq<string>)
    ensures MergedTags(existing, extra) == existing + NewTags(existing, extra)
  {
    if extra == [] {
      assert existing + [] == existing;
    } else {
      var init := extra[..|extra| - 1];
      var tag := extra[|extra| - 1];
      var acc := MergedTags(existing, init);
      MergedTagsPrefix(existing, init);
      var n := NewTags(existing, init);
      var seen := LowerSet(existing) + LowerSet(init);
      assert LowerSet(acc) == seen by {
        LowerSetConcat(existing, n);
        NewTagsLowerSet(existing, init);
      }
      var d := if Lower(tag) in seen then [] else [tag];
      assert NewTags(existing, extra) == n + d;
      assert MergedTags(existing, extra) == acc + d;
      assert acc + d == existing + (n + d);
    }
  }

  /** After `_merge_tags` every tag of either list is present, in some letter case, and no other. */
  lemma MergedTagsUnion(existing: seq<string>, extra: seq<string>)
    ensures LowerSet(MergedTags(existing, extra)) == LowerSet(existing) + LowerSet(extra)
  {
    MergedTagsPrefix(existing, extra);
    LowerSetConcat(existing, NewTags(existing, extra));
    NewTagsLowerSet(existing, extra);
  }

  /** No tag `_merge_tags` appends repeats, case-insensitively, a tag before it. */
  lemma {:induction false} MergedTagsFresh(existing: seq<string>, extra: seq<string>)
    ensures FreshFrom(MergedTags(existing, extra), |existing|)
  {
    if extra != [] {
      var init := extra[..|extra| - 1];
      var tag := extra[|extra| - 1];
      var acc := MergedTags(existing, init);
      MergedTagsFresh(existing, init);
      if Lower(tag) !in LowerSet(acc) {
        var r := acc + [tag];
        assert MergedTags(existing, extra) == r;
        forall i, j | 0 <= i < j < |r| && |existing| <= j ensures Lower(r[i]) != Lower(r[j]) {
          assert FreshFrom(acc, |existing|);
          if j == |acc| {
            LowerSetHas(acc, i);
          } else {
            assert r[i] == acc[i] && r[j] == acc[j];
          }
        }
      } else {
        assert MergedTags(existing, extra) == acc;
      }
    }
  }

  /** From index `n` on, no tag repeats an earlier tag in lower case. */
  predicate FreshFrom(tags: seq<string>, n: nat)
  {
    forall i, j :: 0 <= i < j < |tags| && n <= j ==> Lower(tags[i]) != Lower(tags[j])
  }

  lemma {:induction false} LowerSetHas(tags: seq<string>, k: nat)
    requires k < |tags|
    ensures Lower(tags[k]) in LowerSet(tags)
  {
    if k < |tags| - 1 {
      LowerSetHas(tags[..|tags| - 1], k);
    }
  }

  /** Tags that are all present already, case-insensitively, add nothing. */
  lemma {:induction false} MergedTagsNoop(acc: seq<string>, extra: seq<string>)
    requires forall t :: t in extra ==> Lower(t) in LowerSet(acc)
    ensures MergedTags(acc, extra) == acc
  {
    if extra != [] {
      assert forall t :: t in extra[..|extra| - 1] ==> t in extra;
      MergedTagsNoop(acc, extra[..|extra| - 1]);
      assert extra[|extra| - 1] in extra;
    }
  }

  /** Merging the same extra tags a second time changes nothing. */
  lemma MergedTagsIdempotent(existing: seq<string>, extra: seq<string>)
    ensures MergedTags(MergedTags(existing, extra), extra) == MergedTags(existing, extra)
  {
    var r := MergedTags(existing, extra);
    MergedTagsUnion(existing, extra);
    forall t | t in extra ensures Lower(t) in LowerSet(r) {
      var k :| 0 <= k < |extra| && extra[k] == t;
      LowerSetHas(extra, k);
    }
    MergedTagsNoop(r, extra);
  }

  /** `_merge_tags`: copy `existing`, then append each new tag, tracking lowercased forms in a set. */
  method MergeTags(existing: seq<string>, extra: seq<string>) returns (combined: seq<string>)
    ensures combined == MergedTags(existing, extra)
  {
    combined := existing;
    var seen := LowerSet(existing);
    var i := 0;
    while i < |extra|
      invariant 0 <= i <= |extra|
      invariant combined == MergedTags(existing, extra[..i])
      invariant seen == LowerSet(combined)
    {
      var tag := extra[i];
      assert extra[..i + 1][..i] == extra[..i];
      if Lower(tag) !in seen {
        LowerSetAppend(combined, tag);
        combined := combined + [tag];
        seen := seen + {Lower(tag)};
      }
      i := i + 1;
    }
    assert extra[..i] == extra;
  }

  // ---------------------------------------------------------------- the duplicate check of `save`

  const DedupThreshold: real := 0.7
  const DedupProbeLimit: int := 5

  /** `f"{raw.title} {raw.what}"`. */
  function DedupQuery(raw: RawMemoryInput): string
  {
    raw.title + " " + raw.what
  }

  /** A failed probe counts as no candidates. */
  function Candidates(r: Result<seq<Hit>, Error>): seq<Hit>
  {
    if r.Ok? then r.value else []
  }

  /**
   * The normalisation denominator: the best candidate score, except that a lone candidate
   * is measured against an unfiltered re-query, when that succeeds with some hits.
   */
  function Denominator(candidates: seq<Hit>, broad: Result<seq<Hit>, Error>): real
    requires candidates != []
  {
    var pool := if |candidates| == 1 && broad.Ok? && broad.value != [] then broad.value else candidates;
    MaxScore(pool)
  }

  /** `top["score"] / max_score if max_score > 0 else 0.0`. */
  function TopScore(candidates: seq<Hit>, broad: Result<seq<Hit>, Error>): real
    requires candidates != []
  {
    var m := Denominator(candidates, broad);
    if m > 0.0 then Quotient(candidates[0].score, m) else 0.0
  }

  /** Titles compared after `strip().lower()`. */
  predicate TitlesMatch(a: string, b: string)
  {
    Lower(Strip(a)) == Lower(Strip(b))
  }

  /** The keyword hit `save` updates instead of creating a new record, when there is one. */
  function DedupTarget(rows: seq<Row>, details: seq<Detail>, fts: map<int, FtsDoc>, engine: Engine,
                       raw: RawMemoryInput, project: string): (r: Option<Hit>)
    ensures var probe := FtsSearchIn(rows, details, fts, engine, DedupQuery(raw), DedupProbeLimit, Some(project), None);
      probe.Err? || probe.value == [] ==> r.None?
  {
    var q := DedupQuery(raw);
    var candidates := Candidates(FtsSearchIn(rows, details, fts, engine, q, DedupProbeLimit, Some(project), None));
    if candidates == [] then None
    else
      var broad := FtsSearchIn(rows, details, fts, engine, q, DedupProbeLimit, None, None);
      if TopScore(candidates, broad) >= DedupThreshold && TitlesMatch(raw.title, candidates[0].row.mem.title)
      then Some(candidates[0])
      else None
  }

  /**
   * The update path is taken exactly when the project probe finds a best hit whose
   * normalised score reaches 0.7 and whose title matches; it then targets that hit, a
   * live record of the project.
   */
  lemma DedupTargetIs(rows: seq<Row>, details: seq<Detail>, fts: map<int, FtsDoc>, engine: Engine,
                      raw: RawMemoryInput, project: string)
    ensures var q := DedupQuery(raw);
      var probe := FtsSearchIn(rows, details, fts, engine, q, DedupProbeLimit, Some(project), None);
      var broad := FtsSearchIn(rows, details, fts, engine, q, DedupProbeLimit, None, None);
      var r := DedupTarget(rows, details, fts, engine, raw, project);
      r.Some? <==>
        probe.Ok? && probe.value != [] && TopScore(probe.value, broad) >= DedupThreshold &&
        TitlesMatch(raw.title, probe.value[0].row.mem.title)
    ensures var q := DedupQuery(raw);
      var probe := FtsSearchIn(rows, details, fts, engine, q, DedupProbeLimit, Some(project), None);
      var r := DedupTarget(rows, details, fts, engine, raw, project);
      r.Some? ==>
        probe.Ok? && r.value == probe.value[0] && r.value.row in rows &&
        PassesFilters(r.value.row.mem, Some(project), None) &&
        TitlesMatch(raw.title, r.value.row.mem.title) &&
        TopScore(probe.value, FtsSearchIn(rows, details, fts, engine, q, DedupProbeLimit, None, None)) >= DedupThreshold
  {
    var q := DedupQuery(raw);
    var probe := FtsSearchIn(rows, details, fts, engine, q, DedupProbeLimit, Some(project), None);
    var broad := FtsSearchIn(rows, details, fts, engine, q, DedupProbeLimit, None, None);
    var r := DedupTarget(rows, details, fts, engine, raw, project);
    if probe.Ok? && probe.value != [] {
      var top := probe.value[0];
      assert Candidates(probe) == probe.value;
      assert r == if TopScore(probe.value, broad) >= DedupThreshold && TitlesMatch(raw.title, top.row.mem.title)
                  then Some(top) else None;
      assert top in probe.value;
    } else {
      assert Candidates(probe) == [];
      assert r.None?;
    }
  }

  /**
   * With two or more candidates, or one whose re-query fails or is empty, the candidates
   * are their own denominator; being best first, the top one then normalises to 1 when
   * its score is positive, and the decision rests on the title alone.
   */
  lemma TopScoreOwnPool(candidates: seq<Hit>, broad: Result<seq<Hit>, Error>)
    requires candidates != [] && Seqs.Sorted(candidates, ScoreDesc)
    requires |candidates| >= 2 || broad.Err? || broad.value == []
    requires candidates[0].score > 0.0
    ensures TopScore(candidates, broad) == 1.0
  {
    forall k | 0 <= k < |candidates| ensures candidates[k].score <= candidates[0].score {
      if k > 0 {
        assert ScoreDesc(candidates[0], candidates[k]);
      }
    }
    MaxScoreIs(candidates, candidates[0].score);
    DivSelf(candidates[0].score);
  }

  /** A lone candidate measured against a best-first re-query that it tops, or ties, gets 1. */
  lemma TopScoreAgainstBroad(candidates: seq<Hit>, broad: seq<Hit>)
    requires |candidates| == 1 && broad != [] && Seqs.Sorted(broad, ScoreDesc)
    requires candidates[0].score == broad[0].score > 0.0
    ensures TopScore(candidates, Ok(broad)) == 1.0
  {
    forall k | 0 <= k < |broad| ensures broad[k].score <= broad[0].score {
      if k > 0 {
        assert ScoreDesc(broad[0], broad[k]);
      }
    }
    MaxScoreIs(broad, broad[0].score);
    DivSelf(broad[0].score);
  }

  // ---------------------------------------------------------------- texts `save` builds

  /** `project or os.path.basename(os.getcwd())`. */
  function ProjectName(project: Option<string>, cwdName: string): string
  {
    if Truthy(project) then project.value else cwdName
  }

  /** `os.path.join(vault_dir, project, f"{today}-session.md")`. */
  function SessionPath(vaultDir: string, project: string, today: string): string
  {
    vaultDir + "/" + project + "/" + today + "-session.md"
  }

  /** `f"{title} {what} {why or ''} {impact or ''} {' '.join(tags)}"`. */
  function EmbedText(title: string, what: string, why: Option<string>, impact: Option<string>, tags: seq<string>): string
  {
    title + " " + what + " " + OrElse(why, "") + " " + OrElse(impact, "") + " " + Join(" ", tags)
  }

  /** `f"--- updated {today} ---\n{details}"`, for truthy details only. */
  function UpdateNote(today: string, details: Option<string>): (r: Option<string>)
    ensures r.Some? <==> Truthy(details)
  {
    if Truthy(details) then Some("--- updated " + today + " ---\n" + details.value) else None
  }

  /** Redaction applied to `what` always and to `why`, `impact` and `details` when truthy. */
  function Redacted(raw: RawMemoryInput, redact: (string, seq<string>) -> string, patterns: seq<string>): (r: RawMemoryInput)
    ensures r.title == raw.title && r.tags == raw.tags && r.category == raw.category
    ensures r.relatedFiles == raw.relatedFiles && r.source == raw.source
    ensures r.what == redact(raw.what, patterns)
    ensures r.why == (if Truthy(raw.why) then Some(redact(raw.why.value, patterns)) else raw.why)
    ensures r.impact == (if Truthy(raw.impact) then Some(redact(raw.impact.value, patterns)) else raw.impact)
    ensures r.details == (if Truthy(raw.details) then Some(redact(raw.details.value, patterns)) else raw.details)
  {
    raw.(what := redact(raw.what, patterns),
         why := if Truthy(raw.why) then Some(redact(raw.why.value, patterns)) else raw.why,
         impact := if Truthy(raw.impact) then Some(redact(raw.impact.value, patterns)) else raw.impact,
         details := if Truthy(raw.details) then Some(redact(raw.details.value, patterns)) else raw.details)
  }

  // ---------------------------------------------------------------- the embedding step of `save`

  /** The vector side of the store and the `_vectors_available` cache: what the embedding step touches. */
  datatype VecSide = VecSide(dims: DimState, vectors: seq<VecRow>, available: Option<bool>)

  /** The vec table already holds a vector under `rowid`. */
  predicate HoldsVector(vectors: seq<VecRow>, rowid: int)
  {
    exists i :: 0 <= i < |vectors| && vectors[i].rowid == rowid
  }

  /**
   * `insert_vector` with its error swallowed: the vector is stored when a table of its
   * width exists and the rowid is free, and otherwise nothing changes.
   */
  function StoreVector(vecTable: Option<nat>, vectors: seq<VecRow>, rowid: int, e: seq<real>): seq<VecRow>
  {
    if vecTable.Some? && |e| == vecTable.value && !HoldsVector(vectors, rowid) then vectors + [VecRow(rowid, e)]
    else vectors
  }

  /**
   * The embedding step of both `save` paths on the vector side, every failure swallowed:
   * build the provider, embed `text`, `_ensure_vectors` (whose DimensionMismatchError sets
   * the cache to false, and whose other errors leave it), then `insert_vector` under
   * `rowid` when there is one.
   */
  function EmbedStep(p: Result<Provider, Error>, text: string, rowid: Option<int>, st: VecSide): VecSide
  {
    if p.Err? || p.value.embed(text).Err? then st
    else
      var e := p.value.embed(text).value;
      var ensured := EnsureVec(st.dims, |e|);
      var available :=
        if ensured.0.Ok? then Some(true)
        else if ensured.0.error.DimensionMismatch? then Some(false)
        else st.available;
      var vectors :=
        if ensured.0.Ok? && rowid.Some? then StoreVector(ensured.1.vecTable, st.vectors, rowid.value, e)
        else st.vectors;
      VecSide(ensured.1, vectors, available)
  }

  /**
   * The embedding is stored under the rowid when the provider embeds the text, the rowid
   * is free, and the store either has no dimension and no vec table yet, or already has
   * both at the embedding's width; the cache then says vectors are available.
   */
  lemma EmbedStepStores(p: Result<Provider, Error>, text: string, rowid: int, st: VecSide)
    requires p.Ok? && p.value.embed(text).Ok?
    requires var d := |p.value.embed(text).value|;
      (StoredDim(st.dims.meta) == Ok(None) && st.dims.vecTable.None?) ||
      (StoredDim(st.dims.meta) == Ok(Some(d)) && st.dims.vecTable == Some(d))
    requires !HoldsVector(st.vectors, rowid)
    ensures var r := EmbedStep(p, text, Some(rowid), st);
      r.vectors == st.vectors + [VecRow(rowid, p.value.embed(text).value)] && r.available == Some(true) &&
      StoredDim(r.dims.meta) == Ok(Some(|p.value.embed(text).value|)) &&
      r.dims.vecTable == Some(|p.value.embed(text).value|)
  {
  }

  /** The step adds at most one vector: the provider's embedding of the text, under the rowid. */
  lemma EmbedStepAddsAtMostOne(p: Result<Provider, Error>, text: string, rowid: Option<int>, st: VecSide)
    ensures var r := EmbedStep(p, text, rowid, st);
      r.vectors == st.vectors ||
      (rowid.Some? && p.Ok? && p.value.embed(text).Ok? &&
       r.vectors == st.vectors + [VecRow(rowid.value, p.value.embed(text).value)])
  {
  }

  /** A failing provider or embedding changes nothing at all. */
  lemma EmbedStepFailure(p: Result<Provider, Error>, text: string, rowid: Option<int>, st: VecSide)
    requires p.Err? || p.value.embed(text).Err?
    ensures EmbedStep(p, text, rowid, st) == st
  {
  }

  /**
   * An embedding whose width differs from the stored dimension is dropped: the memory
   * stays without a vector, the dimension and table are kept, and the cache says false.
   */
  lemma EmbedStepMismatch(p: Result<Provider, Error>, text: string, rowid: Option<int>, st: VecSide, d: nat)
    requires p.Ok? && p.value.embed(text).Ok?
    requires StoredDim(st.dims.meta) == Ok(Some(d)) && d != |p.value.embed(text).value|
    ensures EmbedStep(p, text, rowid, st) == VecSide(st.dims, st.vectors, Some(false))
  {
  }

  /** The provider cache once the step asked for the provider. */
  function CachedProvider(p: Result<Provider, Error>): Option<Provider>
  {
    if p.Ok? then Some(p.value) else None
  }

  /**
   * After patching row `i` without touching its id or rowid, the exact-id lookup that
   * `save` runs before re-embedding finds row `k`'s rowid again.
   */
  lemma PatchedKeepsRowid(rows: seq<Row>, details: seq<Detail>, next: int, i: nat, row: Row, k: nat)
    requires i < |rows| && k < |rows|
    requires row.rowid == rows[i].rowid && row.mem.id == rows[i].mem.id
    requires RowsValid(rows[i := row], next)
    ensures var r := LookupRecord(rows[i := row], details, rows[k].mem.id);
      r.Some? && r.value.row.rowid == rows[k].rowid
  {
    var rs := rows[i := row];
    assert rs[k].mem.id == rows[k].mem.id && rs[k].rowid == rows[k].rowid;
    var r := LookupRecord(rs, details, rows[k].mem.id);
    assert r.Some?;
    var m :| 0 <= m < |rs| && rs[m] == r.value.row;
    assert m == k;
  }

  // ---------------------------------------------------------------- semantic mode and context

  /**
   * `get_context`'s normalisation: an unset mode takes the configured one; a boolean
   * maps to "always"/"never"; anything but "auto", "always" or "never" becomes "auto".
   */
  function SemanticMode(arg: Setting, configured: Setting): (m: string)
    ensures m == "auto" || m == "always" || m == "never"
    ensures arg == Flag(true) ==> m == "always"
    ensures arg == Flag(false) ==> m == "never"
    ensures arg.Named? && (arg.s == "auto" || arg.s == "always" || arg.s == "never") ==> m == arg.s
    ensures arg.Named? && arg.s != "auto" && arg.s != "always" && arg.s != "never" ==> m == "auto"
  {
    var chosen := if arg.Unset? then configured else arg;
    var s := match chosen
      case Flag(b) => if b then "always" else "never"
      case Named(s) => s
      case Unset => "";
    if s == "auto" || s == "always" || s == "never" then s else "auto"
  }

  /** Without an argument the configured mode is normalised the same way. */
  lemma SemanticModeDefault(configured: Setting)
    ensures SemanticMode(Unset, configured) == SemanticMode(configured, Unset)
  {
  }

  /** `_should_use_semantic`: "never" and "always" decide; in "auto" an Ollama provider must be warm. */
  function ShouldUseSemantic(mode: string, provider: string, warm: bool): (b: bool)
    ensures mode == "never" ==> !b
    ensures mode == "always" ==> b
    ensures mode != "never" && mode != "always" && provider != "ollama" ==> b
    ensures mode != "never" && mode != "always" && provider == "ollama" ==> b == warm
  {
    if mode == "never" then false
    else if mode == "always" then true
    else if provider == "ollama" then warm
    else true
  }

  /** An entry of `get_context`'s result: a search hit or a recent pointer. */
  datatype ContextItem = Found(hit: Hit) | Recent(pointer: Pointer)

  function ItemId(item: ContextItem): string
  {
    match item
    case Found(h) => IdOf(h)
    case Recent(p) => p.id
  }

  function HitItems(hits: seq<Hit>): (r: seq<ContextItem>)
    ensures |r| == |hits| && forall k :: 0 <= k < |hits| ==> r[k] == Found(hits[k])
  {
    if hits == [] then [] else HitItems(hits[..|hits| - 1]) + [Found(hits[|hits| - 1])]
  }

  /** The top-up loop: recent pointers whose ids were not among the hits, until `limit` is reached. */
  function TopUp(acc: seq<ContextItem>, recent: seq<Pointer>, seen: set<string>, limit: int): seq<ContextItem>
    decreases |recent|
  {
    if recent == [] then acc
    else if recent[0].id in seen then TopUp(acc, recent[1..], seen, limit)
    else
      var next := acc + [Recent(recent[0])];
      if |next| >= limit then next else TopUp(next, recent[1..], seen, limit)
  }

  /**
   * Top-up keeps the hits first, never exceeds `limit`, appends only recent pointers
   * not already among the hits, and stops short of `limit` only when it has taken
   * every such pointer.
   */
  lemma {:induction false} TopUpShape(acc: seq<ContextItem>, recent: seq<Pointer>, seen: set<string>, limit: int)
    requires |acc| < limit
    ensures var r := TopUp(acc, recent, seen, limit);
      |acc| <= |r| <= limit && r[..|acc|] == acc &&
      (forall k :: |acc| <= k < |r| ==> r[k].Recent? && r[k].pointer in recent && r[k].pointer.id !in seen) &&
      (|r| < limit ==> forall p :: p in recent && p.id !in seen ==> Recent(p) in r)
    decreases |recent|
  {
    if recent != [] {
      var rest := recent[1..];
      if recent[0].id in seen {
        TopUpShape(acc, rest, seen, limit);
        forall p | p in recent && p.id !in seen ensures p in rest {
        }
      } else {
        var next := acc + [Recent(recent[0])];
        if |next| < limit {
          TopUpShape(next, rest, seen, limit);
          var r := TopUp(next, rest, seen, limit);
          assert r[..|next|] == next;
          assert r[..|acc|] == next[..|acc|];
          assert r[|acc|] == Recent(recent[0]);
          forall p | p in recent && p.id !in seen && |r| < limit ensures Recent(p) in r {
            if p != recent[0] {
              assert p in rest;
            }
          }
        }
      }
    }
  }

  /** The ids of a list of recent pointers are distinct, and none of the hits' ids repeat: then neither do the result's. */
  lemma {:induction false} TopUpDistinct(acc: seq<ContextItem>, recent: seq<Pointer>, seen: set<string>, limit: int)
    requires Seqs.DistinctBy(acc, ItemId)
    requires forall k :: 0 <= k < |acc| ==> ItemId(acc[k]) in seen
    requires forall i, j :: 0 <= i < j < |recent| ==> recent[i].id != recent[j].id
    ensures Seqs.DistinctBy(TopUp(acc, recent, seen, limit), ItemId)
    decreases |recent|
  {
    if recent != [] {
      var rest := recent[1..];
      if recent[0].id in seen {
        TopUpDistinct(acc, rest, seen, limit);
      } else {
        var next := acc + [Recent(recent[0])];
        TopUpDistinct(next, rest, seen + {recent[0].id}, limit);
        TopUpSeen(next, rest, seen, recent[0].id, limit);
      }
    }
  }

  /** A pointer id that no later pointer carries can be added to the ids to skip without changing the top-up. */
  lemma {:induction false} TopUpSeen(acc: seq<ContextItem>, recent: seq<Pointer>, seen: set<string>, x: string, limit: int)
    requires forall k :: 0 <= k < |recent| ==> recent[k].id != x
    ensures TopUp(acc, recent, seen, limit) == TopUp(acc, recent, seen + {x}, limit)
    decreases |recent|
  {
    if recent != [] {
      TopUpSeen(acc, recent[1..], seen, x, limit);
      TopUpSeen(acc + [Recent(recent[0])], recent[1..], seen, x, limit);
    }
  }

  /** The top-up loop of `get_context`, with its `continue` and `break`. */
  method TopUpLoop(results: seq<ContextItem>, recent: seq<Pointer>, seen: set<string>, limit: int)
    returns (out: seq<ContextItem>)
    ensures out == TopUp(results, recent, seen, limit)
  {
    out := results;
    var i := 0;
    while i < |recent|
      invariant 0 <= i <= |recent|
      invariant TopUp(out, recent[i..], seen, limit) == TopUp(results, recent, seen, limit)
    {
      var r := recent[i];
      assert recent[i..][1..] == recent[i + 1..];
      if r.id in seen {
        i := i + 1;
        continue;
      }
      out := out + [Recent(r)];
      if |out| >= limit {
        return;
      }
      i := i + 1;
    }
  }

  // ---------------------------------------------------------------- reindex

  /** The `(current, total)` pairs reported for the first `n` of `total` records. */
  function Progress(n: nat, total: nat): (r: seq<(nat, nat)>)
    ensures |r| == n && forall k :: 0 <= k < n ==> r[k] == (k + 1, total)
  {
    if n == 0 then [] else Progress(n - 1, total) + [(n, total)]
  }

  function RowEmbedText(row: Row): string
  {
    EmbedText(row.mem.title, row.mem.what, row.mem.why, row.mem.impact, row.mem.tags)
  }

  /**
   * The vector table `reindex` rebuilds: each record's embedding under its rowid, in
   * rowid order; the first failing embedding call or wrong width aborts.
   */
  function Reembedded(rows: seq<Row>, p: Provider, dim: nat): (r: Result<seq<VecRow>, Error>)
    ensures r.Ok? ==>
      |r.value| == |rows| &&
      forall k :: 0 <= k < |rows| ==>
        r.value[k].rowid == rows[k].rowid && p.embed(RowEmbedText(rows[k])) == Ok(r.value[k].embedding) &&
        |r.value[k].embedding| == dim
  {
    if rows == [] then Ok([])
    else
      match Reembedded(rows[..|rows| - 1], p, dim)
      case Err(e) => Err(e)
      case Ok(vs) =>
        var last := rows[|rows| - 1];
        match p.embed(RowEmbedText(last))
        case Err(e) => Err(e)
        case Ok(v) => if |v| != dim then Err(VectorWidth(dim, |v|)) else Ok(vs + [VecRow(last.rowid, v)])
  }

  /** A failure on some prefix of the records aborts the whole rebuild. */
  lemma {:induction false} ReembeddedAborts(rows: seq<Row>, n: nat, p: Provider, dim: nat)
    requires n <= |rows| && Reembedded(rows[..n], p, dim).Err?
    ensures Reembedded(rows, p, dim).Err?
    decreases |rows|
  {
    if n < |rows| {
      var init := rows[..|rows| - 1];
      assert init[..n] == rows[..n];
      ReembeddedAborts(init, n, p, dim);
    } else {
      assert rows[..n] == rows;
    }
  }

  /** One more record extends a successful rebuild with its vector, or makes it fail. */
  lemma ReembeddedStep(rows: seq<Row>, i: nat, p: Provider, dim: nat)
    requires i < |rows| && Reembedded(rows[..i], p, dim).Ok?
    ensures var e := p.embed(RowEmbedText(rows[i]));
      (e.Err? || |e.value| != dim ==> Reembedded(rows[..i + 1], p, dim).Err?) &&
      (e.Ok? && |e.value| == dim ==>
         Reembedded(rows[..i + 1], p, dim) == Ok(Reembedded(rows[..i], p, dim).value + [VecRow(rows[i].rowid, e.value)]))
  {
    assert rows[..i + 1][..i] == rows[..i] && rows[..i + 1][i] == rows[i];
  }

  /** With increasing rowids, the next record's rowid is not yet among the rebuilt vectors. */
  lemma ReembeddedFresh(rows: seq<Row>, i: nat, p: Provider, dim: nat)
    requires i < |rows| && Reembedded(rows[..i], p, dim).Ok?
    requires forall a, b :: 0 <= a < b < |rows| ==> rows[a].rowid < rows[b].rowid
    ensures forall k :: 0 <= k < |Reembedded(rows[..i], p, dim).value| ==>
      Reembedded(rows[..i], p, dim).value[k].rowid != rows[i].rowid
  {
    var vs := Reembedded(rows[..i], p, dim).value;
    forall k | 0 <= k < |vs| ensures vs[k].rowid != rows[i].rowid {
      assert vs[k].rowid == rows[..i][k].rowid == rows[k].rowid;
    }
  }

  /** What `save` reports. */
  datatype Action = Created | Updated
  datatype SaveResult = SaveResult(id: string, filePath: string, action: Action)

  /** What `reindex` reports. */
  datatype ReindexReport = ReindexReport(count: nat, dim: nat, model: string)

  const ProbeText: string := "dimension probe"

  // ---------------------------------------------------------------- search routing

  /**
   * `MemoryService.search`: keyword-only hybrid search when vectors are not wanted;
   * tiered search with the provider when vectors are available and the provider can
   * be built, falling back to provider-less tiered search on any error.
   */
  function RoutedSearch(db: MemoryDB, provider: Result<Provider, Error>, available: bool, useVectors: bool,
                        query: string, limit: int, project: Option<string>, source: Option<string>): Result<seq<Hit>, Error>
    reads db
  {
    if !useVectors then HybridOutcome(db, None, query, limit, project, source)
    else if available && provider.Ok? then
      var t := TieredOutcome(db, Some(provider.value), query, limit, MinFtsResults, project, source);
      if t.Ok? then t else TieredOutcome(db, None, query, limit, MinFtsResults, project, source)
    else TieredOutcome(db, None, query, limit, MinFtsResults, project, source)
  }

  /**
   * Search fails only on a keyword syntax error, never with DimensionMismatchError, and
   * otherwise returns at most `limit` hits, best first.
   */
  lemma RoutedSearchShape(db: MemoryDB, provider: Result<Provider, Error>, available: bool, useVectors: bool,
                          query: string, limit: int, project: Option<string>, source: Option<string>)
    ensures var r := RoutedSearch(db, provider, available, useVectors, query, limit, project, source);
      (r.Err? <==> db.FtsSearch(query, limit * 2, project, source).Err?) &&
      (r.Err? ==> r.error.FtsSyntax?) &&
      (r.Ok? ==> Seqs.Sorted(r.value, ScoreDesc) && (limit >= 0 ==> |r.value| <= limit))
  {
    TieredShape(db, None, query, limit, MinFtsResults, project, source);
    NoProviderAgrees(db, query, limit, MinFtsResults, project, source);
    if provider.Ok? {
      TieredShape(db, Some(provider.value), query, limit, MinFtsResults, project, source);
    }
  }

  // ---------------------------------------------------------------- the service

  class MemoryService {
    const db: MemoryDB
    const config: Config
    const clients: Clients
    /** The redaction function and the patterns `.memoryignore` yields. */
    const redact: (string, seq<string>) -> string
    const ignoreFile: seq<string>
    /** Where the markdown vault lives. */
    const vaultDir: string

    var embeddingProvider: Option<Provider>
    var ignorePatterns: Option<seq<string>>
    var vectorsAvailable: Option<bool>

    /** The store is consistent and a filled cache holds what filling it again would give. */
    ghost predicate Valid()
      reads this, db
    {
      db.Valid() &&
      (embeddingProvider.Some? ==> CreateProvider(config, clients) == Ok(embeddingProvider.value)) &&
      (ignorePatterns.Some? ==> ignorePatterns.value == ignoreFile)
    }

    /** The vector side of the store together with the availability cache. */
    ghost function VecState(): VecSide
      reads this, db
    {
      VecSide(DimState(db.meta, db.vecTable), db.vectors, vectorsAvailable)
    }

    /**
     * The provider and availability caches after `search(…, use_vectors)`: with vectors
     * wanted, availability is asked for (and cached), and the provider is built (and
     * cached) only when vectors are available.
     */
    ghost function SearchCaches(useVectors: bool): (Option<Provider>, Option<bool>)
      reads this, db
    {
      if !useVectors then (embeddingProvider, vectorsAvailable)
      else
        var available := if vectorsAvailable.Some? then vectorsAvailable.value else db.HasVecTable();
        var p := CreateProvider(config, clients);
        (if available && p.Ok? then Some(p.value) else embeddingProvider, Some(available))
    }

    constructor (db: MemoryDB, config: Config, clients: Clients, redact: (string, seq<string>) -> string,
                 ignoreFile: seq<string>, vaultDir: string)
      requires db.Valid()
      ensures Valid()
      ensures this.db == db && this.config == config && this.clients == clients
      ensures this.redact == redact && this.ignoreFile == ignoreFile && this.vaultDir == vaultDir
      ensures embeddingProvider == None && ignorePatterns == None && vectorsAvailable == None
    {
      this.db := db;
      this.config := config;
      this.clients := clients;
      this.redact := redact;
      this.ignoreFile := ignoreFile;
      this.vaultDir := vaultDir;
      embeddingProvider := None;
      ignorePatterns := None;
      vectorsAvailable := None;
    }

    /** The `embedding_provider` property: built on first use, then cached. */
    method GetEmbeddingProvider() returns (r: Result<Provider, Error>)
      requires Valid()
      modifies this
      ensures Valid()
      ensures r == CreateProvider(config, clients)
      ensures embeddingProvider == (if r.Ok? then Some(r.value) else old(embeddingProvider))
      ensures ignorePatterns == old(ignorePatterns) && vectorsAvailable == old(vectorsAvailable)
    {
      if embeddingProvider.Some? {
        return Ok(embeddingProvider.value);
      }
      r := CreateProvider(config, clients);
      if r.Ok? {
        embeddingProvider := Some(r.value);
      }
    }

    /** The `ignore_patterns` property. */
    method GetIgnorePatterns() returns (p: seq<string>)
      requires Valid()
      modifies this
      ensures Valid()
      ensures p == ignoreFile && ignorePatterns == Some(ignoreFile)
      ensures embeddingProvider == old(embeddingProvider) && vectorsAvailable == old(vectorsAvailable)
    {
      if ignorePatterns.None? {
        ignorePatterns := Some(ignoreFile);
      }
      p := ignorePatterns.value;
    }

    /** The `vectors_available` property: whether the vec table exists, asked once and cached. */
    method GetVectorsAvailable() returns (b: bool)
      requires Valid()
      modifies this
      ensures Valid()
      ensures b == (if old(vectorsAvailable).Some? then old(vectorsAvailable).value else db.HasVecTable())
      ensures vectorsAvailable == Some(b)
      ensures embeddingProvider == old(embeddingProvider) && ignorePatterns == old(ignorePatterns)
    {
      if vectorsAvailable.None? {
        vectorsAvailable := Some(db.HasVecTable());
      }
      b := vectorsAvailable.value;
    }

    /**
     * `_ensure_vectors`: true and the cache set to true when the vec table fits the
     * embedding's width; false and the cache set to false on DimensionMismatchError;
     * any other error passes through with the cache untouched.
     */
    method EnsureVectors(embedding: seq<real>) returns (r: Result<bool, Error>)
      requires Valid()
      modifies this, db
      ensures Valid()
      ensures var e := EnsureVec(old(DimState(db.meta, db.vecTable)), |embedding|);
        DimState(db.meta, db.vecTable) == e.1 &&
        r == (if e.0.Ok? then Ok(true) else if e.0.error.DimensionMismatch? then Ok(false) else Err(e.0.error))
      ensures vectorsAvailable == (if r.Ok? then Some(r.value) else old(vectorsAvailable))
      ensures db.vectors == old(db.vectors)
      ensures db.memories == old(db.memories) && db.nextRowid == old(db.nextRowid)
      ensures db.details == old(db.details) && db.fts == old(db.fts)
      ensures embeddingProvider == old(embeddingProvider) && ignorePatterns == old(ignorePatterns)
    {
      var e := db.EnsureVecTable(|embedding|);
      match e
      case Ok(_) =>
        vectorsAvailable := Some(true);
        r := Ok(true);
      case Err(err) =>
        if err.DimensionMismatch? {
          vectorsAvailable := Some(false);
          r := Ok(false);
        } else {
          r := Err(err);
        }
    }

    /**
     * The embedding step of both `save` paths, every failure swallowed: build the
     * provider, embed, make sure the vec table fits, then store the vector under
     * `rowid`. The vector side ends as `EmbedStep` says.
     */
    method EmbedAndStore(text: string, rowid: Option<int>)
      requires Valid()
      modifies this, db
      ensures Valid()
      ensures VecState() == EmbedStep(CreateProvider(config, clients), text, rowid, old(VecState()))
      ensures embeddingProvider == CachedProvider(CreateProvider(config, clients))
      ensures db.memories == old(db.memories) && db.nextRowid == old(db.nextRowid)
      ensures db.details == old(db.details) && db.fts == old(db.fts)
      ensures ignorePatterns == old(ignorePatterns)
    {
      var p := GetEmbeddingProvider();
      if p.Err? {
        return;
      }
      var embedding := p.value.embed(text);
      if embedding.Err? {
        return;
      }
      var ready := EnsureVectors(embedding.value);
      if ready.Err? || !ready.value || rowid.None? {
        return;
      }
      var stored := db.InsertVector(rowid.value, embedding.value);
    }

    /**
     * `save`: redact; look for a duplicate in the project; update it, or create a new
     * record. The embedding step never makes `save` fail; on the create path only a
     * clash with an existing id does.
     */
    method Save(raw: RawMemoryInput, project: Option<string>, cwdName: string, today: string, now: string,
                newId: string) returns (r: Result<SaveResult, Error>)
      requires Valid()
      modifies this, db
      ensures Valid()
      ensures var proj := ProjectName(project, cwdName);
        var red := Redacted(raw, redact, ignoreFile);
        var target := DedupTarget(old(db.memories), old(db.details), old(db.fts), db.engine, red, proj);
        target.Some? ==>
          var top := target.value.row.mem;
          var i := old(db.ResolvePrefix(top.id));
          r == Ok(SaveResult(top.id, top.filePath, Updated)) && i.Some? &&
          db.memories == old(db.memories)[i.value := Patched(old(db.memories)[i.value], Some(red.what), red.why, red.impact,
                                                             Some(MergedTags(top.tags, red.tags)), now)] &&
          db.details == (if Truthy(red.details)
                         then AppendDetail(old(db.details), old(db.memories)[i.value].mem.id, UpdateNote(today, red.details).value)
                         else old(db.details)) &&
          db.fts == old(db.fts)[db.memories[i.value].rowid := DocOf(db.memories[i.value].mem)] &&
          db.nextRowid == old(db.nextRowid) &&
          VecState() == EmbedStep(CreateProvider(config, clients),
                                  EmbedText(top.title, red.what, red.why, red.impact, MergedTags(top.tags, red.tags)),
                                  Some(target.value.row.rowid), old(VecState())) &&
          embeddingProvider == CachedProvider(CreateProvider(config, clients))
      ensures var proj := ProjectName(project, cwdName);
        var red := Redacted(raw, redact, ignoreFile);
        var path := SessionPath(vaultDir, proj, today);
        DedupTarget(old(db.memories), old(db.details), old(db.fts), db.engine, red, proj).None? ==>
          (r.Err? <==> LookupRecord(old(db.memories), old(db.details), newId).Some?) &&
          (r.Err? ==> r.error == DuplicateId(newId) && db.memories == old(db.memories)) &&
          (r.Ok? ==>
            r.value == SaveResult(newId, path, Created) &&
            db.memories == old(db.memories) + [Row(old(db.nextRowid), FromRaw(red, proj, path, newId, now), 0)] &&
            db.details == AddDetail(old(db.details), newId, red.details))
      ensures var proj := ProjectName(project, cwdName);
        var red := Redacted(raw, redact, ignoreFile);
        var path := SessionPath(vaultDir, proj, today);
        DedupTarget(old(db.memories), old(db.details), old(db.fts), db.engine, red, proj).None? ==>
          (r.Err? ==>
            db.details == old(db.details) && db.fts == old(db.fts) && db.nextRowid == old(db.nextRowid) &&
            VecState() == old(VecState()) && embeddingProvider == old(embeddingProvider)) &&
          (r.Ok? ==>
            db.nextRowid == old(db.nextRowid) + 1 &&
            db.fts == old(db.fts)[old(db.nextRowid) := DocOf(FromRaw(red, proj, path, newId, now))] &&
            VecState() == EmbedStep(CreateProvider(config, clients),
                                    EmbedText(red.title, red.what, red.why, red.impact, red.tags),
                                    Some(old(db.nextRowid)), old(VecState())) &&
            embeddingProvider == CachedProvider(CreateProvider(config, clients)))
      ensures ignorePatterns == Some(ignoreFile)
    {
      var proj := ProjectName(project, cwdName);
      var patterns := GetIgnorePatterns();
      var red := Redacted(raw, redact, patterns);
      var target := FindDedupTarget(red, proj);
      if target.Some? {
        DedupTargetIs(db.memories, db.details, db.fts, db.engine, red, proj);
        r := UpdateExisting(target.value, red, today, now);
      } else {
        r := CreateNew(red, proj, today, now, newId);
      }
    }

    /** The keyword probe of `save`: the hit to update, if there is one. */
    method FindDedupTarget(red: RawMemoryInput, proj: string) returns (target: Option<Hit>)
      ensures target == DedupTarget(db.memories, db.details, db.fts, db.engine, red, proj)
    {
      var q := DedupQuery(red);
      var probe := db.FtsSearch(q, DedupProbeLimit, Some(proj), None);
      var candidates := Candidates(probe);
      target := None;
      if candidates != [] {
        var broad := db.FtsSearch(q, DedupProbeLimit, None, None);
        var score := TopScore(candidates, broad);
        var top := candidates[0];
        if score >= DedupThreshold && TitlesMatch(red.title, top.row.mem.title) {
          target := Some(top);
        }
      }
    }

    /** The update path of `save`: patch the duplicate, merge its tags, append the dated note, and re-embed it. */
    method UpdateExisting(top: Hit, red: RawMemoryInput, today: string, now: string) returns (r: Result<SaveResult, Error>)
      requires Valid()
      requires top.row in db.memories
      modifies this, db
      ensures Valid()
      ensures var i := old(db.ResolvePrefix(top.row.mem.id));
        r == Ok(SaveResult(top.row.mem.id, top.row.mem.filePath, Updated)) && i.Some? &&
        db.memories == old(db.memories)[i.value := Patched(old(db.memories)[i.value], Some(red.what), red.why, red.impact,
                                                           Some(MergedTags(top.row.mem.tags, red.tags)), now)] &&
        db.details == (if Truthy(red.details)
                       then AppendDetail(old(db.details), old(db.memories)[i.value].mem.id, UpdateNote(today, red.details).value)
                       else old(db.details)) &&
        db.fts == old(db.fts)[db.memories[i.value].rowid := DocOf(db.memories[i.value].mem)]
      ensures db.nextRowid == old(db.nextRowid)
      ensures VecState() ==
        EmbedStep(CreateProvider(config, clients),
                  EmbedText(top.row.mem.title, red.what, red.why, red.impact, MergedTags(top.row.mem.tags, red.tags)),
                  Some(top.row.rowid), old(VecState()))
      ensures embeddingProvider == CachedProvider(CreateProvider(config, clients))
      ensures ignorePatterns == old(ignorePatterns)
    {
      var existingId := top.row.mem.id;
      var mergedTags := MergeTags(top.row.mem.tags, red.tags);
      var note := UpdateNote(today, red.details);
      SelfPrefix(existingId);
      assert db.ResolvePrefix(existingId).Some? by {
        var k :| 0 <= k < |db.memories| && db.memories[k] == top.row;
      }
      ghost var k :| 0 <= k < |db.memories| && db.memories[k] == top.row;
      ghost var rows0 := db.memories;
      var found := db.UpdateMemory(existingId, Some(red.what), red.why, red.impact, Some(mergedTags), note, now);
      var rec := db.GetMemory(existingId);
      ghost var i := old(db.ResolvePrefix(existingId)).value;
      PatchedKeepsRowid(rows0, db.details, db.nextRowid, i, db.memories[i], k);
      var text := EmbedText(top.row.mem.title, red.what, red.why, red.impact, mergedTags);
      // The rowid lookup reads only `memories`, which the embedding step leaves alone.
      EmbedAndStore(text, if rec.Some? then Some(rec.value.row.rowid) else None);
      r := Ok(SaveResult(existingId, top.row.mem.filePath, Updated));
    }

    /** The create path of `save`: insert a new record filed under today's session note, then embed it. */
    method CreateNew(red: RawMemoryInput, proj: string, today: string, now: string, newId: string)
      returns (r: Result<SaveResult, Error>)
      requires Valid()
      modifies this, db
      ensures Valid()
      ensures var path := SessionPath(vaultDir, proj, today);
        (r.Err? <==> LookupRecord(old(db.memories), old(db.details), newId).Some?) &&
        (r.Err? ==> r.error == DuplicateId(newId) && db.memories == old(db.memories)) &&
        (r.Ok? ==>
          r.value == SaveResult(newId, path, Created) &&
          db.memories == old(db.memories) + [Row(old(db.nextRowid), FromRaw(red, proj, path, newId, now), 0)] &&
          db.details == AddDetail(old(db.details), newId, red.details))
      ensures r.Err? ==>
        db.details == old(db.details) && db.fts == old(db.fts) && db.nextRowid == old(db.nextRowid) &&
        VecState() == old(VecState()) && embeddingProvider == old(embeddingProvider)
      ensures r.Ok? ==>
        var path := SessionPath(vaultDir, proj, today);
        db.nextRowid == old(db.nextRowid) + 1 &&
        db.fts == old(db.fts)[old(db.nextRowid) := DocOf(FromRaw(red, proj, path, newId, now))] &&
        VecState() == EmbedStep(CreateProvider(config, clients),
                                EmbedText(red.title, red.what, red.why, red.impact, red.tags),
                                Some(old(db.nextRowid)), old(VecState())) &&
        embeddingProvider == CachedProvider(CreateProvider(config, clients))
      ensures ignorePatterns == old(ignorePatterns)
    {
      var path := SessionPath(vaultDir, proj, today);
      var mem := FromRaw(red, proj, path, newId, now);
      var inserted := db.InsertMemory(mem, red.details);
      if inserted.Err? {
        return Err(inserted.error);
      }
      EmbedAndStore(EmbedText(mem.title, mem.what, mem.why, mem.impact, mem.tags), Some(inserted.value));
      r := Ok(SaveResult(newId, path, Created));
    }

    /**
     * `search`. Its handler for DimensionMismatchError, which would clear the cache,
     * never runs: tiered search lets only keyword syntax errors escape, so every
     * failure of the vector-backed attempt falls through to keyword-only search.
     */
    method Search(query: string, limit: int, project: Option<string>, source: Option<string>, useVectors: bool)
      returns (r: Result<seq<Hit>, Error>)
      requires Valid()
      modifies this
      ensures Valid()
      ensures r == RoutedSearch(db, CreateProvider(config, clients),
                                if old(vectorsAvailable).Some? then old(vectorsAvailable).value else db.HasVecTable(),
                                useVectors, query, limit, project, source)
      ensures (embeddingProvider, vectorsAvailable) == old(SearchCaches(useVectors))
      ensures ignorePatterns == old(ignorePatterns)
    {
      if !useVectors {
        r := HybridSearch(db, None, query, limit, project, source);
        return;
      }
      var available := GetVectorsAvailable();
      if available {
        var p := GetEmbeddingProvider();
        if p.Ok? {
          var t := TieredSearch(db, Some(p.value), query, limit, MinFtsResults, project, source);
          if t.Ok? {
            return t;
          }
          TieredShape(db, Some(p.value), query, limit, MinFtsResults, project, source);
          assert t.error.FtsSyntax?;
        }
      }
      r := TieredSearch(db, None, query, limit, MinFtsResults, project, source);
    }

    /**
     * `get_context`: the unlimited count, and either the recent listing or the search
     * results topped up with recent records.
     */
    method GetContext(limit: int, project: Option<string>, source: Option<string>, query: Option<string>,
                      mode: Setting, topup: Option<bool>, warm: bool)
      returns (r: Result<(seq<ContextItem>, nat), Error>)
      requires Valid()
      modifies this
      ensures Valid()
      ensures r.Ok? ==> r.value.1 == db.CountMemories(project, source)
      ensures !Truthy(query) ==> r == Ok((RecentItems(db.ListRecent(limit, project, source)), db.CountMemories(project, source)))
      ensures Truthy(query) ==>
        var useVectors := ShouldUseSemantic(SemanticMode(mode, config.semantic), config.provider, warm);
        var found := RoutedSearch(db, CreateProvider(config, clients),
                                  if old(vectorsAvailable).Some? then old(vectorsAvailable).value else db.HasVecTable(),
                                  useVectors, query.value, limit, project, source);
        var doTopUp := if topup.Some? then topup.value else config.topupRecent;
        (r.Err? <==> found.Err?) &&
        (r.Ok? ==>
          r.value.0 ==
          if doTopUp && |found.value| < limit
          then TopUp(HitItems(found.value), db.ListRecent(limit, project, source), Ids(found.value), limit)
          else HitItems(found.value))
      ensures (embeddingProvider, vectorsAvailable) ==
        if Truthy(query) then old(SearchCaches(ShouldUseSemantic(SemanticMode(mode, config.semantic), config.provider, warm)))
        else old((embeddingProvider, vectorsAvailable))
      ensures ignorePatterns == old(ignorePatterns)
    {
      var total := db.CountMemories(project, source);
      var m := SemanticMode(mode, config.semantic);
      var doTopUp := if topup.Some? then topup.value else config.topupRecent;
      if !Truthy(query) {
        return Ok((RecentItems(db.ListRecent(limit, project, source)), total));
      }
      var useVectors := ShouldUseSemantic(m, config.provider, warm);
      var items := SearchItems(query.value, limit, project, source, useVectors, doTopUp);
      if items.Err? {
        return Err(items.error);
      }
      r := Ok((items.value, total));
    }

    /** The query half of `get_context`: search, then top up with recent records when asked to. */
    method SearchItems(query: string, limit: int, project: Option<string>, source: Option<string>,
                       useVectors: bool, doTopUp: bool) returns (r: Result<seq<ContextItem>, Error>)
      requires Valid()
      modifies this
      ensures Valid()
      ensures var found := RoutedSearch(db, CreateProvider(config, clients),
                                        if old(vectorsAvailable).Some? then old(vectorsAvailable).value else db.HasVecTable(),
                                        useVectors, query, limit, project, source);
        (r.Err? <==> found.Err?) &&
        (r.Ok? ==>
          r.value ==
          if doTopUp && |found.value| < limit
          then TopUp(HitItems(found.value), db.ListRecent(limit, project, source), Ids(found.value), limit)
          else HitItems(found.value))
      ensures (embeddingProvider, vectorsAvailable) == old(SearchCaches(useVectors))
      ensures ignorePatterns == old(ignorePatterns)
    {
      var found := Search(query, limit, project, source, useVectors);
      if found.Err? {
        return Err(found.error);
      }
      var results := HitItems(found.value);
      if doTopUp && |results| < limit {
        var recent := db.ListRecent(limit, project, source);
        var seen := Ids(found.value);
        results := TopUpLoop(results, recent, seen, limit);
      }
      r := Ok(results);
    }

    /**
     * `reindex`: probe the provider for the width, rebuild the vec table at that width,
     * and re-embed every record in rowid order, reporting progress after each.
     */
    method Reindex() returns (r: Result<ReindexReport, Error>, progress: seq<(nat, nat)>)
      requires Valid()
      modifies this, db
      ensures Valid()
      ensures db.memories == old(db.memories) && db.details == old(db.details) && db.fts == old(db.fts)
      ensures |progress| <= |old(db.memories)| && progress == Progress(|progress|, |old(db.memories)|)
      ensures var p := CreateProvider(config, clients);
        (r.Ok? <==>
          p.Ok? && p.value.embed(ProbeText).Ok? &&
          Reembedded(old(db.memories), p.value, |p.value.embed(ProbeText).value|).Ok?)
      ensures r.Ok? ==>
        var p := CreateProvider(config, clients).value;
        var dim := |p.embed(ProbeText).value|;
        CreateProvider(config, clients).Ok? && p.embed(ProbeText).Ok? &&
        r.value == ReindexReport(|old(db.memories)|, dim, config.model) &&
        progress == Progress(|old(db.memories)|, |old(db.memories)|) &&
        Reembedded(old(db.memories), p, dim) == Ok(db.vectors) &&
        db.vecTable == Some(dim) && db.GetEmbeddingDim() == Ok(Some(dim)) &&
        vectorsAvailable == Some(true)
      ensures var p := CreateProvider(config, clients);
        p.Err? || p.value.embed(ProbeText).Err? ==>
          db.vecTable == old(db.vecTable) && db.vectors == old(db.vectors) && db.meta == old(db.meta)
      ensures var p := CreateProvider(config, clients);
        p.Ok? && p.value.embed(ProbeText).Ok? ==>
          var dim := |p.value.embed(ProbeText).value|;
          db.vecTable == Some(dim) && db.meta == old(db.meta)[EmbeddingDimKey := NatToString(dim)]
      ensures var p := CreateProvider(config, clients);
        p.Ok? && p.value.embed(ProbeText).Ok? && r.Err? ==>
          var dim := |p.value.embed(ProbeText).value|;
          |progress| < |old(db.memories)| &&
          Reembedded(old(db.memories)[..|progress|], p.value, dim) == Ok(db.vectors)
      ensures r.Err? ==> vectorsAvailable == old(vectorsAvailable)
      ensures db.nextRowid == old(db.nextRowid)
      ensures embeddingProvider == CachedProvider(CreateProvider(config, clients))
      ensures ignorePatterns == old(ignorePatterns)
    {
      progress := [];
      var p := GetEmbeddingProvider();
      if p.Err? {
        return Err(p.error), progress;
      }
      var probe := p.value.embed(ProbeText);
      if probe.Err? {
        return Err(probe.error), progress;
      }
      var dim := |probe.value|;
      var rows := db.ListAllForReindex();
      var stored;
      stored, progress := RebuildVectors(db, p.value, dim);
      if stored.Err? {
        return Err(stored.error), progress;
      }
      var total := |rows|;
      vectorsAvailable := Some(true);
      r := Ok(ReindexReport(total, dim, config.model));
      StoredDimRoundTrip(old(db.meta), dim);
    }
  }

  /**
   * The rebuild of `reindex` at width `dim`: drop the vec table, record the width,
   * recreate the table, then re-embed every record.
   */
  method RebuildVectors(db: MemoryDB, p: Provider, dim: nat) returns (r: Result<(), Error>, progress: seq<(nat, nat)>)
    requires db.Valid()
    modifies db
    ensures db.Valid()
    ensures db.memories == old(db.memories) && db.nextRowid == old(db.nextRowid)
    ensures db.details == old(db.details) && db.fts == old(db.fts)
    ensures db.meta == old(db.meta)[EmbeddingDimKey := NatToString(dim)] && db.vecTable == Some(dim)
    ensures |progress| <= |db.memories| && progress == Progress(|progress|, |db.memories|)
    ensures r.Ok? <==> Reembedded(db.memories, p, dim).Ok?
    ensures r.Ok? ==> Reembedded(db.memories, p, dim) == Ok(db.vectors) && |progress| == |db.memories|
    ensures r.Err? ==> |progress| < |db.memories| && Reembedded(db.memories[..|progress|], p, dim) == Ok(db.vectors)
  {
    db.DropVecTable();
    db.SetEmbeddingDim(dim);
    db.CreateVecTable(dim);
    r, progress := ReembedAll(db, p, dim);
  }

  /** One step of the `reindex` loop: embed record `i` and store its vector under its rowid. */
  method ReembedOne(db: MemoryDB, p: Provider, dim: nat, rows: seq<Row>, i: nat) returns (r: Result<(), Error>)
    requires db.Valid() && db.memories == rows && db.vecTable == Some(dim)
    requires i < |rows| && Reembedded(rows[..i], p, dim) == Ok(db.vectors)
    modifies db
    ensures db.Valid()
    ensures db.memories == old(db.memories) && db.nextRowid == old(db.nextRowid)
    ensures db.details == old(db.details) && db.fts == old(db.fts)
    ensures db.meta == old(db.meta) && db.vecTable == old(db.vecTable)
    ensures r.Ok? <==> Reembedded(rows[..i + 1], p, dim).Ok?
    ensures r.Ok? ==> Reembedded(rows[..i + 1], p, dim) == Ok(db.vectors)
    ensures r.Err? ==> db.vectors == old(db.vectors)
  {
    var embedding := p.embed(RowEmbedText(rows[i]));
    ReembeddedStep(rows, i, p, dim);
    if embedding.Err? {
      return Err(embedding.error);
    }
    ReembeddedFresh(rows, i, p, dim);
    r := db.InsertVector(rows[i].rowid, embedding.value);
  }

  /**
   * The loop of `reindex` over a freshly created, empty vec table: embed each record in
   * rowid order, store its vector, report progress; the first error aborts.
   */
  method ReembedAll(db: MemoryDB, p: Provider, dim: nat) returns (r: Result<(), Error>, progress: seq<(nat, nat)>)
    requires db.Valid() && db.vecTable == Some(dim) && db.vectors == []
    modifies db
    ensures db.Valid()
    ensures db.memories == old(db.memories) && db.nextRowid == old(db.nextRowid)
    ensures db.details == old(db.details) && db.fts == old(db.fts)
    ensures db.meta == old(db.meta) && db.vecTable == old(db.vecTable)
    ensures |progress| <= |db.memories| && progress == Progress(|progress|, |db.memories|)
    ensures r.Ok? <==> Reembedded(db.memories, p, dim).Ok?
    ensures r.Ok? ==> Reembedded(db.memories, p, dim) == Ok(db.vectors) && |progress| == |db.memories|
    ensures r.Err? ==> |progress| < |db.memories| && Reembedded(db.memories[..|progress|], p, dim) == Ok(db.vectors)
  {
    var rows := db.ListAllForReindex();
    var total := |rows|;
    progress := [];
    r := Ok(());
    var i := 0;
    while i < |rows|
      invariant 0 <= i <= |rows|
      invariant db.Valid()
      invariant db.memories == rows && db.nextRowid == old(db.nextRowid)
      invariant db.details == old(db.details) && db.fts == old(db.fts)
      invariant db.meta == old(db.meta) && db.vecTable == Some(dim)
      invariant Reembedded(rows[..i], p, dim) == Ok(db.vectors)
      invariant progress == Progress(i, total)
    {
      var step := ReembedOne(db, p, dim, rows, i);
      if step.Err? {
        ReembeddedAborts(rows, i + 1, p, dim);
        r := step;
        break;
      }
      progress := progress + [(i + 1, total)];
      i := i + 1;
    }
    if r.Ok? {
      assert rows[..i] == rows;
    }
  }

  function RecentItems(ps: seq<Pointer>): (r: seq<ContextItem>)
    ensures |r| == |ps| && forall k :: 0 <= k < |ps| ==> r[k] == Recent(ps[k])
  {
    if ps == [] then [] else RecentItems(ps[..|ps| - 1]) + [Recent(ps[|ps| - 1])]
  }

  lemma SelfPrefix(id: string)
    ensures IsPrefix(id, id)
  {
  }
}

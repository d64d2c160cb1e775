/**
 * Hybrid search: per-list score normalisation, the weighted merge of keyword and
 * vector hits by memory id, and the two search strategies built on the store.
 */
module Search {
  import opened Wrappers
  import opened Errors
  import Seqs
  import opened Store

  /** The default weights of `merge_results` and the default `min_fts_results`. */
  const FtsWeight: real := 0.3
  const VecWeight: real := 0.7
  const MinFtsResults: int := 3

  /**
   * An embedding provider: `embed` vectorises a stored text, `search` a query. Each
   * either returns a vector or fails (network, HTTP status, payload).
   */
  datatype Provider = Provider(
    embed: string -> Result<seq<real>, Error>,
    search: string -> Result<seq<real>, Error>)

  /** A weight times a score. */
  function Weigh(w: real, s: real): real
  {
    w * s
  }

  function IdOf(h: Hit): string
  {
    h.row.mem.id
  }

  function Ids(hits: seq<Hit>): set<string>
  {
    set h | h in hits :: IdOf(h)
  }

  predicate UniqueIds(hits: seq<Hit>)
  {
    Seqs.DistinctBy(hits, IdOf)
  }

  // ---------------------------------------------------------------- normalisation

  function MaxScore(hits: seq<Hit>): (m: real)
    requires hits != []
    ensures forall k :: 0 <= k < |hits| ==> hits[k].score <= m
    ensures exists k :: 0 <= k < |hits| && hits[k].score == m
  {
    if |hits| == 1 then hits[0].score
    else
      var m0 := MaxScore(hits[..|hits| - 1]);
      var last := hits[|hits| - 1].score;
      assert forall k :: 0 <= k < |hits| - 1 ==> hits[k] == hits[..|hits| - 1][k];
      if m0 >= last then m0 else last
  }

  /** `max(r["score"] for r in hits) or 1.0`. */
  function Divisor(hits: seq<Hit>): real
  {
    if hits == [] then 1.0
    else if MaxScore(hits) == 0.0 then 1.0
    else MaxScore(hits)
  }

  function Quotient(a: real, d: real): real
    requires d != 0.0
  {
    a / d
  }

  /** `score / d if d > 0 else 0.0`. */
  function ScaleHit(h: Hit, d: real): Hit
  {
    h.(score := if d > 0.0 then Quotient(h.score, d) else 0.0)
  }

  function Scaled(hits: seq<Hit>, d: real): (r: seq<Hit>)
    ensures |r| == |hits|
    ensures forall k :: 0 <= k < |hits| ==> r[k] == ScaleHit(hits[k], d)
  {
    if hits == [] then [] else Scaled(hits[..|hits| - 1], d) + [ScaleHit(hits[|hits| - 1], d)]
  }

  /** Every hit's score divided by the list's maximum (see `Divisor`), other fields untouched. */
  function Normalized(hits: seq<Hit>): (r: seq<Hit>)
    ensures |r| == |hits|
    ensures forall k :: 0 <= k < |hits| ==> r[k].row == hits[k].row && r[k].hasDetails == hits[k].hasDetails
  {
    Scaled(hits, Divisor(hits))
  }

  /** The largest score is the one every score is at most and some score equals. */
  lemma MaxScoreIs(hits: seq<Hit>, v: real)
    requires hits != []
    requires forall k :: 0 <= k < |hits| ==> hits[k].score <= v
    requires exists k :: 0 <= k < |hits| && hits[k].score == v
    ensures MaxScore(hits) == v
  {
    var k :| 0 <= k < |hits| && hits[k].score == v;
    assert hits[k].score <= MaxScore(hits);
  }

  /** Dividing scores in [0, m] by a positive `m` puts them in [0, 1]. */
  lemma ScaledBounds(hits: seq<Hit>, m: real)
    requires m > 0.0
    requires forall k :: 0 <= k < |hits| ==> 0.0 <= hits[k].score <= m
    ensures forall k :: 0 <= k < |hits| ==> 0.0 <= Scaled(hits, m)[k].score <= 1.0
  {
    var n := Scaled(hits, m);
    forall k | 0 <= k < |hits| ensures 0.0 <= n[k].score <= 1.0 {
      DivAtMostOne(hits[k].score, m);
    }
  }

  /** Dividing by 1 changes nothing. */
  lemma ScaledByOne(hits: seq<Hit>)
    ensures Scaled(hits, 1.0) == hits
  {
    var n := Scaled(hits, 1.0);
    forall k | 0 <= k < |hits| ensures n[k] == hits[k] {
      assert Quotient(hits[k].score, 1.0) == hits[k].score;
    }
  }

  /**
   * With non-negative scores, normalised scores lie in [0, 1], the best becomes 1 when
   * any score is positive, and a list of zeros stays as it is.
   */
  lemma NormalizedBounds(hits: seq<Hit>)
    requires forall k :: 0 <= k < |hits| ==> hits[k].score >= 0.0
    ensures forall k :: 0 <= k < |hits| ==> 0.0 <= Normalized(hits)[k].score <= 1.0
    ensures (exists k :: 0 <= k < |hits| && hits[k].score > 0.0) ==>
      exists k :: 0 <= k < |hits| && Normalized(hits)[k].score == 1.0
    ensures (forall k :: 0 <= k < |hits| ==> hits[k].score == 0.0) ==> Normalized(hits) == hits
  {
    if hits != [] {
      var m := MaxScore(hits);
      var j :| 0 <= j < |hits| && hits[j].score == m;
      if m > 0.0 {
        ScaledBounds(hits, m);
        assert Normalized(hits) == Scaled(hits, m);
        assert Scaled(hits, m)[j] == ScaleHit(hits[j], m);
        DivSelf(m);
      } else {
        assert Normalized(hits) == Scaled(hits, 1.0);
        ScaledByOne(hits);
      }
    }
  }

  lemma DivAtMostOne(a: real, m: real)
    requires 0.0 <= a <= m && m > 0.0
    ensures 0.0 <= Quotient(a, m) <= 1.0
  {
  }

  lemma DivSelf(m: real)
    requires m != 0.0
    ensures Quotient(m, m) == 1.0
  {
  }

  lemma DivMonotone(a: real, b: real, d: real)
    requires a >= b && d > 0.0
    ensures Quotient(a, d) >= Quotient(b, d)
  {
    assert a / d - b / d == (a - b) / d;
  }

  /** Normalising a normalised list changes nothing, whatever the signs of the scores. */
  lemma NormalizedIdempotent(hits: seq<Hit>)
    ensures Normalized(Normalized(hits)) == Normalized(hits)
  {
    var n := Normalized(hits);
    if hits != [] {
      var m := MaxScore(hits);
      var j :| 0 <= j < |hits| && hits[j].score == m;
      if m > 0.0 {
        assert n == Scaled(hits, m);
        forall k | 0 <= k < |n| ensures n[k].score <= 1.0 {
          DivMonotone(m, hits[k].score, m);
        }
        DivSelf(m);
        assert n[j].score == 1.0;
        MaxScoreIs(n, 1.0);
        assert Normalized(n) == Scaled(n, 1.0);
        ScaledByOne(n);
      } else if m == 0.0 {
        assert n == Scaled(hits, 1.0);
        ScaledByOne(hits);
      } else {
        assert n == Scaled(hits, m);
        assert forall k :: 0 <= k < |n| ==> n[k].score == 0.0;
        MaxScoreIs(n, 0.0);
        assert Normalized(n) == Scaled(n, 1.0);
        ScaledByOne(n);
      }
    }
  }

  /** Normalisation keeps a best-first list best-first. */
  lemma NormalizedSorted(hits: seq<Hit>)
    requires Seqs.Sorted(hits, ScoreDesc)
    ensures Seqs.Sorted(Normalized(hits), ScoreDesc)
  {
    var n := Normalized(hits);
    var d := Divisor(hits);
    forall i, j | 0 <= i < j < |n| ensures ScoreDesc(n[i], n[j]) {
      assert ScoreDesc(hits[i], hits[j]);
      if d > 0.0 {
        DivMonotone(hits[i].score, hits[j].score, d);
      }
    }
  }

  lemma NormalizedIds(hits: seq<Hit>)
    ensures Ids(Normalized(hits)) == Ids(hits)
    ensures UniqueIds(hits) ==> UniqueIds(Normalized(hits))
  {
    var n := Normalized(hits);
    forall x | x in Ids(hits) ensures x in Ids(n) {
      var h :| h in hits && IdOf(h) == x;
      var k :| 0 <= k < |hits| && hits[k] == h;
      assert n[k] in n;
    }
    forall x | x in Ids(n) ensures x in Ids(hits) {
      var h :| h in n && IdOf(h) == x;
      var k :| 0 <= k < |n| && n[k] == h;
      assert hits[k] in hits;
    }
  }

  // ---------------------------------------------------------------- the merge accumulator

  /**
   * The `scores` dict of `merge_results`: its keys in insertion order and the entry
   * for each key.
   */
  datatype Scores = Scores(order: seq<string>, byId: map<string, Hit>)

  /** The keys are listed once each, and each entry sits under its own memory id. */
  predicate WellFormed(acc: Scores)
  {
    (forall i, j :: 0 <= i < j < |acc.order| ==> acc.order[i] != acc.order[j]) &&
    (forall x :: x in acc.byId ==> x in acc.order) &&
    (forall x :: x in acc.order ==> x in acc.byId) &&
    (forall x :: x in acc.byId ==> IdOf(acc.byId[x]) == x)
  }

  function Lookup(acc: Scores, x: string): Option<Hit>
  {
    if x in acc.byId then Some(acc.byId[x]) else None
  }

  /** `scores.values()`, in insertion order. */
  function Values(order: seq<string>, byId: map<string, Hit>): (r: seq<Hit>)
    requires forall x :: x in order ==> x in byId
    ensures |r| == |order|
    ensures forall i :: 0 <= i < |order| ==> r[i] == byId[order[i]]
  {
    if order == [] then []
    else Values(order[..|order| - 1], byId) + [byId[order[|order| - 1]]]
  }

  function Listed(acc: Scores): seq<Hit>
    requires WellFormed(acc)
  {
    Values(acc.order, acc.byId)
  }

  /** `scores[rid] = dict(r)` with the weighted keyword score; an existing key keeps its place. */
  function PutFts(acc: Scores, h: Hit, fw: real): Scores
  {
    var id := IdOf(h);
    Scores(if id in acc.byId then acc.order else acc.order + [id], acc.byId[id := h.(score := Weigh(fw, h.score))])
  }

  /** `scores[rid]["score"] += vec_weight * r["score"]`, or a new entry holding the weighted vector hit. */
  function PutVec(acc: Scores, h: Hit, vw: real): Scores
  {
    var id := IdOf(h);
    if id in acc.byId then Scores(acc.order, acc.byId[id := acc.byId[id].(score := acc.byId[id].score + Weigh(vw, h.score))])
    else Scores(acc.order + [id], acc.byId[id := h.(score := Weigh(vw, h.score))])
  }

  /** The dict after the keyword loop over `hits`. */
  function AccFts(hits: seq<Hit>, fw: real): Scores
  {
    if hits == [] then Scores([], map[]) else PutFts(AccFts(hits[..|hits| - 1], fw), hits[|hits| - 1], fw)
  }

  /** The dict after the vector loop over `hits`, starting from `acc`. */
  function AccVec(acc: Scores, hits: seq<Hit>, vw: real): Scores
  {
    if hits == [] then acc else PutVec(AccVec(acc, hits[..|hits| - 1], vw), hits[|hits| - 1], vw)
  }

  /** The last hit for `id`: a later keyword hit for an id overwrites an earlier one. */
  function LastWith(hits: seq<Hit>, id: string): (r: Option<Hit>)
    ensures r.Some? ==> r.value in hits && IdOf(r.value) == id
  {
    if hits == [] then None
    else if IdOf(hits[|hits| - 1]) == id then Some(hits[|hits| - 1])
    else
      var r := LastWith(hits[..|hits| - 1], id);
      assert r.Some? ==> r.value in hits;
      r
  }

  /** The first hit for `id`: the one whose record a vector-only entry keeps. */
  function FirstWith(hits: seq<Hit>, id: string): (r: Option<Hit>)
    ensures r.Some? ==> r.value in hits && IdOf(r.value) == id
  {
    if hits == [] then None
    else
      var r := FirstWith(hits[..|hits| - 1], id);
      assert r.Some? ==> r.value in hits;
      if r.Some? then r
      else if IdOf(hits[|hits| - 1]) == id then Some(hits[|hits| - 1])
      else None
  }

  /** Some hit carries `id` exactly when the backward scan finds a last one. */
  lemma {:induction false} LastWithFinds(hits: seq<Hit>, id: string)
    ensures LastWith(hits, id).Some? <==> id in Ids(hits)
  {
    if hits != [] {
      var init := hits[..|hits| - 1];
      LastWithFinds(init, id);
      assert hits == init + [hits[|hits| - 1]];
      IdsAppend(init, hits[|hits| - 1]);
    }
  }

  /** Some hit carries `id` exactly when there is a first one. */
  lemma {:induction false} FirstWithFinds(hits: seq<Hit>, id: string)
    ensures FirstWith(hits, id).Some? <==> id in Ids(hits)
  {
    if hits != [] {
      var init := hits[..|hits| - 1];
      FirstWithFinds(init, id);
      assert hits == init + [hits[|hits| - 1]];
      IdsAppend(init, hits[|hits| - 1]);
    }
  }

  /** The summed vector scores for `id`. */
  function VecPart(hits: seq<Hit>, id: string): real
  {
    if hits == [] then 0.0
    else VecPart(hits[..|hits| - 1], id) + (if IdOf(hits[|hits| - 1]) == id then hits[|hits| - 1].score else 0.0)
  }

  /** The keyword part of a merged score: the last keyword score for `id`, or 0 when absent. */
  function FtsPart(hits: seq<Hit>, id: string): real
  {
    match LastWith(hits, id)
    case Some(h) => h.score
    case None => 0.0
  }

  /** What the keyword loop leaves under `x`: the last keyword hit for `x`, weighted. */
  function FtsEntry(hits: seq<Hit>, fw: real, x: string): Option<Hit>
  {
    match LastWith(hits, x)
    case Some(h) => Some(h.(score := Weigh(fw, h.score)))
    case None => None
  }

  /**
   * What the vector loop leaves under `x`, given the entry `prev` before it: the
   * entry plus the weighted vector scores, or else the first vector hit with them.
   */
  function VecEntry(prev: Option<Hit>, hits: seq<Hit>, vw: real, x: string): Option<Hit>
  {
    match prev
    case Some(e) => Some(e.(score := e.score + Weigh(vw, VecPart(hits, x))))
    case None =>
      match FirstWith(hits, x)
      case Some(h) => Some(h.(score := Weigh(vw, VecPart(hits, x))))
      case None => None
  }

  lemma IdsAppend(s: seq<Hit>, h: Hit)
    ensures Ids(s + [h]) == Ids(s) + {IdOf(h)}
  {
    forall x | x in Ids(s + [h]) ensures x in Ids(s) + {IdOf(h)} {
      var g :| g in s + [h] && IdOf(g) == x;
    }
    forall x | x in Ids(s) ensures x in Ids(s + [h]) {
      var g :| g in s && IdOf(g) == x;
      assert g in s + [h];
    }
    assert h in s + [h];
  }

  /** One step of the keyword loop keeps the dict well formed and adds the hit's id. */
  lemma PutFtsShape(acc: Scores, h: Hit, fw: real)
    requires WellFormed(acc)
    ensures WellFormed(PutFts(acc, h, fw))
    ensures PutFts(acc, h, fw).byId.Keys == acc.byId.Keys + {IdOf(h)}
    ensures |PutFts(acc, h, fw).order| <= |acc.order| + 1
  {
  }

  /** One step of the vector loop keeps the dict well formed and adds the hit's id. */
  lemma PutVecShape(acc: Scores, h: Hit, vw: real)
    requires WellFormed(acc)
    ensures WellFormed(PutVec(acc, h, vw))
    ensures PutVec(acc, h, vw).byId.Keys == acc.byId.Keys + {IdOf(h)}
    ensures |PutVec(acc, h, vw).order| <= |acc.order| + 1
  {
  }

  /** After the keyword loop the dict is well formed, keyed by exactly the keyword ids. */
  lemma {:induction false} AccFtsShape(hits: seq<Hit>, fw: real)
    ensures WellFormed(AccFts(hits, fw))
    ensures AccFts(hits, fw).byId.Keys == Ids(hits)
    ensures |AccFts(hits, fw).order| <= |hits|
  {
    if hits != [] {
      var init := hits[..|hits| - 1];
      AccFtsShape(init, fw);
      PutFtsShape(AccFts(init, fw), hits[|hits| - 1], fw);
      assert hits == init + [hits[|hits| - 1]];
      IdsAppend(init, hits[|hits| - 1]);
    }
  }

  /** After the vector loop the dict is well formed and has gained exactly the vector ids. */
  lemma {:induction false} AccVecShape(acc: Scores, hits: seq<Hit>, vw: real)
    requires WellFormed(acc)
    ensures WellFormed(AccVec(acc, hits, vw))
    ensures AccVec(acc, hits, vw).byId.Keys == acc.byId.Keys + Ids(hits)
    ensures |AccVec(acc, hits, vw).order| <= |acc.order| + |hits|
  {
    if hits != [] {
      var init := hits[..|hits| - 1];
      AccVecShape(acc, init, vw);
      PutVecShape(AccVec(acc, init, vw), hits[|hits| - 1], vw);
      assert hits == init + [hits[|hits| - 1]];
      IdsAppend(init, hits[|hits| - 1]);
    }
  }

  /** One keyword step: the hit's own id now holds it, weighted; other ids are untouched. */
  lemma PutFtsStep(before: Scores, init: seq<Hit>, last: Hit, fw: real, x: string)
    requires Lookup(before, x) == FtsEntry(init, fw, x)
    ensures Lookup(PutFts(before, last, fw), x) == FtsEntry(init + [last], fw, x)
  {
    var hits := init + [last];
    assert hits[..|hits| - 1] == init && hits[|hits| - 1] == last;
    if IdOf(last) == x {
      assert LastWith(hits, x) == Some(last);
    } else {
      assert LastWith(hits, x) == LastWith(init, x);
    }
  }

  /** After the keyword loop, each id holds its last keyword hit with the weighted score. */
  lemma {:induction false} AccFtsEntry(hits: seq<Hit>, fw: real, x: string)
    ensures Lookup(AccFts(hits, fw), x) == FtsEntry(hits, fw, x)
  {
    if hits != [] {
      var init := hits[..|hits| - 1];
      var last := hits[|hits| - 1];
      AccFtsEntry(init, fw, x);
      PutFtsStep(AccFts(init, fw), init, last, fw, x);
      assert init + [last] == hits;
    }
  }

  lemma {:induction false} VecPartAbsent(hits: seq<Hit>, x: string)
    requires x !in Ids(hits)
    ensures VecPart(hits, x) == 0.0
  {
    if hits != [] {
      assert hits[|hits| - 1] in hits;
      assert Ids(hits[..|hits| - 1]) <= Ids(hits);
      VecPartAbsent(hits[..|hits| - 1], x);
    }
  }

  lemma Distribute(w: real, a: real, b: real)
    ensures Weigh(w, a) + Weigh(w, b) == Weigh(w, a + b)
  {
  }

  /** One vector step for the hit's own id: the entry gains the weighted score, or is created from the hit. */
  lemma PutVecStepSame(before: Scores, prev: Option<Hit>, init: seq<Hit>, last: Hit, vw: real, x: string)
    requires IdOf(last) == x
    requires Lookup(before, x) == VecEntry(prev, init, vw, x)
    ensures Lookup(PutVec(before, last, vw), x) == VecEntry(prev, init + [last], vw, x)
  {
    var hits := init + [last];
    assert hits[..|hits| - 1] == init && hits[|hits| - 1] == last;
    assert VecPart(hits, x) == VecPart(init, x) + last.score;
    Distribute(vw, VecPart(init, x), last.score);
    if x in before.byId {
      var e := before.byId[x];
      assert Lookup(PutVec(before, last, vw), x) == Some(e.(score := e.score + Weigh(vw, last.score)));
      match prev
      case Some(e0) =>
        assert e == e0.(score := e0.score + Weigh(vw, VecPart(init, x)));
      case None =>
        var g := FirstWith(init, x).value;
        assert e == g.(score := Weigh(vw, VecPart(init, x)));
        assert FirstWith(hits, x) == Some(g);
    } else {
      assert prev.None? && FirstWith(init, x).None?;
      FirstWithFinds(init, x);
      VecPartAbsent(init, x);
      assert FirstWith(hits, x) == Some(last);
    }
  }

  /** One vector step for another id changes nothing under `x`. */
  lemma PutVecStepOther(before: Scores, prev: Option<Hit>, init: seq<Hit>, last: Hit, vw: real, x: string)
    requires IdOf(last) != x
    requires Lookup(before, x) == VecEntry(prev, init, vw, x)
    ensures Lookup(PutVec(before, last, vw), x) == VecEntry(prev, init + [last], vw, x)
  {
    var hits := init + [last];
    assert hits[..|hits| - 1] == init && hits[|hits| - 1] == last;
    assert VecPart(hits, x) == VecPart(init, x);
    assert FirstWith(hits, x) == FirstWith(init, x);
  }

  /**
   * After the vector loop, an entry that existed has gained the weighted sum of its
   * vector scores, and a new one is the first vector hit carrying that sum.
   */
  lemma {:induction false} AccVecEntry(acc: Scores, hits: seq<Hit>, vw: real, x: string)
    ensures Lookup(AccVec(acc, hits, vw), x) == VecEntry(Lookup(acc, x), hits, vw, x)
  {
    if hits == [] {
      match Lookup(acc, x)
      case Some(e) => assert e.(score := e.score + Weigh(vw, 0.0)) == e;
      case None =>
    } else {
      var init := hits[..|hits| - 1];
      var last := hits[|hits| - 1];
      AccVecEntry(acc, init, vw, x);
      assert init + [last] == hits;
      if IdOf(last) == x {
        PutVecStepSame(AccVec(acc, init, vw), Lookup(acc, x), init, last, vw, x);
      } else {
        PutVecStepOther(AccVec(acc, init, vw), Lookup(acc, x), init, last, vw, x);
      }
    }
  }

  /** The `scores` dict `merge_results` builds from two lists it has normalised. */
  function Merged(fts: seq<Hit>, vec: seq<Hit>, fw: real, vw: real): Scores
  {
    AccVec(AccFts(Normalized(fts), fw), Normalized(vec), vw)
  }

  lemma MergedShape(fts: seq<Hit>, vec: seq<Hit>, fw: real, vw: real)
    ensures WellFormed(Merged(fts, vec, fw, vw))
    ensures Merged(fts, vec, fw, vw).byId.Keys == Ids(fts) + Ids(vec)
    ensures |Merged(fts, vec, fw, vw).order| <= |fts| + |vec|
  {
    AccFtsShape(Normalized(fts), fw);
    AccVecShape(AccFts(Normalized(fts), fw), Normalized(vec), vw);
    NormalizedIds(fts);
    NormalizedIds(vec);
  }

  /** The merged entry of an id, loop by loop: the keyword loop's entry, then the vector loop's step. */
  lemma MergedLookup(fts: seq<Hit>, vec: seq<Hit>, fw: real, vw: real, x: string)
    ensures Lookup(Merged(fts, vec, fw, vw), x) == VecEntry(FtsEntry(Normalized(fts), fw, x), Normalized(vec), vw, x)
  {
    AccFtsEntry(Normalized(fts), fw, x);
    AccVecEntry(AccFts(Normalized(fts), fw), Normalized(vec), vw, x);
  }

  /**
   * Each id of either list has exactly one merged entry. An id with a keyword hit keeps
   * that hit's record (the last one); a vector-only id keeps its first vector hit's
   * record. The score is `fw · nf + vw · nv`, where `nf` is the normalised keyword
   * score (0 when absent) and `nv` the sum of the normalised vector scores for the id.
   */
  lemma MergedEntry(fts: seq<Hit>, vec: seq<Hit>, fw: real, vw: real, x: string)
    requires x in Ids(fts) || x in Ids(vec)
    ensures Lookup(Merged(fts, vec, fw, vw), x).Some?
    ensures Lookup(Merged(fts, vec, fw, vw), x).value.score ==
      Weigh(fw, FtsPart(Normalized(fts), x)) + Weigh(vw, VecPart(Normalized(vec), x))
    ensures x in Ids(fts) ==>
      LastWith(Normalized(fts), x).Some? &&
      SameRecord(Lookup(Merged(fts, vec, fw, vw), x).value, LastWith(Normalized(fts), x).value)
    ensures x !in Ids(fts) ==>
      FirstWith(Normalized(vec), x).Some? &&
      SameRecord(Lookup(Merged(fts, vec, fw, vw), x).value, FirstWith(Normalized(vec), x).value)
  {
    var nf := Normalized(fts);
    var nv := Normalized(vec);
    NormalizedIds(fts);
    NormalizedIds(vec);
    MergedLookup(fts, vec, fw, vw, x);
    LastWithFinds(nf, x);
    FirstWithFinds(nv, x);
    var l := LastWith(nf, x);
    if l.Some? {
      assert FtsEntry(nf, fw, x) == Some(l.value.(score := Weigh(fw, l.value.score)));
      assert FtsPart(nf, x) == l.value.score;
    } else {
      assert FtsEntry(nf, fw, x).None?;
      assert FirstWith(nv, x).Some?;
      assert Weigh(fw, FtsPart(nf, x)) == 0.0;
    }
  }

  /** Two hits for the same stored row, whatever their scores. */
  predicate SameRecord(a: Hit, b: Hit)
  {
    a.row == b.row && a.hasDetails == b.hasDetails
  }

  lemma SortedBestFirst(hits: seq<Hit>)
    ensures Seqs.Sorted(Seqs.SortBy(hits, ScoreDesc), ScoreDesc)
  {
    assert Seqs.Total(ScoreDesc) && Seqs.Transitive(ScoreDesc);
    Seqs.SortBySorted(hits, ScoreDesc);
  }

  /**
   * `merge_results`: both lists normalised, merged by id, sorted by combined score
   * (best first, ties in dict insertion order), cut to `limit`.
   */
  function MergeSpec(fts: seq<Hit>, vec: seq<Hit>, fw: real, vw: real, limit: int): seq<Hit>
  {
    MergedShape(fts, vec, fw, vw);
    Seqs.PySlice(Seqs.SortBy(Listed(Merged(fts, vec, fw, vw)), ScoreDesc), limit)
  }

  lemma ListedIds(acc: Scores)
    requires WellFormed(acc)
    ensures UniqueIds(Listed(acc))
    ensures Ids(Listed(acc)) == acc.byId.Keys
    ensures forall h :: h in Listed(acc) ==> Lookup(acc, IdOf(h)) == Some(h)
  {
    var l := Listed(acc);
    forall x | x in acc.byId.Keys ensures x in Ids(l) {
      var i :| 0 <= i < |acc.order| && acc.order[i] == x;
      assert l[i] in l;
    }
  }

  /** Sorting the listing best first and cutting it keeps it best first, no longer than `limit`. */
  lemma ListingOrder(l: seq<Hit>, limit: int)
    ensures var r := Seqs.PySlice(Seqs.SortBy(l, ScoreDesc), limit);
      Seqs.Sorted(r, ScoreDesc) && (limit >= 0 ==> |r| <= limit)
  {
    var sorted := Seqs.SortBy(l, ScoreDesc);
    SortedBestFirst(l);
    Seqs.SortedPrefix(sorted, |Seqs.PySlice(sorted, limit)|, ScoreDesc);
  }

  /** Sorting and cutting adds no hit and duplicates no id; with a large enough `limit` it drops no id. */
  lemma ListingMembers(l: seq<Hit>, limit: int)
    requires UniqueIds(l)
    ensures var r := Seqs.PySlice(Seqs.SortBy(l, ScoreDesc), limit);
      UniqueIds(r) && (forall h :: h in r ==> h in l) && (limit >= |l| ==> Ids(r) == Ids(l))
  {
    var sorted := Seqs.SortBy(l, ScoreDesc);
    var r := Seqs.PySlice(sorted, limit);
    Seqs.SortByDistinct(l, ScoreDesc, IdOf);
    assert UniqueIds(sorted);
    forall h | h in r ensures h in l {
      assert h in sorted && h in multiset(sorted);
    }
    if limit >= |l| {
      assert r == sorted;
      forall x | x in Ids(l) ensures x in Ids(r) {
        var g :| g in l && IdOf(g) == x;
        assert g in multiset(sorted);
      }
    }
  }

  /** The sorted, cut listing of a well-formed dict. */
  lemma SortedListingShape(acc: Scores, limit: int)
    requires WellFormed(acc)
    ensures var r := Seqs.PySlice(Seqs.SortBy(Listed(acc), ScoreDesc), limit);
      Seqs.Sorted(r, ScoreDesc) && (limit >= 0 ==> |r| <= limit) && UniqueIds(r) &&
      (forall h :: h in r ==> Lookup(acc, IdOf(h)) == Some(h)) &&
      (limit >= |acc.order| ==> Ids(r) == acc.byId.Keys)
  {
    ListedIds(acc);
    ListingOrder(Listed(acc), limit);
    ListingMembers(Listed(acc), limit);
  }

  /**
   * The merged output is best first, has at most `limit` entries, holds each id at most
   * once, and each entry is the merged entry of its id. With `limit` large enough its ids
   * are exactly the ids of the two inputs.
   */
  lemma MergeSpecShape(fts: seq<Hit>, vec: seq<Hit>, fw: real, vw: real, limit: int)
    ensures var r := MergeSpec(fts, vec, fw, vw, limit);
      Seqs.Sorted(r, ScoreDesc) && (limit >= 0 ==> |r| <= limit) && UniqueIds(r) &&
      (forall h :: h in r ==> Lookup(Merged(fts, vec, fw, vw), IdOf(h)) == Some(h)) &&
      (limit >= |fts| + |vec| ==> Ids(r) == Ids(fts) + Ids(vec))
  {
    MergedShape(fts, vec, fw, vw);
    SortedListingShape(Merged(fts, vec, fw, vw), limit);
  }

  /** The merged output is best first and at most `limit` long. */
  lemma MergeSpecBestFirst(fts: seq<Hit>, vec: seq<Hit>, fw: real, vw: real, limit: int)
    ensures BestFirstWithin(MergeSpec(fts, vec, fw, vw, limit), limit)
  {
    MergedShape(fts, vec, fw, vw);
    ListingOrder(Listed(Merged(fts, vec, fw, vw)), limit);
  }

  /** Merging two empty lists gives an empty list. */
  lemma MergeEmpty(fw: real, vw: real, limit: int)
    ensures MergeSpec([], [], fw, vw, limit) == []
  {
  }

  lemma WeightedPart(w: real, a: real)
    requires w >= 0.0 && 0.0 <= a <= 1.0
    ensures 0.0 <= Weigh(w, a) <= w
  {
    assert w * a <= w * 1.0;
  }

  /** In a list with unique ids and scores in [0, 1], an id's summed score is its one score, or 0. */
  lemma {:induction false} VecPartUnique(hits: seq<Hit>, x: string)
    requires UniqueIds(hits)
    requires forall k :: 0 <= k < |hits| ==> 0.0 <= hits[k].score <= 1.0
    ensures 0.0 <= VecPart(hits, x) <= 1.0
  {
    if hits != [] {
      var init := hits[..|hits| - 1];
      var last := hits[|hits| - 1];
      VecPartUnique(init, x);
      if IdOf(last) == x {
        forall g | g in init ensures IdOf(g) != x {
          var k :| 0 <= k < |init| && init[k] == g;
          assert hits[k] == g;
        }
        VecPartAbsent(init, x);
      }
    }
  }

  lemma FtsPartBounds(hits: seq<Hit>, x: string)
    requires forall k :: 0 <= k < |hits| ==> 0.0 <= hits[k].score <= 1.0
    ensures 0.0 <= FtsPart(hits, x) <= 1.0
  {
    match LastWith(hits, x)
    case Some(g) =>
      var k :| 0 <= k < |hits| && hits[k] == g;
    case None =>
  }

  /**
   * With non-negative scores, non-negative weights and ids unique within the vector
   * list, every merged score lies in [0, fw + vw].
   */
  lemma MergeScoreBounds(fts: seq<Hit>, vec: seq<Hit>, fw: real, vw: real, limit: int)
    requires fw >= 0.0 && vw >= 0.0
    requires UniqueIds(vec)
    requires forall k :: 0 <= k < |fts| ==> fts[k].score >= 0.0
    requires forall k :: 0 <= k < |vec| ==> vec[k].score >= 0.0
    ensures forall h :: h in MergeSpec(fts, vec, fw, vw, limit) ==> 0.0 <= h.score <= fw + vw
  {
    var nf := Normalized(fts);
    var nv := Normalized(vec);
    NormalizedBounds(fts);
    NormalizedBounds(vec);
    NormalizedIds(vec);
    MergeSpecShape(fts, vec, fw, vw, limit);
    MergedShape(fts, vec, fw, vw);
    forall h | h in MergeSpec(fts, vec, fw, vw, limit) ensures 0.0 <= h.score <= fw + vw {
      var x := IdOf(h);
      assert x in Merged(fts, vec, fw, vw).byId.Keys;
      MergedEntry(fts, vec, fw, vw, x);
      FtsPartBounds(nf, x);
      VecPartUnique(nv, x);
      WeightedPart(fw, FtsPart(nf, x));
      WeightedPart(vw, VecPart(nv, x));
    }
  }

  // ---------------------------------------------------------------- the loops of the source

  /** The two loops of the normalisation: find the maximum, then rescale every hit. */
  method Normalize(hits: seq<Hit>) returns (r: seq<Hit>)
    ensures r == Normalized(hits)
  {
    if hits == [] {
      return [];
    }
    var m := hits[0].score;
    var i := 1;
    while i < |hits|
      invariant 1 <= i <= |hits|
      invariant m == MaxScore(hits[..i])
    {
      assert hits[..i + 1][..i] == hits[..i];
      if hits[i].score > m {
        m := hits[i].score;
      }
      i := i + 1;
    }
    assert hits[..i] == hits;
    var d := if m == 0.0 then 1.0 else m;
    r := [];
    i := 0;
    while i < |hits|
      invariant 0 <= i <= |hits|
      invariant r == Scaled(hits[..i], d)
    {
      assert hits[..i + 1][..i] == hits[..i];
      r := r + [ScaleHit(hits[i], d)];
      i := i + 1;
    }
    assert hits[..i] == hits;
  }

  /** `merge_results`, loop by loop. */
  method MergeResults(fts: seq<Hit>, vec: seq<Hit>, fw: real, vw: real, limit: int) returns (r: seq<Hit>)
    ensures r == MergeSpec(fts, vec, fw, vw, limit)
  {
    var nf := Normalize(fts);
    var nv := Normalize(vec);
    var scores := Scores([], map[]);
    var i := 0;
    while i < |nf|
      invariant 0 <= i <= |nf|
      invariant scores == AccFts(nf[..i], fw)
    {
      assert nf[..i + 1][..i] == nf[..i];
      scores := PutFts(scores, nf[i], fw);
      i := i + 1;
    }
    assert nf[..i] == nf;
    var j := 0;
    while j < |nv|
      invariant 0 <= j <= |nv|
      invariant scores == AccVec(AccFts(nf, fw), nv[..j], vw)
    {
      assert nv[..j + 1][..j] == nv[..j];
      scores := PutVec(scores, nv[j], vw);
      j := j + 1;
    }
    assert nv[..j] == nv;
    MergedShape(fts, vec, fw, vw);
    r := Seqs.PySlice(Seqs.SortBy(Listed(scores), ScoreDesc), limit);
  }

  // ---------------------------------------------------------------- the strategies

  /**
   * The vector stage of both strategies: embed the query with the provider's `search`,
   * then run vector search for `2·limit` hits.
   */
  function VectorStage(db: MemoryDB, p: Provider, query: string, limit: int,
                       project: Option<string>, source: Option<string>): Result<seq<Hit>, Error>
    reads db
  {
    match p.search(query)
    case Err(e) => Err(e)
    case Ok(qv) =>
      VectorSearchIn(db.memories, db.details, db.vecTable, db.vectors, db.engine.distance,
                     qv, limit * 2, project, source)
  }

  /**
   * What `tiered_search` returns once keyword search succeeded with the normalised hits
   * `norm`: with at least `minFts` of them, or without a provider (`vec` is None), or
   * when the vector stage failed, the first `limit` of them; otherwise the merge.
   */
  function TieredPick(norm: seq<Hit>, limit: int, minFts: int, vec: Option<Result<seq<Hit>, Error>>): seq<Hit>
  {
    if |norm| >= minFts || vec.None? || vec.value.Err? then Seqs.PySlice(norm, limit)
    else MergeSpec(norm, vec.value.value, FtsWeight, VecWeight, limit)
  }

  /**
   * `tiered_search`: keyword search for `2·limit` hits, normalised, then `TieredPick`.
   * Only a keyword-search error escapes.
   */
  function TieredOutcome(db: MemoryDB, provider: Option<Provider>, query: string, limit: int, minFts: int,
                         project: Option<string>, source: Option<string>): (r: Result<seq<Hit>, Error>)
    reads db
  {
    match db.FtsSearch(query, limit * 2, project, source)
    case Err(e) => Err(e)
    case Ok(hits) =>
      var vec := if provider.None? then None else Some(VectorStage(db, provider.value, query, limit, project, source));
      Ok(TieredPick(Normalized(hits), limit, minFts, vec))
  }

  /**
   * `hybrid_search`: without a provider, the first `limit` normalised keyword hits;
   * with one, the merge of keyword and vector hits, every error escaping.
   */
  function HybridOutcome(db: MemoryDB, provider: Option<Provider>, query: string, limit: int,
                         project: Option<string>, source: Option<string>): (r: Result<seq<Hit>, Error>)
    reads db
  {
    match db.FtsSearch(query, limit * 2, project, source)
    case Err(e) => Err(e)
    case Ok(hits) =>
      if provider.None? then Ok(Seqs.PySlice(Normalized(hits), limit))
      else
        match VectorStage(db, provider.value, query, limit, project, source)
        case Err(e) => Err(e)
        case Ok(vhits) => Ok(MergeSpec(hits, vhits, FtsWeight, VecWeight, limit))
  }

  method TieredSearch(db: MemoryDB, provider: Option<Provider>, query: string, limit: int, minFts: int,
                      project: Option<string>, source: Option<string>) returns (r: Result<seq<Hit>, Error>)
    ensures r == TieredOutcome(db, provider, query, limit, minFts, project, source)
  {
    var fr := db.FtsSearch(query, limit * 2, project, source);
    if fr.Err? {
      return Err(fr.error);
    }
    var norm := Normalize(fr.value);
    var hits := TieredFallback(db, provider, query, norm, limit, minFts, project, source);
    r := Ok(hits);
  }

  /** The second tier of `tiered_search`: keep the first `limit` keyword hits, or merge in vector hits when they are too few. */
  method TieredFallback(db: MemoryDB, provider: Option<Provider>, query: string, norm: seq<Hit>, limit: int, minFts: int,
                        project: Option<string>, source: Option<string>) returns (hits: seq<Hit>)
    ensures hits == TieredPick(norm, limit, minFts,
                               if provider.None? then None else Some(VectorStage(db, provider.value, query, limit, project, source)))
  {
    hits := Seqs.PySlice(norm, limit);
    if |norm| < minFts && provider.Some? {
      var vr := RunVectorStage(db, provider.value, query, limit, project, source);
      if vr.Ok? {
        hits := MergeResults(norm, vr.value, FtsWeight, VecWeight, limit);
      }
    }
  }

  /** The vector half of `tiered_search` and `hybrid_search`: embed the query, then vector search for `2·limit` hits. */
  method RunVectorStage(db: MemoryDB, p: Provider, query: string, limit: int,
                        project: Option<string>, source: Option<string>) returns (r: Result<seq<Hit>, Error>)
    ensures r == VectorStage(db, p, query, limit, project, source)
  {
    var qv := p.search(query);
    if qv.Err? {
      return Err(qv.error);
    }
    r := db.VectorSearch(qv.value, limit * 2, project, source);
  }

  method HybridSearch(db: MemoryDB, provider: Option<Provider>, query: string, limit: int,
                      project: Option<string>, source: Option<string>) returns (r: Result<seq<Hit>, Error>)
    ensures r == HybridOutcome(db, provider, query, limit, project, source)
  {
    var fr := db.FtsSearch(query, limit * 2, project, source);
    if fr.Err? {
      r := Err(fr.error);
    } else if provider.None? {
      var norm := Normalize(fr.value);
      r := Ok(Seqs.PySlice(norm, limit));
    } else {
      var vr := RunVectorStage(db, provider.value, query, limit, project, source);
      if vr.Err? {
        r := Err(vr.error);
      } else {
        var merged := MergeResults(fr.value, vr.value, FtsWeight, VecWeight, limit);
        r := Ok(merged);
      }
    }
  }

  /** With enough keyword hits the provider is never consulted: any provider, or none, gives the same normalised keyword hits. */
  lemma TieredEnoughKeywordHits(db: MemoryDB, p: Option<Provider>, query: string, limit: int, minFts: int,
                                project: Option<string>, source: Option<string>)
    requires db.FtsSearch(query, limit * 2, project, source).Ok?
    requires |db.FtsSearch(query, limit * 2, project, source).value| >= minFts
    ensures TieredOutcome(db, p, query, limit, minFts, project, source) ==
      Ok(Seqs.PySlice(Normalized(db.FtsSearch(query, limit * 2, project, source).value), limit))
    ensures TieredOutcome(db, p, query, limit, minFts, project, source) ==
      TieredOutcome(db, None, query, limit, minFts, project, source)
  {
  }

  /** A failing provider or vector search degrades tiered search to keyword-only results. */
  lemma TieredDegrades(db: MemoryDB, p: Provider, query: string, limit: int, minFts: int,
                       project: Option<string>, source: Option<string>)
    requires db.FtsSearch(query, limit * 2, project, source).Ok?
    requires VectorStage(db, p, query, limit, project, source).Err?
    ensures TieredOutcome(db, Some(p), query, limit, minFts, project, source) ==
      TieredOutcome(db, None, query, limit, minFts, project, source)
  {
  }

  /** A best-first list of at most `limit` hits (any length for a negative `limit`). */
  ghost predicate BestFirstWithin(hits: seq<Hit>, limit: int)
  {
    Seqs.Sorted(hits, ScoreDesc) && (limit >= 0 ==> |hits| <= limit)
  }

  /** A prefix of a normalised best-first keyword list is best first. */
  lemma KeywordOnlyShape(hits: seq<Hit>, limit: int)
    requires Seqs.Sorted(hits, ScoreDesc)
    ensures BestFirstWithin(Seqs.PySlice(Normalized(hits), limit), limit)
  {
    NormalizedSorted(hits);
    Seqs.SortedPrefix(Normalized(hits), |Seqs.PySlice(Normalized(hits), limit)|, ScoreDesc);
  }

  /**
   * Tiered search fails only when keyword search does, with the keyword syntax error,
   * and otherwise returns at most `limit` hits, best first.
   */
  lemma TieredShape(db: MemoryDB, p: Option<Provider>, query: string, limit: int, minFts: int,
                    project: Option<string>, source: Option<string>)
    ensures var r := TieredOutcome(db, p, query, limit, minFts, project, source);
      (r.Err? <==> db.FtsSearch(query, limit * 2, project, source).Err?) &&
      (r.Err? ==> r.error.FtsSyntax?) &&
      (r.Ok? ==> BestFirstWithin(r.value, limit))
  {
    var fr := db.FtsSearch(query, limit * 2, project, source);
    if fr.Ok? {
      var vec := if p.None? then None else Some(VectorStage(db, p.value, query, limit, project, source));
      TieredPickShape(fr.value, limit, minFts, vec);
    }
  }

  /** Whatever the vector stage gave, the pick from best-first keyword hits is best first and at most `limit` long. */
  lemma TieredPickShape(hits: seq<Hit>, limit: int, minFts: int, vec: Option<Result<seq<Hit>, Error>>)
    requires Seqs.Sorted(hits, ScoreDesc)
    ensures BestFirstWithin(TieredPick(Normalized(hits), limit, minFts, vec), limit)
  {
    var norm := Normalized(hits);
    if |norm| >= minFts || vec.None? || vec.value.Err? {
      KeywordOnlyShape(hits, limit);
    } else {
      MergeSpecBestFirst(norm, vec.value.value, FtsWeight, VecWeight, limit);
    }
  }

  /**
   * Once tiered search does go to the vectors, it returns what hybrid search returns:
   * re-normalising the already normalised keyword hits inside the merge changes nothing.
   */
  lemma TieredAgreesWithHybrid(db: MemoryDB, p: Provider, query: string, limit: int, minFts: int,
                               project: Option<string>, source: Option<string>)
    requires db.FtsSearch(query, limit * 2, project, source).Ok?
    requires |db.FtsSearch(query, limit * 2, project, source).value| < minFts
    requires VectorStage(db, p, query, limit, project, source).Ok?
    ensures TieredOutcome(db, Some(p), query, limit, minFts, project, source) ==
      HybridOutcome(db, Some(p), query, limit, project, source)
  {
    var hits := db.FtsSearch(query, limit * 2, project, source).value;
    NormalizedIdempotent(hits);
  }

  /** Without a provider, tiered and hybrid search agree. */
  lemma NoProviderAgrees(db: MemoryDB, query: string, limit: int, minFts: int,
                         project: Option<string>, source: Option<string>)
    ensures TieredOutcome(db, None, query, limit, minFts, project, source) ==
      HybridOutcome(db, None, query, limit, project, source)
  {
  }
}

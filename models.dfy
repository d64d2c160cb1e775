/** The memory record, the raw input it is built from, and the title-to-anchor slug. */
module Models {
  import opened Wrappers
  import opened Text
  import Seqs

  /** The closed set of categories the command line accepts. */
  const ValidCategories: seq<string> := ["decision", "pattern", "bug", "context", "learning"]

  /** What a caller hands to the save pipeline before ids and timestamps exist. */
  datatype RawMemoryInput = RawMemoryInput(
    title: string,
    what: string,
    why: Option<string>,
    impact: Option<string>,
    tags: seq<string>,
    category: Option<string>,
    relatedFiles: seq<string>,
    details: Option<string>,
    source: Option<string>)

  /** A stored memory; timestamps are ISO-8601 strings produced by the clock. */
  datatype Memory = Memory(
    id: string,
    title: string,
    what: string,
    why: Option<string>,
    impact: Option<string>,
    tags: seq<string>,
    category: Option<string>,
    project: string,
    source: Option<string>,
    relatedFiles: seq<string>,
    filePath: string,
    sectionAnchor: string,
    createdAt: string,
    updatedAt: string)

  /** The class `[a-z0-9]` of the slug's regular expression. */
  predicate IsAnchorChar(c: char)
  {
    'a' <= c <= 'z' || '0' <= c <= '9'
  }

  predicate NoDoubleDash(s: string)
  {
    forall i :: 0 <= i < |s| - 1 ==> !(s[i] == '-' && s[i + 1] == '-')
  }

  /** Drops the leading run of characters outside `[a-z0-9]`. */
  function DropRun(s: string): (r: string)
    ensures |r| <= |s| && r == s[|s| - |r|..]
    ensures r == [] || IsAnchorChar(r[0])
  {
    if s != [] && !IsAnchorChar(s[0]) then DropRun(s[1..]) else s
  }

  /** `re.sub(r"[^a-z0-9]+", "-", s)`: every maximal run of other characters becomes one `-`. */
  function Substitute(s: string): (r: string)
    ensures forall i :: 0 <= i < |r| ==> IsAnchorChar(r[i]) || r[i] == '-'
    ensures NoDoubleDash(r)
    ensures s != [] && IsAnchorChar(s[0]) ==> r != [] && r[0] == s[0]
    decreases |s|
  {
    if s == [] then []
    else if IsAnchorChar(s[0]) then [s[0]] + Substitute(s[1..])
    else "-" + Substitute(DropRun(s))
  }

  /** `re.sub(r"[^a-z0-9]+", "-", title.lower()).strip("-")` (models.py, `from_raw`). */
  function SectionAnchor(title: string): string
  {
    RStripChar(LStripChar(Substitute(Lower(title)), '-'), '-')
  }

  /** The anchor holds only `a`-`z`, `0`-`9` and `-`. */
  lemma AnchorAlphabet(title: string)
    ensures forall i :: 0 <= i < |SectionAnchor(title)| ==>
      IsAnchorChar(SectionAnchor(title)[i]) || SectionAnchor(title)[i] == '-'
  {
    var s := Substitute(Lower(title));
    var l := LStripChar(s, '-');
    var a := RStripChar(l, '-');
    forall i | 0 <= i < |a| ensures IsAnchorChar(a[i]) || a[i] == '-' {
      assert a[i] == l[i] == s[|s| - |l| + i];
    }
  }

  /** The anchor neither starts nor ends with `-` and never holds `--`. */
  lemma AnchorShape(title: string)
    ensures var a := SectionAnchor(title);
      (a == [] || (a[0] != '-' && a[|a| - 1] != '-')) && NoDoubleDash(a)
  {
    var s := Substitute(Lower(title));
    var l := LStripChar(s, '-');
    var a := RStripChar(l, '-');
    forall i | 0 <= i < |a| - 1 ensures !(a[i] == '-' && a[i + 1] == '-') {
      var off := |s| - |l|;
      assert a[i] == s[off + i] && a[i + 1] == s[off + i + 1];
    }
    if a != [] {
      assert a[0] == l[0];
    }
  }

  function AnchorChars(s: string): string
  {
    Seqs.Filter(s, IsAnchorChar)
  }

  lemma {:induction false} DropRunKeepsAnchorChars(s: string)
    ensures AnchorChars(DropRun(s)) == AnchorChars(s)
  {
    if s != [] && !IsAnchorChar(s[0]) {
      DropRunKeepsAnchorChars(s[1..]);
    }
  }

  lemma {:induction false} SubstituteKeepsAnchorChars(s: string)
    ensures AnchorChars(Substitute(s)) == AnchorChars(s)
    decreases |s|
  {
    if s == [] {
    } else if IsAnchorChar(s[0]) {
      SubstituteKeepsAnchorChars(s[1..]);
      assert ([s[0]] + Substitute(s[1..]))[1..] == Substitute(s[1..]);
    } else {
      SubstituteKeepsAnchorChars(DropRun(s));
      DropRunKeepsAnchorChars(s);
      assert ("-" + Substitute(DropRun(s)))[1..] == Substitute(DropRun(s));
    }
  }

  /** A run of dashes holds no anchor character. */
  lemma {:induction false} DashesKeepNoAnchorChars(d: string)
    requires forall i :: 0 <= i < |d| ==> d[i] == '-'
    ensures AnchorChars(d) == []
  {
    if d != [] {
      DashesKeepNoAnchorChars(d[1..]);
    }
  }

  lemma LStripDashKeepsAnchorChars(s: string)
    ensures AnchorChars(LStripChar(s, '-')) == AnchorChars(s)
  {
    var r := LStripChar(s, '-');
    var d := s[..|s| - |r|];
    assert s == d + r;
    Seqs.FilterAppend(d, r, IsAnchorChar);
    DashesKeepNoAnchorChars(d);
  }

  lemma RStripDashKeepsAnchorChars(s: string)
    ensures AnchorChars(RStripChar(s, '-')) == AnchorChars(s)
  {
    var r := RStripChar(s, '-');
    var d := s[|r|..];
    assert s == r + d;
    Seqs.FilterAppend(r, d, IsAnchorChar);
    DashesKeepNoAnchorChars(d);
  }

  /** The ASCII letters and digits of the lowercased title survive, in order, and nothing else alphanumeric appears. */
  lemma AnchorKeepsAlphanumerics(title: string)
    ensures AnchorChars(SectionAnchor(title)) == AnchorChars(Lower(title))
  {
    var s := Substitute(Lower(title));
    SubstituteKeepsAnchorChars(Lower(title));
    LStripDashKeepsAnchorChars(s);
    RStripDashKeepsAnchorChars(LStripChar(s, '-'));
  }

  /** A string of slug characters with single inner dashes and no trailing dash is left as it is by the substitution. */
  lemma {:induction false} SubstituteFixesSlug(s: string)
    requires forall i :: 0 <= i < |s| ==> IsAnchorChar(s[i]) || s[i] == '-'
    requires NoDoubleDash(s)
    requires s == [] || s[|s| - 1] != '-'
    ensures Substitute(s) == s
    decreases |s|
  {
    if s == [] {
    } else if IsAnchorChar(s[0]) {
      SubstituteFixesSlug(s[1..]);
    } else {
      assert |s| >= 2 && IsAnchorChar(s[1]);
      assert DropRun(s[1..]) == s[1..];
      assert DropRun(s) == s[1..];
      SubstituteFixesSlug(s[1..]);
    }
  }

  // ---------------------------------------------------------------- the anchor as joined words

  /** The first index at or after `i` that holds a slug character, or `|s|`. */
  function SkipOther(s: string, i: nat): (j: nat)
    requires i <= |s|
    ensures i <= j <= |s|
    ensures forall k :: i <= k < j ==> !IsAnchorChar(s[k])
    ensures j < |s| ==> IsAnchorChar(s[j])
    decreases |s| - i
  {
    if i < |s| && !IsAnchorChar(s[i]) then SkipOther(s, i + 1) else i
  }

  /** The first index at or after `i` that holds no slug character, or `|s|`. */
  function SkipSlug(s: string, i: nat): (j: nat)
    requires i <= |s|
    ensures i <= j <= |s|
    ensures forall k :: i <= k < j ==> IsAnchorChar(s[k])
    ensures j < |s| ==> !IsAnchorChar(s[j])
    decreases |s| - i
  {
    if i < |s| && IsAnchorChar(s[i]) then SkipSlug(s, i + 1) else i
  }

  /** A non-empty run of `[a-z0-9]` characters. */
  predicate IsAnchorWord(w: string)
  {
    w != [] && forall i :: 0 <= i < |w| ==> IsAnchorChar(w[i])
  }

  /** The maximal runs of slug characters of `s` from index `i` on, in order. */
  function AnchorWordsFrom(s: string, i: nat): (ws: seq<string>)
    requires i <= |s|
    ensures forall k :: 0 <= k < |ws| ==> IsAnchorWord(ws[k])
    decreases |s| - i
  {
    var j := SkipOther(s, i);
    if j == |s| then []
    else
      var k := SkipSlug(s, j);
      assert IsAnchorWord(s[j..k]);
      [s[j..k]] + AnchorWordsFrom(s, k)
  }

  /** The maximal runs of `[a-z0-9]` characters of `s`, in order: the words the anchor is made of. */
  function AnchorWords(s: string): (ws: seq<string>)
    ensures forall k :: 0 <= k < |ws| ==> IsAnchorWord(ws[k])
  {
    AnchorWordsFrom(s, 0)
  }

  /** A run of slug characters passes through the substitution unchanged. */
  lemma {:induction false} SubstituteSlugPrefix(w: string, t: string)
    requires forall i :: 0 <= i < |w| ==> IsAnchorChar(w[i])
    ensures Substitute(w + t) == w + Substitute(t)
  {
    if w != [] {
      var u, v, st := w + t, w[1..] + t, Substitute(t);
      assert u[0] == w[0] && u[1..] == v;
      assert Substitute(u) == [w[0]] + Substitute(v);
      SubstituteSlugPrefix(w[1..], t);
      assert [w[0]] + (w[1..] + st) == ([w[0]] + w[1..]) + st;
      assert [w[0]] + w[1..] == w;
    } else {
      assert w + t == t;
    }
  }

  /** Dropping the leading run of other characters of `d + t` leaves `t`, when `t` starts with a slug character. */
  lemma {:induction false} DropRunOther(d: string, t: string)
    requires forall i :: 0 <= i < |d| ==> !IsAnchorChar(d[i])
    requires t == [] || IsAnchorChar(t[0])
    ensures DropRun(d + t) == t
  {
    if d == [] {
      assert d + t == t;
    } else {
      assert (d + t)[1..] == d[1..] + t;
      DropRunOther(d[1..], t);
    }
  }

  /** A maximal non-empty run of other characters becomes a single `-`. */
  lemma SubstituteOtherRun(d: string, t: string)
    requires d != [] && forall i :: 0 <= i < |d| ==> !IsAnchorChar(d[i])
    requires t == [] || IsAnchorChar(t[0])
    ensures Substitute(d + t) == "-" + Substitute(t)
  {
    DropRunOther(d, t);
  }

  lemma Regroup3(a: string, b: string, c: string)
    ensures a + (b + c) == a + b + c
    ensures "" + b + c == b + c
  {
  }

  lemma Regroup(a: string, b: string, c: string, d: string, e: string)
    ensures a + b + (c + d + e) == a + (b + c + d) + e
  {
  }

  /** An optional run of other characters, then one word, then the rest. */
  lemma SubstituteParts(d: string, w: string, rest: string)
    requires forall x :: 0 <= x < |d| ==> !IsAnchorChar(d[x])
    requires w != [] && forall x :: 0 <= x < |w| ==> IsAnchorChar(w[x])
    ensures Substitute(d + (w + rest)) == (if d != [] then "-" else "") + w + Substitute(rest)
  {
    SubstituteSlugPrefix(w, rest);
    if d != [] {
      SubstituteOtherRun(d, w + rest);
      Regroup3("-", w, Substitute(rest));
    } else {
      assert d + (w + rest) == w + rest;
      Regroup3("", w, Substitute(rest));
    }
  }

  /** One step of the scan: an optional run of other characters, then one word. */
  lemma SubstituteWordStep(s: string, i: nat)
    requires i <= |s| && SkipOther(s, i) < |s|
    ensures var j := SkipOther(s, i); var k := SkipSlug(s, j);
      Substitute(s[i..]) == (if i < j then "-" else "") + s[j..k] + Substitute(s[k..])
  {
    var j := SkipOther(s, i);
    var k := SkipSlug(s, j);
    var d, w, rest := s[i..j], s[j..k], s[k..];
    assert forall x :: 0 <= x < |d| ==> !IsAnchorChar(d[x]) by {
      forall x | 0 <= x < |d| ensures !IsAnchorChar(d[x]) {
        assert d[x] == s[i + x];
      }
    }
    assert forall x :: 0 <= x < |w| ==> IsAnchorChar(w[x]) by {
      forall x | 0 <= x < |w| ensures IsAnchorChar(w[x]) {
        assert w[x] == s[j + x];
      }
    }
    assert s[i..] == d + (w + rest);
    SubstituteParts(d, w, rest);
  }

  /**
   * The substitution of `s[i..]` is its slug words joined by `-`, with one more `-` in front
   * for a leading run of other characters and one at the end for a trailing run after a word.
   */
  lemma {:induction false} SubstituteFromIsJoinedWords(s: string, i: nat)
    requires i <= |s|
    ensures Substitute(s[i..]) ==
      (if i < |s| && !IsAnchorChar(s[i]) then "-" else "") + Join("-", AnchorWordsFrom(s, i)) +
      (if AnchorWordsFrom(s, i) != [] && !IsAnchorChar(s[|s| - 1]) then "-" else "")
    decreases |s| - i
  {
    var j := SkipOther(s, i);
    if j == |s| {
      if i < |s| {
        SubstituteOtherRun(s[i..], []);
        assert s[i..] + [] == s[i..];
      }
    } else {
      var k := SkipSlug(s, j);
      var w := s[j..k];
      var lead: string := if i < j then "-" else "";
      assert lead == if i < |s| && !IsAnchorChar(s[i]) then "-" else "";
      SubstituteWordStep(s, i);
      SubstituteFromIsJoinedWords(s, k);
      var sub := Substitute(s[k..]);
      var ws := AnchorWordsFrom(s, k);
      var trail: string := if !IsAnchorChar(s[|s| - 1]) then "-" else "";
      assert AnchorWordsFrom(s, i) == [w] + ws;
      var joined := Join("-", [w] + ws);
      if ws == [] {
        assert joined == w;
        if k < |s| {
          assert !IsAnchorChar(s[|s| - 1]);
          assert sub == "-";
        } else {
          assert s[k..] == [];
          assert IsAnchorChar(s[|s| - 1]);
        }
        assert sub == trail;
        assert Substitute(s[i..]) == lead + joined + trail;
      } else {
        var rest := Join("-", ws);
        assert ([w] + ws)[1..] == ws;
        assert joined == w + "-" + rest;
        assert sub == "-" + rest + trail;
        Regroup(lead, w, "-", rest, trail);
      }
    }
  }

  /** `Substitute` in terms of words: the whole string. */
  lemma SubstituteIsJoinedWords(s: string)
    ensures Substitute(s) ==
      (if s != [] && !IsAnchorChar(s[0]) then "-" else "") + Join("-", AnchorWords(s)) +
      (if AnchorWords(s) != [] && !IsAnchorChar(s[|s| - 1]) then "-" else "")
  {
    assert s[0..] == s;
    SubstituteFromIsJoinedWords(s, 0);
  }

  /** Slug words joined by `-` start and end with a slug character. */
  lemma {:induction false} JoinedWordsEnds(ws: seq<string>)
    requires ws != [] && forall k :: 0 <= k < |ws| ==> IsAnchorWord(ws[k])
    ensures var j := Join("-", ws); j != [] && IsAnchorChar(j[0]) && IsAnchorChar(j[|j| - 1])
  {
    if |ws| > 1 {
      JoinedWordsEnds(ws[1..]);
    }
  }

  /** Stripping the dashes around words joined by `-` leaves the joined words. */
  lemma StripDashesAround(lead: string, j: string, trail: string)
    requires lead == "" || lead == "-"
    requires trail == "" || trail == "-"
    requires j == [] ==> trail == ""
    requires j != [] ==> IsAnchorChar(j[0]) && IsAnchorChar(j[|j| - 1])
    ensures RStripChar(LStripChar(lead + j + trail, '-'), '-') == j
  {
    var x := lead + j + trail;
    if j == [] {
      assert x == lead;
      assert SkipChar(x, |x|, '-') == |x|;
      assert LStripChar(x, '-') == [];
    } else {
      assert x[|lead|] == j[0];
      assert SkipChar(x, |lead|, '-') == |lead|;
      assert SkipChar(x, 0, '-') == |lead|;
      var l := LStripChar(x, '-');
      assert l == j + trail;
      assert l[|j| - 1] == j[|j| - 1];
      assert TrimCharEnd(l, |j|, '-') == |j|;
      assert TrimCharEnd(l, |l|, '-') == |j|;
      assert l[..|j|] == j;
    }
  }

  /**
   * The anchor is the lowercased title's maximal runs of `[a-z0-9]`, joined by single
   * dashes: every run of other characters between two words becomes one `-`, and runs at
   * either end vanish.
   */
  lemma SectionAnchorWords(title: string)
    ensures SectionAnchor(title) == Join("-", AnchorWords(Lower(title)))
  {
    var s := Lower(title);
    var ws := AnchorWords(s);
    SubstituteIsJoinedWords(s);
    if ws != [] {
      JoinedWordsEnds(ws);
    }
    StripDashesAround(if s != [] && !IsAnchorChar(s[0]) then "-" else "", Join("-", ws),
                      if ws != [] && !IsAnchorChar(s[|s| - 1]) then "-" else "");
  }

  /** Computing the anchor of an anchor gives it back unchanged. */
  lemma AnchorIdempotent(title: string)
    ensures SectionAnchor(SectionAnchor(title)) == SectionAnchor(title)
  {
    var a := SectionAnchor(title);
    AnchorAlphabet(title);
    AnchorShape(title);
    assert Lower(a) == a;
    SubstituteFixesSlug(a);
    assert LStripChar(a, '-') == a;
    assert RStripChar(a, '-') == a;
  }

  /**
   * `Memory.from_raw`: the id and the timestamp come from `uuid4()` and the clock,
   * passed in here.
   */
  function FromRaw(raw: RawMemoryInput, project: string, filePath: string, id: string, now: string): (m: Memory)
    ensures m.id == id && m.project == project && m.filePath == filePath
    ensures m.title == raw.title && m.what == raw.what && m.why == raw.why && m.impact == raw.impact
    ensures m.tags == raw.tags && m.category == raw.category && m.source == raw.source
    ensures m.relatedFiles == raw.relatedFiles
    ensures m.sectionAnchor == SectionAnchor(raw.title)
    ensures m.createdAt == m.updatedAt == now
  {
    Memory(id, raw.title, raw.what, raw.why, raw.impact, raw.tags, raw.category, project,
           raw.source, raw.relatedFiles, filePath, SectionAnchor(raw.title), now, now)
  }
}

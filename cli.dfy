/**
 * The command-line helpers: comma-separated list options, API-key redaction for
 * `config`, agent config-directory resolution, the `sessions` listing, and the
 * pointer lines `context` prints.
 */
module Cli {
  import opened Wrappers
  import opened Text
  import Seqs

  // ---------------------------------------------------------------- comma-separated options

  /** The stripped, non-blank pieces, in order. */
  function Pieces(ps: seq<string>): (r: seq<string>)
    ensures |r| <= |ps|
  {
    if ps == [] then []
    else
      var last := Strip(ps[|ps| - 1]);
      Pieces(ps[..|ps| - 1]) + (if last != "" then [last] else [])
  }

  /** `[t.strip() for t in s.split(",") if t.strip()] if s else []`, for `--tags` and `--related-files` alike. */
  function ParseCommaList(s: string): seq<string>
  {
    if s == "" then [] else Pieces(SplitOn(s, ','))
  }

  /** A text without the character `c`. */
  predicate Free(t: string, c: char)
  {
    forall i :: 0 <= i < |t| ==> t[i] != c
  }

  /** A list item as the parser yields it: non-empty, no whitespace at either end, free of commas. */
  predicate CleanItem(t: string)
  {
    t != "" && !IsSpace(t[0]) && !IsSpace(t[|t| - 1]) && Free(t, ',')
  }

  /** A text without whitespace at either end is its own strip. */
  lemma StripClean(t: string)
    requires t == "" || (!IsSpace(t[0]) && !IsSpace(t[|t| - 1]))
    ensures Strip(t) == t
  {
    assert SkipSpace(t, 0) == 0;
    assert LStrip(t) == t;
    assert TrimSpaceEnd(t, |t|) == |t|;
  }

  /** Stripping cannot introduce a character. */
  lemma StripFree(t: string, c: char)
    requires Free(t, c)
    ensures Free(Strip(t), c)
  {
    var l := LStrip(t);
    var r := RStrip(l);
    forall i | 0 <= i < |r| ensures r[i] != c {
      assert r[i] == l[i] == t[|t| - |l| + i];
    }
  }

  lemma {:induction false} PiecesClean(ps: seq<string>)
    requires forall j :: 0 <= j < |ps| ==> Free(ps[j], ',')
    ensures forall k :: 0 <= k < |Pieces(ps)| ==> CleanItem(Pieces(ps)[k])
  {
    if ps != [] {
      var init := ps[..|ps| - 1];
      PiecesClean(init);
      StripShape(ps[|ps| - 1]);
      StripFree(ps[|ps| - 1], ',');
    }
  }

  /** Every parsed item is non-empty, equals its own strip, and holds no comma. */
  lemma ParseCommaListClean(s: string)
    ensures forall k :: 0 <= k < |ParseCommaList(s)| ==> CleanItem(ParseCommaList(s)[k])
  {
    if s != "" {
      var ps := SplitOn(s, ',');
      forall j | 0 <= j < |ps| ensures Free(ps[j], ',') {
      }
      PiecesClean(ps);
    }
  }

  lemma {:induction false} SplitNoSeparator(a: string, c: char)
    requires Free(a, c)
    ensures SplitOn(a, c) == [a]
  {
    if a != [] {
      SplitNoSeparator(a[1..], c);
      assert [a[0]] + a[1..] == a;
    }
  }

  lemma {:induction false} SplitAtSeparator(a: string, b: string, c: char)
    requires Free(a, c)
    ensures SplitOn(a + [c] + b, c) == [a] + SplitOn(b, c)
  {
    var s := a + [c] + b;
    if a == [] {
      assert s[1..] == b;
    } else {
      assert s[1..] == a[1..] + [c] + b;
      SplitAtSeparator(a[1..], b, c);
      assert [a[0]] + a[1..] == a;
    }
  }

  /** Splitting a join on a separator the items do not contain gives the items back. */
  lemma {:induction false} SplitJoin(xs: seq<string>, c: char)
    requires |xs| >= 1
    requires forall k :: 0 <= k < |xs| ==> Free(xs[k], c)
    ensures SplitOn(Join([c], xs), c) == xs
  {
    if |xs| == 1 {
      SplitNoSeparator(xs[0], c);
      assert Join([c], xs) == xs[0];
    } else {
      SplitJoin(xs[1..], c);
      assert Join([c], xs) == xs[0] + [c] + Join([c], xs[1..]);
      SplitAtSeparator(xs[0], Join([c], xs[1..]), c);
      assert [xs[0]] + xs[1..] == xs;
    }
  }

  lemma {:induction false} PiecesOfClean(xs: seq<string>)
    requires forall k :: 0 <= k < |xs| ==> CleanItem(xs[k])
    ensures Pieces(xs) == xs
  {
    if xs != [] {
      var init := xs[..|xs| - 1];
      PiecesOfClean(init);
      StripClean(xs[|xs| - 1]);
      assert init + [xs[|xs| - 1]] == xs;
    }
  }

  /**
   * Parsing a comma-joined list of clean items gives the list back: the tags `context`
   * prints as `[t1,t2]` are what `--tags "t1,t2"` saved.
   */
  lemma ParseJoinRoundTrip(xs: seq<string>)
    requires forall k :: 0 <= k < |xs| ==> CleanItem(xs[k])
    ensures ParseCommaList(Join(",", xs)) == xs
  {
    if xs != [] {
      SplitJoin(xs, ',');
      PiecesOfClean(xs);
      assert Join(",", xs) != "" by {
        if |xs| > 1 {
          assert |Join(",", xs)| >= |xs[0]| + 1;
        }
      }
    }
  }

  // ---------------------------------------------------------------- `config` output

  /** A YAML/JSON value of the configuration as loaded. */
  datatype Value = Null | Bool(b: bool) | Num(n: int) | Str(s: string) | List(items: seq<Value>) | Dict(entries: map<string, Value>)

  /** Python truthiness. */
  predicate PyTruthy(v: Value)
  {
    match v
    case Null => false
    case Bool(b) => b
    case Num(n) => n != 0
    case Str(s) => s != ""
    case List(items) => items != []
    case Dict(entries) => entries != map[]
  }

  const KeySections: seq<string> := ["embedding", "enrichment"]
  const ApiKey: string := "api_key"
  const RedactedMark: string := "<redacted>"

  /** A section whose `api_key` `_redact_api_keys` replaces. */
  predicate HasSecret(v: Value)
  {
    v.Dict? && ApiKey in v.entries && PyTruthy(v.entries[ApiKey])
  }

  /** The sections `_redact_api_keys` rewrites, and how. */
  function RedactedConfig(data: map<string, Value>): (r: map<string, Value>)
  {
    map k | k in data :: if k in KeySections && HasSecret(data[k]) then Dict(data[k].entries[ApiKey := Str(RedactedMark)]) else data[k]
  }

  /**
   * Only the `api_key` of a dictionary-valued `embedding` or `enrichment` section with a
   * truthy key is replaced; every other key and value, in the section and outside it,
   * is unchanged.
   */
  lemma RedactedConfigShape(data: map<string, Value>)
    ensures var r := RedactedConfig(data);
      r.Keys == data.Keys &&
      (forall k :: k in data && !(k in KeySections && HasSecret(data[k])) ==> r[k] == data[k]) &&
      (forall k :: k in data && k in KeySections && HasSecret(data[k]) ==>
        r[k].Dict? && r[k].entries.Keys == data[k].entries.Keys && r[k].entries[ApiKey] == Str(RedactedMark) &&
        forall f :: f in data[k].entries && f != ApiKey ==> r[k].entries[f] == data[k].entries[f])
  {
  }

  /** Redacting a redacted configuration changes nothing more. */
  lemma RedactedConfigIdempotent(data: map<string, Value>)
    ensures RedactedConfig(RedactedConfig(data)) == RedactedConfig(data)
  {
    var r := RedactedConfig(data);
    forall k | k in r ensures RedactedConfig(r)[k] == r[k] {
      if k in KeySections && HasSecret(data[k]) {
        assert r[k].entries[ApiKey := Str(RedactedMark)] == r[k].entries;
      }
    }
  }

  /** `_redact_api_keys`: the loop over the two sections, rewriting the dictionary. */
  method RedactApiKeys(data: map<string, Value>) returns (r: map<string, Value>)
    ensures r == RedactedConfig(data)
  {
    r := data;
    var i := 0;
    while i < |KeySections|
      invariant 0 <= i <= |KeySections|
      invariant r.Keys == data.Keys
      invariant forall k :: k in data ==>
        r[k] == if k in KeySections[..i] && HasSecret(data[k]) then Dict(data[k].entries[ApiKey := Str(RedactedMark)]) else data[k]
    {
      var section := KeySections[i];
      if section in r && HasSecret(r[section]) {
        var config := r[section];
        r := r[section := Dict(config.entries[ApiKey := Str(RedactedMark)])];
      }
      i := i + 1;
    }
    assert KeySections[..i] == KeySections;
  }

  // ---------------------------------------------------------------- agent config directories

  /** `os.path.join(a, b)` for two parts. */
  function PathJoin(a: string, b: string): string
  {
    if b != "" && b[0] == '/' then b
    else if a == "" || a[|a| - 1] == '/' then a + b
    else a + "/" + b
  }

  /**
   * `_resolve_config_dir`: an explicit, non-empty `--config-dir` wins; otherwise the
   * agent's dot-directory under the working directory for `--project`, else under home.
   */
  function ResolveConfigDir(agentDotDir: string, configDir: Option<string>, project: bool, cwd: string, home: string): (r: string)
    ensures Truthy(configDir) ==> r == configDir.value
    ensures !Truthy(configDir) ==> r == PathJoin(if project then cwd else home, agentDotDir)
  {
    if Truthy(configDir) then configDir.value
    else if project then PathJoin(cwd, agentDotDir)
    else PathJoin(home, agentDotDir)
  }

  /** A relative dot-directory lands directly inside the chosen base directory. */
  lemma ResolveConfigDirUnder(agentDotDir: string, project: bool, cwd: string, home: string)
    requires agentDotDir != "" && agentDotDir[0] != '/'
    ensures var base := if project then cwd else home;
      var r := ResolveConfigDir(agentDotDir, None, project, cwd, home);
      |base| <= |r| && r[..|base|] == base && EndsWith(r, agentDotDir)
  {
  }

  // ---------------------------------------------------------------- `sessions`

  /** A vault entry: its name, whether it is a directory, and the file names inside it. */
  datatype DirEntry = DirEntry(name: string, isDir: bool, files: seq<string>)

  const SessionSuffix: string := "-session.md"

  const ByName: (DirEntry, DirEntry) -> bool := (a: DirEntry, b: DirEntry) => StrLe(a.name, b.name)
  const Descending: (string, string) -> bool := (a: string, b: string) => StrLe(b, a)

  /** A session-file name. */
  predicate IsSessionFile(f: string)
  {
    EndsWith(f, SessionSuffix)
  }

  /** A vault entry the listing looks inside: a directory, not hidden, and the requested project if any. */
  predicate Listed(e: DirEntry, project: Option<string>)
  {
    e.isDir && !(e.name != "" && e.name[0] == '.') && !(Truthy(project) && e.name != project.value)
  }

  /** The session files of one project directory, in the order given. */
  function DirSessions(name: string, files: seq<string>): (r: seq<(string, string)>)
    ensures forall k :: 0 <= k < |r| ==> r[k].0 == name && r[k].1 in files && IsSessionFile(r[k].1)
    ensures forall f :: f in files && IsSessionFile(f) ==> (name, f) in r
  {
    if files == [] then []
    else
      var f := files[|files| - 1];
      DirSessions(name, files[..|files| - 1]) + (if IsSessionFile(f) then [(name, f)] else [])
  }

  /** The session files of the listed project directories, directory by directory. */
  function CollectSessions(dirs: seq<DirEntry>, project: Option<string>): seq<(string, string)>
  {
    if dirs == [] then []
    else
      var e := dirs[|dirs| - 1];
      CollectSessions(dirs[..|dirs| - 1], project) +
      (if Listed(e, project) then DirSessions(e.name, Seqs.SortBy(e.files, Descending)) else [])
  }

  /** `session_files` as `sessions` builds it: directories by name, files by reverse name. */
  function SessionFiles(vaultExists: bool, entries: seq<DirEntry>, project: Option<string>): seq<(string, string)>
  {
    if vaultExists then CollectSessions(Seqs.SortBy(entries, ByName), project) else []
  }

  /**
   * A listed pair names a non-hidden project directory that passes the filter and one of
   * its files that ends in `-session.md`; and every such file is listed.
   */
  lemma {:induction false} CollectSessionsMembers(dirs: seq<DirEntry>, project: Option<string>, p: string, f: string)
    ensures (p, f) in CollectSessions(dirs, project) <==>
      exists k :: 0 <= k < |dirs| && dirs[k].name == p && Listed(dirs[k], project) && f in dirs[k].files && IsSessionFile(f)
  {
    if dirs != [] {
      var init := dirs[..|dirs| - 1];
      var e := dirs[|dirs| - 1];
      CollectSessionsMembers(init, project, p, f);
      var r := CollectSessions(dirs, project);
      if Listed(e, project) {
        var sorted := Seqs.SortBy(e.files, Descending);
        SortedMembers(e.files, Descending, f);
        if (p, f) in DirSessions(e.name, sorted) {
          var k :| 0 <= k < |DirSessions(e.name, sorted)| && DirSessions(e.name, sorted)[k] == (p, f);
        }
      }
      if exists k :: 0 <= k < |dirs| && dirs[k].name == p && Listed(dirs[k], project) && f in dirs[k].files && IsSessionFile(f) {
        var k :| 0 <= k < |dirs| && dirs[k].name == p && Listed(dirs[k], project) && f in dirs[k].files && IsSessionFile(f);
        if k < |init| {
          assert init[k] == dirs[k];
        }
      }
      if exists k :: 0 <= k < |init| && init[k].name == p && Listed(init[k], project) && f in init[k].files && IsSessionFile(f) {
        var k :| 0 <= k < |init| && init[k].name == p && Listed(init[k], project) && f in init[k].files && IsSessionFile(f);
        assert dirs[k] == init[k];
      }
    }
  }

  lemma SortedMembers<T>(s: seq<T>, before: (T, T) -> bool, x: T)
    ensures x in Seqs.SortBy(s, before) <==> x in s
  {
    assert x in multiset(Seqs.SortBy(s, before)) <==> x in multiset(s);
  }

  lemma SessionFilesMembers(vaultExists: bool, entries: seq<DirEntry>, project: Option<string>, p: string, f: string)
    ensures (p, f) in SessionFiles(vaultExists, entries, project) <==>
      vaultExists && exists e :: e in entries && e.name == p && Listed(e, project) && f in e.files && IsSessionFile(f)
  {
    if vaultExists {
      var dirs := Seqs.SortBy(entries, ByName);
      CollectSessionsMembers(dirs, project, p, f);
      forall k | 0 <= k < |dirs| && dirs[k].name == p && Listed(dirs[k], project) && f in dirs[k].files && IsSessionFile(f)
        ensures dirs[k] in entries
      {
        SortedMembers(entries, ByName, dirs[k]);
      }
      forall e | e in entries && e.name == p && Listed(e, project) && f in e.files && IsSessionFile(f)
        ensures exists k :: 0 <= k < |dirs| && dirs[k] == e
      {
        SortedMembers(entries, ByName, e);
      }
    }
  }

  /** The file names of the pairs come in reverse name order. */
  predicate NewestFirst(r: seq<(string, string)>)
  {
    forall i, j :: 0 <= i < j < |r| ==> StrLe(r[j].1, r[i].1)
  }

  /** Within one directory the session files come in reverse name order. */
  lemma {:induction false} DirSessionsOrder(name: string, files: seq<string>)
    requires Seqs.Sorted(files, Descending)
    ensures NewestFirst(DirSessions(name, files))
  {
    if files != [] {
      var init := files[..|files| - 1];
      DirSessionsOrder(name, init);
      var r := DirSessions(name, files);
      var a := DirSessions(name, init);
      var last := files[|files| - 1];
      assert NewestFirst(a);
      assert r == a + (if IsSessionFile(last) then [(name, last)] else []);
      forall i, j | 0 <= i < j < |r| ensures StrLe(r[j].1, r[i].1) {
        if j >= |a| {
          assert r[j] == (name, last) && r[i] == a[i];
          assert a[i].1 in init;
          var m :| 0 <= m < |init| && init[m] == a[i].1;
          assert files[m] == init[m];
          assert Descending(files[m], last);
          assert Descending(files[m], last) == StrLe(last, files[m]);
        } else {
          assert r[i] == a[i] && r[j] == a[j];
        }
      }
    }
  }

  lemma DescendingOrders()
    ensures Seqs.Total(Descending) && Seqs.Transitive(Descending)
  {
    forall a, b ensures Descending(a, b) || Descending(b, a) {
      StrLeTotal(a, b);
    }
    forall a, b, c | Descending(a, b) && Descending(b, c) ensures Descending(a, c) {
      StrLeTransitive(c, b, a);
    }
  }

  /** Each directory's files, once sorted for the listing, are in reverse name order. */
  lemma ListedDirOrder(e: DirEntry)
    ensures NewestFirst(DirSessions(e.name, Seqs.SortBy(e.files, Descending)))
  {
    DescendingOrders();
    Seqs.SortBySorted(e.files, Descending);
    DirSessionsOrder(e.name, Seqs.SortBy(e.files, Descending));
  }

  /** The outer loop of `sessions`: the directories in name order, skipping those not listed. */
  method ListSessions(vaultExists: bool, entries: seq<DirEntry>, project: Option<string>)
    returns (sessionFiles: seq<(string, string)>)
    ensures sessionFiles == SessionFiles(vaultExists, entries, project)
  {
    sessionFiles := [];
    if !vaultExists {
      return;
    }
    var dirs := Seqs.SortBy(entries, ByName);
    var i := 0;
    while i < |dirs|
      invariant 0 <= i <= |dirs|
      invariant sessionFiles == CollectSessions(dirs[..i], project)
    {
      var e := dirs[i];
      assert dirs[..i + 1][..i] == dirs[..i] && dirs[..i + 1][i] == e;
      if !e.isDir || (e.name != "" && e.name[0] == '.') {
        i := i + 1;
        continue;
      }
      if Truthy(project) && e.name != project.value {
        i := i + 1;
        continue;
      }
      var found := ScanSessionFiles(e.name, Seqs.SortBy(e.files, Descending));
      sessionFiles := sessionFiles + found;
      i := i + 1;
    }
    assert dirs[..i] == dirs;
  }

  /** The inner loop of `sessions`: the session files of one directory, in the order given. */
  method ScanSessionFiles(name: string, files: seq<string>) returns (found: seq<(string, string)>)
    ensures found == DirSessions(name, files)
  {
    found := [];
    var j := 0;
    while j < |files|
      invariant 0 <= j <= |files|
      invariant found == DirSessions(name, files[..j])
    {
      assert files[..j + 1][..j] == files[..j] && files[..j + 1][j] == files[j];
      if EndsWith(files[j], SessionSuffix) {
        found := found + [(name, files[j])];
      }
      j := j + 1;
    }
    assert files[..j] == files;
  }

  /** `fname.replace("-session.md", "")`. */
  function SessionDate(fname: string): string
  {
    RemoveAll(fname, SessionSuffix)
  }

  /**
   * The date `sessions` shows is the date the session file was named after, for any
   * date text without an `s` (ISO dates have none).
   */
  lemma {:induction false} SessionDateRoundTrip(d: string)
    requires forall i :: 0 <= i < |d| ==> d[i] != 's'
    ensures SessionDate(d + SessionSuffix) == d
  {
    var s := d + SessionSuffix;
    if d == [] {
      assert s == SessionSuffix;
      assert s[..|SessionSuffix|] == SessionSuffix;
      assert s[|SessionSuffix|..] == [];
    } else {
      assert s[1..] == d[1..] + SessionSuffix;
      assert s[..|SessionSuffix|] != SessionSuffix by {
        assert s[..|SessionSuffix|][1] == s[1];
        if |d| > 1 {
          assert s[1] == d[1];
        } else {
          assert s[1] == SessionSuffix[0];
        }
      }
      SessionDateRoundTrip(d[1..]);
      assert [d[0]] + d[1..] == d;
    }
  }

  /** What `sessions` prints: a notice, or a header and one `date | project` line per file up to `limit`. */
  function SessionLines(sessionFiles: seq<(string, string)>, limit: int): (r: seq<string>)
    ensures sessionFiles == [] ==> r == ["No sessions found."]
    ensures sessionFiles != [] ==>
      |r| == 1 + |Seqs.PySlice(sessionFiles, limit)| && r[0] == "\nSessions:" &&
      forall k :: 1 <= k < |r| ==>
        r[k] == "  " + SessionDate(sessionFiles[k - 1].1) + " | " + sessionFiles[k - 1].0
  {
    if sessionFiles == [] then ["No sessions found."]
    else ["\nSessions:"] + DateLines(Seqs.PySlice(sessionFiles, limit))
  }

  function DateLines(files: seq<(string, string)>): (r: seq<string>)
    ensures |r| == |files| && forall k :: 0 <= k < |files| ==> r[k] == "  " + SessionDate(files[k].1) + " | " + files[k].0
  {
    if files == [] then [] else DateLines(files[..|files| - 1]) + ["  " + SessionDate(files[|files| - 1].1) + " | " + files[|files| - 1].0]
  }

  // ---------------------------------------------------------------- `context` pointer lines

  function CategoryPart(cat: string): string
  {
    if cat != "" then " [" + cat + "]" else ""
  }

  function TagsPart(tags: seq<string>): string
  {
    if tags != [] then " [" + Join(",", tags) + "]" else ""
  }

  /** `f"- [{date_display}] {title}{cat_part}{tags_part}"`. */
  function PointerLine(dateDisplay: string, title: string, cat: string, tags: seq<string>): string
  {
    "- [" + dateDisplay + "] " + title + CategoryPart(cat) + TagsPart(tags)
  }

  /** The category is shown, bracketed, only when non-empty, and the tags only when the list is non-empty. */
  lemma PointerLineParts(dateDisplay: string, title: string, cat: string, tags: seq<string>)
    ensures tags == [] ==> PointerLine(dateDisplay, title, cat, tags) == "- [" + dateDisplay + "] " + title + CategoryPart(cat)
    ensures cat == "" ==> CategoryPart(cat) == ""
    ensures cat != "" ==> CategoryPart(cat) == " [" + cat + "]"
    ensures tags != [] ==> EndsWith(PointerLine(dateDisplay, title, cat, tags), " [" + Join(",", tags) + "]")
  {
    if tags != [] {
      var tail := " [" + Join(",", tags) + "]";
      var r := PointerLine(dateDisplay, title, cat, tags);
      var pre := "- [" + dateDisplay + "] " + title + CategoryPart(cat);
      assert r == pre + tail;
      assert r[|r| - |tail|..] == tail;
    }
  }

  /** A pointer line with tags ends in the joined tags and a closing bracket. */
  lemma PointerLineTail(dateDisplay: string, title: string, cat: string, tags: seq<string>)
    requires tags != []
    ensures var r := PointerLine(dateDisplay, title, cat, tags);
      var j := Join(",", tags);
      |j| + 2 <= |r| && r[|r| - |j| - 1..|r| - 1] == j
  {
    var pre := "- [" + dateDisplay + "] " + title + CategoryPart(cat) + " [";
    var j := Join(",", tags);
    var r := PointerLine(dateDisplay, title, cat, tags);
    assert TagsPart(tags) == " [" + j + "]";
    assert r == pre + j + "]";
    assert r[|pre|..|r| - 1] == j;
  }

  /** The bracketed tags at the end of a pointer line parse back to the tag list when the tags are clean. */
  lemma PointerLineTags(dateDisplay: string, title: string, cat: string, tags: seq<string>)
    requires tags != []
    requires forall k :: 0 <= k < |tags| ==> CleanItem(tags[k])
    ensures var r := PointerLine(dateDisplay, title, cat, tags);
      var n := |Join(",", tags)|;
      n + 2 <= |r| && ParseCommaList(r[|r| - n - 1..|r| - 1]) == tags
  {
    PointerLineTail(dateDisplay, title, cat, tags);
    ParseJoinRoundTrip(tags);
  }
}

/**
 * Agent setup: the edits `setup` and `uninstall` make to the agents' JSON settings
 * (legacy hook removal, the `mcpServers.echovault` entry) and to Codex's AGENTS.md.
 * A settings file is modelled by the keys these edits touch; every other key is left
 * alone by them.
 */
module Setup {
  import opened Wrappers
  import opened Text
  import Seqs

  // ---------------------------------------------------------------- settings values

  /** A hook entry; `command` is None when the key is missing. */
  datatype Hook = Hook(command: Option<string>)

  /** `h.get("command", "")`. */
  function CommandOf(h: Hook): string
  {
    if h.command.Some? then h.command.value else ""
  }

  /** A Claude hook group: its `hooks` list (missing counts as empty) and its matcher. */
  datatype Group = Group(matcher: Option<string>, hooks: seq<Hook>)

  /** One key of a `hooks` dictionary with its list, in the dictionary's key order. */
  datatype Event<T> = Event(name: string, entries: seq<T>)

  /** An MCP server entry. */
  datatype Server = Server(command: string, args: seq<string>, kind: string)

  const McpConfig: Server := Server("memory", ["mcp"], "stdio")
  const ServerKey: string := "echovault"
  const MemoryFragments: seq<string> := ["memory context", "memory auto-save"]

  /** A hook that runs a legacy EchoVault command. */
  predicate IsMemoryHook(h: Hook)
  {
    exists f :: f in MemoryFragments && Contains(CommandOf(h), f)
  }

  /** `_remove_old_hooks` keeps a group none of whose hooks is a legacy memory hook. */
  predicate KeepGroup(g: Group)
  {
    forall h :: h in g.hooks ==> !IsMemoryHook(h)
  }

  /** Cursor's `hooks.json` keeps a hook that does not run `memory context`. */
  predicate KeepCursorHook(h: Hook)
  {
    !Contains(CommandOf(h), "memory context")
  }

  // ---------------------------------------------------------------- pruning legacy hooks

  /**
   * The `hooks` dictionary after the loop: an event that loses nothing keeps its list,
   * one that loses some entries keeps the rest, and one that loses all is deleted.
   */
  function Pruned<T>(events: seq<Event<T>>, keep: T -> bool): seq<Event<T>>
  {
    if events == [] then []
    else
      var init := Pruned(events[..|events| - 1], keep);
      var e := events[|events| - 1];
      var f := Seqs.Filter(e.entries, keep);
      if |f| == |e.entries| then init + [e]
      else if f != [] then init + [Event(e.name, f)]
      else init
  }

  /** The names of the events that lost an entry, in key order. */
  function PrunedNames<T>(events: seq<Event<T>>, keep: T -> bool): seq<string>
  {
    if events == [] then []
    else
      var init := PrunedNames(events[..|events| - 1], keep);
      var e := events[|events| - 1];
      if |Seqs.Filter(e.entries, keep)| == |e.entries| then init else init + [e.name]
  }

  /** An event loses an entry exactly when one of its entries fails `keep`. */
  ghost predicate LosesEntry<T>(e: Event<T>, keep: T -> bool)
  {
    exists x :: x in e.entries && !keep(x)
  }

  lemma LosesEntryIff<T>(e: Event<T>, keep: T -> bool)
    ensures LosesEntry(e, keep) <==> |Seqs.Filter(e.entries, keep)| != |e.entries|
  {
    Seqs.FilterAllKept(e.entries, keep);
    if LosesEntry(e, keep) {
      var x :| x in e.entries && !keep(x);
      if |Seqs.Filter(e.entries, keep)| == |e.entries| {
        FilterSameLength(e.entries, keep);
      }
    }
  }

  lemma {:induction false} FilterSameLength<T>(s: seq<T>, p: T -> bool)
    requires |Seqs.Filter(s, p)| == |s|
    ensures Seqs.Filter(s, p) == s
  {
    if s != [] {
      if p(s[0]) {
        FilterSameLength(s[1..], p);
      }
    }
  }

  /**
   * `_remove_old_hooks` returns exactly the names of the events from which something
   * was removed.
   */
  lemma {:induction false} PrunedNamesIff<T>(events: seq<Event<T>>, keep: T -> bool, n: string)
    ensures n in PrunedNames(events, keep) <==>
      exists k :: 0 <= k < |events| && events[k].name == n && LosesEntry(events[k], keep)
  {
    if events != [] {
      var init := events[..|events| - 1];
      var e := events[|events| - 1];
      PrunedNamesIff(init, keep, n);
      LosesEntryIff(e, keep);
      if exists k :: 0 <= k < |events| && events[k].name == n && LosesEntry(events[k], keep) {
        var k :| 0 <= k < |events| && events[k].name == n && LosesEntry(events[k], keep);
        if k < |init| {
          assert init[k] == events[k];
        }
      }
      if exists k :: 0 <= k < |init| && init[k].name == n && LosesEntry(init[k], keep) {
        var k :| 0 <= k < |init| && init[k].name == n && LosesEntry(init[k], keep);
        assert events[k] == init[k];
      }
    }
  }

  /**
   * After pruning every entry passes `keep`, and only an event that was empty to begin
   * with stays empty.
   */
  lemma {:induction false} PrunedKeepsOnly<T>(events: seq<Event<T>>, keep: T -> bool)
    ensures forall e :: e in Pruned(events, keep) ==>
      (forall x :: x in e.entries ==> keep(x)) && (e.entries == [] ==> e in events)
  {
    if events != [] {
      var init := events[..|events| - 1];
      var e := events[|events| - 1];
      PrunedKeepsOnly(init, keep);
      if |Seqs.Filter(e.entries, keep)| == |e.entries| {
        FilterSameLength(e.entries, keep);
      }
      forall d | d in Pruned(init, keep) ensures d in init ==> d in events {
      }
    }
  }

  /** Each remaining event is an input event with its list filtered, entries in their input order. */
  lemma {:induction false} PrunedOrigin<T>(events: seq<Event<T>>, keep: T -> bool, d: Event<T>)
    requires d in Pruned(events, keep)
    ensures exists k :: 0 <= k < |events| && events[k].name == d.name && d.entries == Seqs.Filter(events[k].entries, keep)
  {
    var init := events[..|events| - 1];
    var e := events[|events| - 1];
    var f := Seqs.Filter(e.entries, keep);
    if d in Pruned(init, keep) {
      PrunedOrigin(init, keep, d);
      var k :| 0 <= k < |init| && init[k].name == d.name && d.entries == Seqs.Filter(init[k].entries, keep);
      assert events[k] == init[k];
    } else {
      if |f| == |e.entries| {
        FilterSameLength(e.entries, keep);
      }
      assert events[|events| - 1].name == d.name && d.entries == f;
    }
  }

  /**
   * The input positions the pruned events come from: one per remaining event, strictly
   * increasing, so the events that stay keep their key order.
   */
  function PrunedSources<T>(events: seq<Event<T>>, keep: T -> bool): (ks: seq<nat>)
    ensures |ks| == |Pruned(events, keep)|
    ensures forall i :: 0 <= i < |ks| ==>
      (ks[i] < |events| &&
       Pruned(events, keep)[i].name == events[ks[i]].name &&
       Pruned(events, keep)[i].entries == Seqs.Filter(events[ks[i]].entries, keep))
    ensures forall i, j :: 0 <= i < j < |ks| ==> ks[i] < ks[j]
  {
    if events == [] then []
    else
      var init := PrunedSources(events[..|events| - 1], keep);
      var e := events[|events| - 1];
      var f := Seqs.Filter(e.entries, keep);
      if |f| == |e.entries| then
        FilterSameLength(e.entries, keep);
        init + [|events| - 1]
      else if f != [] then init + [|events| - 1]
      else init
  }

  /** Every event with a surviving entry survives, with exactly those entries. */
  lemma {:induction false} PrunedComplete<T>(events: seq<Event<T>>, keep: T -> bool, k: nat)
    requires k < |events| && Seqs.Filter(events[k].entries, keep) != []
    ensures Event(events[k].name, Seqs.Filter(events[k].entries, keep)) in Pruned(events, keep)
  {
    var init := events[..|events| - 1];
    var e := events[|events| - 1];
    if k < |init| {
      assert events[k] == init[k];
      PrunedComplete(init, keep, k);
    } else if |Seqs.Filter(e.entries, keep)| == |e.entries| {
      FilterSameLength(e.entries, keep);
      assert e == Event(e.name, e.entries);
    }
  }

  /** A second pass finds nothing to remove and changes nothing. */
  lemma {:induction false} PrunedIdempotent<T>(events: seq<Event<T>>, keep: T -> bool)
    ensures Pruned(Pruned(events, keep), keep) == Pruned(events, keep)
    ensures PrunedNames(Pruned(events, keep), keep) == []
  {
    if events != [] {
      var init := events[..|events| - 1];
      var e := events[|events| - 1];
      var f := Seqs.Filter(e.entries, keep);
      PrunedIdempotent(init, keep);
      var p := Pruned(events, keep);
      if p != Pruned(init, keep) {
        var last := p[|p| - 1];
        assert p[..|p| - 1] == Pruned(init, keep);
        assert last.entries == Seqs.Filter(last.entries, keep) by {
          if |f| == |e.entries| {
            FilterSameLength(e.entries, keep);
          } else {
            assert forall x :: x in f ==> keep(x);
            Seqs.FilterAllKept(f, keep);
          }
        }
      }
    }
  }

  /** The loop of `_remove_old_hooks` over `list(hooks.keys())`. */
  method PruneEvents<T>(events: seq<Event<T>>, keep: T -> bool) returns (kept: seq<Event<T>>, removed: seq<string>)
    ensures kept == Pruned(events, keep) && removed == PrunedNames(events, keep)
  {
    kept := [];
    removed := [];
    var i := 0;
    while i < |events|
      invariant 0 <= i <= |events|
      invariant kept == Pruned(events[..i], keep) && removed == PrunedNames(events[..i], keep)
    {
      var e := events[i];
      assert events[..i + 1][..i] == events[..i] && events[..i + 1][i] == e;
      var filtered := Seqs.Filter(e.entries, keep);
      if |filtered| != |e.entries| {
        removed := removed + [e.name];
        if filtered != [] {
          kept := kept + [Event(e.name, filtered)];
        }
      } else {
        kept := kept + [e];
      }
      i := i + 1;
    }
    assert events[..i] == events;
  }

  /** The `hooks` key after `_remove_old_hooks`: deleted when no event remains. */
  function HooksAfter(hooks: Option<seq<Event<Group>>>): Option<seq<Event<Group>>>
  {
    if hooks.None? then None
    else
      var kept := Pruned(hooks.value, KeepGroup);
      if kept == [] then None else Some(kept)
  }

  function RemovedEvents(hooks: Option<seq<Event<Group>>>): seq<string>
  {
    if hooks.None? then [] else PrunedNames(hooks.value, KeepGroup)
  }

  /** Calling `_remove_old_hooks` a second time returns `[]` and leaves the settings as they are. */
  lemma RemoveOldHooksIdempotent(hooks: Option<seq<Event<Group>>>)
    ensures HooksAfter(HooksAfter(hooks)) == HooksAfter(hooks)
    ensures RemovedEvents(HooksAfter(hooks)) == []
  {
    if hooks.Some? {
      PrunedIdempotent(hooks.value, KeepGroup);
    }
  }

  // ---------------------------------------------------------------- the echovault server entry

  /** `setdefault("mcpServers", {})` followed by the insert when the entry is missing. */
  function Installed(servers: Option<map<string, Server>>): map<string, Server>
  {
    var m := if servers.Some? then servers.value else map[];
    if ServerKey in m then m else m[ServerKey := McpConfig]
  }

  /** The uninstall edit: the entry removed, and `mcpServers` dropped once empty. */
  function Uninstalled(servers: Option<map<string, Server>>): Option<map<string, Server>>
  {
    if servers.Some? && ServerKey in servers.value then
      var m := servers.value - {ServerKey};
      if m == map[] then None else Some(m)
    else servers
  }

  /**
   * Setup adds the entry only when absent: an existing entry is left as it is, and no
   * other server changes.
   */
  lemma InstalledShape(servers: Option<map<string, Server>>)
    ensures var m := Installed(servers);
      ServerKey in m &&
      (servers.Some? && ServerKey in servers.value ==> m == servers.value) &&
      (servers.None? || ServerKey !in servers.value ==> m[ServerKey] == McpConfig) &&
      (forall k :: k != ServerKey ==> (k in m <==> servers.Some? && k in servers.value))
  {
  }

  /** Uninstalling after a setup that added the entry restores the servers as they were. */
  lemma UninstallUndoesInstall(servers: Option<map<string, Server>>)
    requires servers.None? || ServerKey !in servers.value
    requires servers.Some? ==> servers.value != map[]
    ensures Uninstalled(Some(Installed(servers))) == servers
  {
    var m := if servers.Some? then servers.value else map[];
    assert Installed(servers) - {ServerKey} == m;
  }

  /** Uninstall leaves no entry behind and never leaves an empty `mcpServers`. */
  lemma UninstalledShape(servers: Option<map<string, Server>>)
    ensures var u := Uninstalled(servers);
      (u.Some? ==> ServerKey !in u.value || servers == u) &&
      (u.Some? && servers.Some? ==> forall k :: k != ServerKey ==> (k in u.value <==> k in servers.value)) &&
      (servers.Some? && ServerKey in servers.value ==> u.None? || (ServerKey !in u.value && u.value != map[]))
  {
  }

  /** `f"Installed: {', '.join(installed)}"`, or "Already installed". */
  function InstallMessage(installed: seq<string>): string
  {
    if installed != [] then "Installed: " + Join(", ", installed) else "Already installed"
  }

  /** `f"Removed: {', '.join(removed)}"`, or "Nothing to remove". */
  function RemoveMessage(removed: seq<string>): string
  {
    if removed != [] then "Removed: " + Join(", ", removed) else "Nothing to remove"
  }

  /** What `setup_claude_code` lists as installed. */
  function ClaudeInstalled(hooks: Option<seq<Event<Group>>>, servers: Option<map<string, Server>>): seq<string>
  {
    var removed := RemovedEvents(hooks);
    (if removed != [] then ["removed old hooks: " + Join(", ", removed)] else []) +
    (if servers.Some? && ServerKey in servers.value then [] else ["mcpServers"])
  }

  /** A second `setup_claude_code` reports "Already installed" and changes nothing. */
  lemma SetupClaudeTwice(hooks: Option<seq<Event<Group>>>, servers: Option<map<string, Server>>)
    ensures InstallMessage(ClaudeInstalled(HooksAfter(hooks), Some(Installed(servers)))) == "Already installed"
    ensures HooksAfter(HooksAfter(hooks)) == HooksAfter(hooks)
    ensures Installed(Some(Installed(servers))) == Installed(servers)
  {
    RemoveOldHooksIdempotent(hooks);
  }

  /** The parts of a Claude settings file the setup edits touch. */
  class ClaudeSettings {
    var hooks: Option<seq<Event<Group>>>
    var mcpServers: Option<map<string, Server>>

    constructor (hooks: Option<seq<Event<Group>>>, mcpServers: Option<map<string, Server>>)
      ensures this.hooks == hooks && this.mcpServers == mcpServers
    {
      this.hooks := hooks;
      this.mcpServers := mcpServers;
    }

    /** `_remove_old_hooks(settings)`. */
    method RemoveOldHooks() returns (removed: seq<string>)
      modifies this
      ensures hooks == HooksAfter(old(hooks)) && removed == RemovedEvents(old(hooks))
      ensures mcpServers == old(mcpServers)
    {
      if hooks.None? {
        return [];
      }
      var kept;
      kept, removed := PruneEvents(hooks.value, KeepGroup);
      if kept == [] {
        hooks := None;
      } else {
        hooks := Some(kept);
      }
    }

    /** `setup_claude_code`: legacy hooks removed, the server entry added when missing. */
    method SetupClaudeCode() returns (message: string)
      modifies this
      ensures hooks == HooksAfter(old(hooks))
      ensures mcpServers == Some(Installed(old(mcpServers)))
      ensures message == InstallMessage(ClaudeInstalled(old(hooks), old(mcpServers)))
    {
      var removed := RemoveOldHooks();
      var installed: seq<string> := [];
      if removed != [] {
        installed := installed + ["removed old hooks: " + Join(", ", removed)];
      }
      var servers := if mcpServers.Some? then mcpServers.value else map[];
      if ServerKey !in servers {
        servers := servers[ServerKey := McpConfig];
        installed := installed + ["mcpServers"];
      }
      mcpServers := Some(servers);
      message := InstallMessage(installed);
    }

    /**
     * `uninstall_claude_code`: the server entry and legacy hooks removed. The file is
     * written only when something was removed; `skillRemoved` is whether the skill
     * directory existed and was deleted.
     */
    method UninstallClaudeCode(skillRemoved: bool) returns (message: string)
      modifies this
      ensures var removed := (if old(mcpServers).Some? && ServerKey in old(mcpServers).value then ["mcpServers"] else []) +
                             RemovedEvents(old(hooks)) + (if skillRemoved then ["skill"] else []);
        message == RemoveMessage(removed) &&
        (removed != [] ==> hooks == HooksAfter(old(hooks)) && mcpServers == Uninstalled(old(mcpServers))) &&
        (removed == [] ==> hooks == old(hooks) && mcpServers == old(mcpServers))
    {
      var dropServer := mcpServers.Some? && ServerKey in mcpServers.value;
      var servers := mcpServers;
      if dropServer {
        var m := mcpServers.value - {ServerKey};
        servers := if m == map[] then None else Some(m);
      }
      var newHooks := hooks;
      var names: seq<string> := [];
      if hooks.Some? {
        var kept;
        kept, names := PruneEvents(hooks.value, KeepGroup);
        newHooks := if kept == [] then None else Some(kept);
      }
      assert servers == Uninstalled(mcpServers);
      assert newHooks == HooksAfter(hooks) && names == RemovedEvents(hooks);
      var removed := (if dropServer then ["mcpServers"] else []) + names + (if skillRemoved then ["skill"] else []);
      if removed != [] {
        hooks := newHooks;
        mcpServers := servers;
      }
      message := RemoveMessage(removed);
    }
  }

  // ---------------------------------------------------------------- Cursor

  /** `f"removed old hook: {event}"` for each event. */
  function HookNotes(names: seq<string>): (r: seq<string>)
    ensures |r| == |names| && forall k :: 0 <= k < |names| ==> r[k] == "removed old hook: " + names[k]
  {
    if names == [] then [] else HookNotes(names[..|names| - 1]) + ["removed old hook: " + names[|names| - 1]]
  }

  /** Cursor's `mcp.json` servers and its legacy `hooks.json` (None when that file does not exist). */
  class CursorSettings {
    var mcpServers: Option<map<string, Server>>
    var hooksFile: Option<seq<Event<Hook>>>

    constructor (mcpServers: Option<map<string, Server>>, hooksFile: Option<seq<Event<Hook>>>)
      ensures this.mcpServers == mcpServers && this.hooksFile == hooksFile
    {
      this.mcpServers := mcpServers;
      this.hooksFile := hooksFile;
    }

    /**
     * `setup_cursor`: legacy `memory context` hooks pruned from `hooks.json` when it
     * exists (an emptied `hooks` key stays), and the server entry added when missing.
     */
    method SetupCursor() returns (message: string)
      modifies this
      ensures hooksFile == CursorHooksAfter(old(hooksFile))
      ensures mcpServers == Some(Installed(old(mcpServers)))
      ensures message == InstallMessage(HookNotes(CursorRemoved(old(hooksFile))) + (if HasServer(old(mcpServers)) then [] else ["mcpServers"]))
    {
      var notes: seq<string> := [];
      if hooksFile.Some? {
        var kept, names := PruneEvents(hooksFile.value, KeepCursorHook);
        notes := HookNotes(names);
        hooksFile := Some(kept);
      }
      var servers := if mcpServers.Some? then mcpServers.value else map[];
      var added: seq<string> := [];
      if ServerKey !in servers {
        servers := servers[ServerKey := McpConfig];
        added := ["mcpServers"];
      }
      mcpServers := Some(servers);
      message := InstallMessage(notes + added);
    }

    /** `uninstall_cursor`: the server entry removed, legacy hooks pruned, the skill reported. */
    method UninstallCursor(skillRemoved: bool) returns (message: string)
      modifies this
      ensures mcpServers == Uninstalled(old(mcpServers))
      ensures hooksFile == CursorHooksAfter(old(hooksFile))
      ensures message == RemoveMessage((if HasServer(old(mcpServers)) then ["mcpServers"] else []) +
                                       CursorRemoved(old(hooksFile)) + (if skillRemoved then ["skill"] else []))
    {
      var dropped: seq<string> := [];
      if mcpServers.Some? && ServerKey in mcpServers.value {
        var m := mcpServers.value - {ServerKey};
        dropped := ["mcpServers"];
        mcpServers := if m == map[] then None else Some(m);
      }
      var names: seq<string> := [];
      if hooksFile.Some? {
        var kept;
        kept, names := PruneEvents(hooksFile.value, KeepCursorHook);
        hooksFile := Some(kept);
      }
      message := RemoveMessage(dropped + names + (if skillRemoved then ["skill"] else []));
    }
  }

  predicate HasServer(servers: Option<map<string, Server>>)
  {
    servers.Some? && ServerKey in servers.value
  }

  /** Cursor's `hooks.json` after pruning; an emptied `hooks` key stays. */
  function CursorHooksAfter(hooksFile: Option<seq<Event<Hook>>>): Option<seq<Event<Hook>>>
  {
    if hooksFile.Some? then Some(Pruned(hooksFile.value, KeepCursorHook)) else None
  }

  function CursorRemoved(hooksFile: Option<seq<Event<Hook>>>): seq<string>
  {
    if hooksFile.Some? then PrunedNames(hooksFile.value, KeepCursorHook) else []
  }

  // ---------------------------------------------------------------- Codex

  const CodexMarker: string := "## EchoVault"

  /** The appended AGENTS.md section: a blank line, its heading, then `body`. */
  function CodexSection(body: string): string
  {
    "\n" + CodexMarker + " — Persistent Memory\n" + body
  }

  /** The new AGENTS.md text (None: the file is not written) and the message. */
  datatype CodexResult = CodexResult(content: Option<string>, message: string)

  /**
   * `setup_codex` on the current AGENTS.md text (empty when the file is missing).
   * `skillInstalled` is whether the skill file was newly written, `note` the fixed
   * remark appended to the message.
   */
  function SetupCodex(existing: string, body: string, skillInstalled: bool, note: string): (r: CodexResult)
  {
    if Contains(existing, CodexMarker) then CodexResult(None, "AGENTS.md already contains EchoVault section")
    else
      var installed := ["AGENTS.md"] + (if skillInstalled then ["skill"] else []);
      CodexResult(Some(RStripChar(existing, '\n') + "\n" + CodexSection(body)), "Installed: " + Join(", ", installed) + note)
  }

  /**
   * The append keeps the old text, less its trailing newlines, as a prefix, puts one
   * newline and the section after it, and leaves text that already has the section
   * untouched.
   */
  lemma SetupCodexShape(existing: string, body: string, skillInstalled: bool, note: string)
    ensures var r := SetupCodex(existing, body, skillInstalled, note);
      (r.content.None? <==> Contains(existing, CodexMarker)) &&
      (r.content.Some? ==>
        var kept := RStripChar(existing, '\n');
        |kept| < |r.content.value| && r.content.value[..|kept|] == kept &&
        r.content.value[|kept|..] == "\n" + CodexSection(body) &&
        Contains(r.content.value, CodexMarker))
  {
    var r := SetupCodex(existing, body, skillInstalled, note);
    if r.content.Some? {
      var kept := RStripChar(existing, '\n');
      var rest := " — Persistent Memory\n" + body;
      var sec := "\n" + CodexSection(body);
      assert r.content.value == kept + sec;
      assert sec == "\n\n" + CodexMarker + rest;
      assert sec[2..2 + |CodexMarker|] == CodexMarker;
      assert OccursAt(sec, CodexMarker, 2);
      ContainsInSuffix(kept, sec, CodexMarker);
    }
  }

  /** Running `setup_codex` on its own output writes nothing. */
  lemma SetupCodexIdempotent(existing: string, body: string, skillInstalled: bool, note: string)
    requires SetupCodex(existing, body, skillInstalled, note).content.Some?
    ensures SetupCodex(SetupCodex(existing, body, skillInstalled, note).content.value, body, skillInstalled, note).content.None?
  {
    SetupCodexShape(existing, body, skillInstalled, note);
  }
}

/** The install, status and uninstall commands, as they change the project's files one by one. */
module AdapterCommands {
  import opened Options
  import opened HostConfig
  import opened AdapterFiles
  import opened AdapterLifecycle
  import opened AdapterOwnership
  import opened AdapterSafety
  import opened AdapterUninstall

  class Project {
    const adapter: Adapter
    const host: Host
    var files: Files

    constructor (adapter: Adapter, host: Host, files: Files)
      ensures this.adapter == adapter && this.host == host && this.files == files
    {
      this.adapter, this.host, this.files := adapter, host, files;
    }

    /** True when every template path is free or holds something an install may replace. */
    method TargetsReplaceable() returns (ok: bool)
      requires WellFormed(adapter)
      ensures ok <==> forall p :: !BlocksTarget(adapter, host, files, p)
      ensures ok <==> !TargetConflict(adapter, host, files)
    {
      TargetConflictIs(adapter, host, files);
      hide BlocksTarget;
      var m := ReadManifest(adapter, host, files);
      ok := true;
      for i := 0 to |adapter.order|
        invariant ok <==> forall j :: 0 <= j < i && adapter.order[j] in files ==>
          adapter.order[j] in adapter.templates &&
            Replaceable(adapter, host, m, adapter.order[j], files[adapter.order[j]])
      {
        var p := adapter.order[i];
        assert p in adapter.templates;
        if p in files && !Replaceable(adapter, host, m, p, files[p]) {
          ok := false;
        }
      }
    }

    /** Unlinks owned files at obsolete paths; any other file there is a conflict. */
    method RemoveObsolete() returns (conflict: bool, removed: set<Path>)
      modifies this
      ensures files == WithoutObsolete(adapter, host, old(files))
      ensures removed == Removable(adapter, host, old(files))
      ensures conflict <==> ObsoleteConflict(adapter, host, old(files))
      ensures conflict <==> exists p :: BlocksObsolete(adapter, host, old(files), p)
      ensures forall p :: p in removed <==>
        p in old(files) && Outlived(adapter, host, old(files), p) && Ours(adapter, host, old(files), p)
    {
      hide BlocksObsolete, Outlived, Ours;
      ObsoleteConflictIs(adapter, host, files);
      forall p
        ensures p in Removable(adapter, host, files) <==>
          p in files && Outlived(adapter, host, files, p) && Ours(adapter, host, files, p)
      {
        RemovableIs(adapter, host, files, p);
      }
      var m := ReadManifest(adapter, host, files);
      var todo := ObsoletePaths(adapter, host, m);
      conflict, removed := false, {};
      ghost var all := todo;
      while todo != {}
        invariant todo <= all && files == old(files) - removed
        invariant removed == set p | p in all - todo && p in old(files) && OwnedFile(adapter, host, m, p, old(files)[p])
        invariant conflict <==>
          exists p :: p in all - todo && p in old(files) && !OwnedFile(adapter, host, m, p, old(files)[p])
        decreases todo
      {
        var p :| p in todo;
        todo := todo - {p};
        if p in files {
          if OwnedFile(adapter, host, m, p, files[p]) {
            files := files - {p};
            removed := removed + {p};
          } else {
            conflict := true;
          }
        }
      }
      assert all - {} == all;
    }

    method WriteTemplates()
      requires WellFormed(adapter)
      requires Readable(adapter, files)
      modifies this
      ensures files == WithTemplates(adapter, old(files))
    {
      hide WellFormed, WithTemplates, WithFirst, Readable, Ordered;
      ghost var before := files;
      AllTemplates(adapter, before);
      for i := 0 to |adapter.order|
        invariant files == WithFirst(adapter, before, i)
      {
        WithFirstNext(adapter, before, i);
        WriteTemplate(adapter.order[i]);
      }
    }

    method WriteTemplate(p: Path)
      requires p in adapter.templates && adapter.templates[p] != "" && (p in files ==> files[p].Text?)
      modifies this
      ensures files == old(files)[p := Text(adapter.templates[p])]
    {
      var current := if p in files then files[p].text else "";
      if current != adapter.templates[p] {
        files := files[p := Text(adapter.templates[p])];
      }
    }

    /** Merges the hook into the settings of Claude Code; false when the merge is refused. */
    method InstallHost() returns (ok: bool)
      modifies this
      ensures ok <==> WithHook(adapter, host, old(files)).Ok?
      ensures files == if ok then WithHook(adapter, host, old(files)).value else old(files)
    {
      if !IsClaude(adapter) {
        return true;
      }
      var settings := ReadSettings(adapter, host, files);
      if settings.None? {
        return false;
      }
      var updated := InstallHook(settings.value);
      if updated.Conflict? {
        return false;
      }
      files := files[adapter.settingsPath := Text(host.render(Obj(updated.value)))];
      return true;
    }

    method WriteManifest(now: string)
      requires WellFormed(adapter)
      modifies this
      ensures files == WithManifest(adapter, host, old(files), now)
    {
      var existing := ReadManifest(adapter, host, files);
      var m := NewManifest(adapter, host, existing, Entries(adapter, host, adapter.order), now);
      if existing != Some(m) {
        files := files[adapter.manifestPath := Text(host.render(Obj(m)))];
      }
    }

    method Install(now: string) returns (outcome: Outcome, status: Status)
      requires WellFormed(adapter) && Lawful(host)
      modifies this
      ensures outcome == InstallOutcome(adapter, host, old(files))
      ensures files == InstallFiles(adapter, host, old(files), now)
      ensures outcome == Done ==> status == IsInstalled
      ensures outcome == RefusedTargets <==> exists p :: BlocksTarget(adapter, host, old(files), p)
      ensures outcome == RefusedObsolete <==>
        && (exists p :: BlocksObsolete(adapter, host, old(files), p))
        && (forall p :: !BlocksTarget(adapter, host, old(files), p))
      ensures OnlyOursChanged(adapter, host, old(files), files)
    {
      InstallIsSafe(adapter, host, files, now);
      hide BlocksTarget, BlocksObsolete, OnlyOursChanged, Lawful, WellFormed, TargetConflict, ObsoleteConflict,
        SettingsPass, WithoutObsolete, WithTemplates, WithHook, WithManifest, Removable, StatusOf;
      status := NotInstalled;
      var ok := TargetsReplaceable();
      if !ok {
        return RefusedTargets, status;
      }
      var conflict, _ := RemoveObsolete();
      if conflict {
        return RefusedObsolete, status;
      }
      if !SettingsPass(adapter, host, files) {
        return RefusedSettings, status;
      }
      TargetsReadable(adapter, host, old(files));
      WriteTemplates();
      ok := InstallHost();
      if !ok {
        return RefusedMerge, status;
      }
      WriteManifest(now);
      status := ReadStatus();
      outcome := Done;
      InstallReportsInstalled(adapter, host, old(files), now);
    }

    /** Goes over the paths of the templates, of the manifest and of obsolete files still present. */
    method ReadStatus() returns (status: Status)
      ensures status == StatusOf(adapter, host, files)
    {
      hide StateOf, StatusPaths, HookContested, HookMissing, ManifestError;
      if ManifestError(adapter, host, files) {
        return Error;
      }
      var m := ReadManifest(adapter, host, files);
      var paths := StatusPaths(adapter, host, m, files);
      var todo := paths;
      var contested, needsUpdate, marked, current := false, false, false, 0;
      while todo != {}
        invariant todo <= paths
        invariant contested == AnyContested(adapter, host, m, files, paths - todo)
        invariant needsUpdate == AnyToUpdate(adapter, host, m, files, paths - todo)
        invariant marked == AnyMarked(adapter, host, m, files, paths - todo)
        invariant current == |CurrentIn(adapter, host, m, files, paths - todo)|
        decreases todo
      {
        var p :| p in todo;
        var state := StateOf(adapter, host, m, files, p);
        StatusStep(adapter, host, m, files, paths - todo, p);
        assert paths - (todo - {p}) == paths - todo + {p};
        todo := todo - {p};
        contested := contested || Contested(state);
        needsUpdate := needsUpdate || NeedsUpdating(m, state);
        marked := marked || SeenMarked(state);
        current := current + if state.Current? then 1 else 0;
      }
      assert paths - {} == paths;
      contested := contested || HookContested(adapter, host, m, files);
      needsUpdate := needsUpdate || HookMissing(adapter, host, m, files);
      status := Verdict(adapter, m.Some?, contested, needsUpdate, current, marked);
    }

    /** False when the settings cannot be read; the managed files are gone by then. */
    method Uninstall() returns (ok: bool, removed: set<Path>)
      modifies this
      ensures files == UninstallFiles(adapter, host, old(files))
      ensures removed == Uninstalled(adapter, host, old(files))
      ensures ok <==> WithoutHook(adapter, host, old(files) - removed).Ok?
    {
      var m := ReadManifest(adapter, host, files);
      var todo := ManagedPaths(adapter, host, m);
      ghost var all := todo;
      removed := {};
      while todo != {}
        invariant todo <= all && files == old(files) - removed
        invariant removed == set p |
          p in all - todo && p in old(files) && old(files)[p].Text? &&
            TakenAsOurs(adapter, host, m, p, old(files)[p].text)
        decreases todo
      {
        var p :| p in todo;
        todo := todo - {p};
        if p in files && files[p].Text? && TakenAsOurs(adapter, host, m, p, files[p].text) {
          files := files - {p};
          removed := removed + {p};
        }
      }
      assert all - {} == all;
      ok := UninstallHost();
      if ok {
        files := files - {adapter.manifestPath};
      }
    }

    method UninstallHost() returns (ok: bool)
      modifies this
      ensures ok <==> WithoutHook(adapter, host, old(files)).Ok?
      ensures files == if ok then WithoutHook(adapter, host, old(files)).value else old(files)
    {
      if !IsClaude(adapter) || adapter.settingsPath !in files {
        return true;
      }
      var settings := ReadSettings(adapter, host, files);
      if settings.None? {
        return false;
      }
      var updated := RemoveHook(settings.value);
      if updated == settings.value {
        return true;
      }
      if updated != map[] {
        files := files[adapter.settingsPath := Text(host.render(Obj(updated)))];
      } else {
        files := files - {adapter.settingsPath};
      }
      return true;
    }
  }

  ghost predicate Ordered(a: Adapter) {
    forall i :: 0 <= i < |a.order| ==> a.order[i] in a.templates && a.templates[a.order[i]] != ""
  }

  /** The files once the first n templates are in place. */
  ghost function WithFirst(a: Adapter, fs: Files, n: nat): Files
    requires n <= |a.order| && Ordered(a)
  {
    if n == 0 then fs else WithFirst(a, fs, n - 1)[a.order[n - 1] := Text(a.templates[a.order[n - 1]])]
  }

  /** Every template path that is taken can be read. */
  ghost predicate Readable(a: Adapter, fs: Files) {
    forall p :: p in a.templates && p in fs ==> fs[p].Text?
  }

  lemma WithFirstNext(a: Adapter, fs: Files, n: nat)
    requires n < |a.order| && Ordered(a)
    requires Readable(a, fs)
    ensures var p, now := a.order[n], WithFirst(a, fs, n);
      && p in a.templates && a.templates[p] != "" && (p in now ==> now[p].Text?)
      && WithFirst(a, fs, n + 1) == now[p := Text(a.templates[p])]
  {
    WithFirstAt(a, fs, n, a.order[n]);
  }

  lemma {:induction false} WithFirstAt(a: Adapter, fs: Files, n: nat, p: Path)
    requires n <= |a.order| && Ordered(a)
    ensures if exists i :: 0 <= i < n && a.order[i] == p
      then p in WithFirst(a, fs, n) && p in a.templates && WithFirst(a, fs, n)[p] == Text(a.templates[p])
      else Same(fs, WithFirst(a, fs, n), p)
  {
    if n > 0 {
      WithFirstAt(a, fs, n - 1, p);
    }
  }

  lemma AllTemplates(a: Adapter, fs: Files)
    requires WellFormed(a)
    ensures Ordered(a)
    ensures WithFirst(a, fs, 0) == fs && WithFirst(a, fs, |a.order|) == WithTemplates(a, fs)
  {
    forall p ensures Same(WithTemplates(a, fs), WithFirst(a, fs, |a.order|), p) {
      WithFirstAt(a, fs, |a.order|, p);
      assert p in a.templates <==> p in a.order;
    }
    SameEverywhere(WithTemplates(a, fs), WithFirst(a, fs, |a.order|));
  }

  /** The manifest and the settings aside, a file that is changed or gone was the adapter's own. */
  ghost predicate OnlyOursChanged(a: Adapter, h: Host, before: Files, after: Files) {
    forall p :: p in before && p != a.manifestPath && p != a.settingsPath ==>
      Same(before, after, p) || Ours(a, h, before, p)
  }

  lemma InstallIsSafe(a: Adapter, h: Host, fs: Files, now: string)
    requires WellFormed(a)
    ensures InstallOutcome(a, h, fs) == RefusedTargets <==> exists p :: BlocksTarget(a, h, fs, p)
    ensures InstallOutcome(a, h, fs) == RefusedObsolete <==>
      (exists p :: BlocksObsolete(a, h, fs, p)) && (forall p :: !BlocksTarget(a, h, fs, p))
    ensures OnlyOursChanged(a, h, fs, InstallFiles(a, h, fs, now))
  {
    hide InstallOutcome, InstallFiles, BlocksTarget, BlocksObsolete, Same, Ours;
    RefusalsAre(a, h, fs);
    forall p | p in fs && p != a.manifestPath && p != a.settingsPath
      ensures Same(fs, InstallFiles(a, h, fs, now), p) || Ours(a, h, fs, p)
    {
      InstallTouchesOnlyOwned(a, h, fs, now, p);
    }
  }

  lemma TargetsReadable(a: Adapter, h: Host, fs: Files)
    requires !TargetConflict(a, h, fs)
    ensures Readable(a, WithoutObsolete(a, h, fs))
  {
  }

  lemma StatusStep(a: Adapter, h: Host, m: Option<Manifest>, fs: Files, paths: set<Path>, p: Path)
    requires p !in paths
    ensures var state := StateOf(a, h, m, fs, p);
      && AnyContested(a, h, m, fs, paths + {p}) == (AnyContested(a, h, m, fs, paths) || Contested(state))
      && AnyToUpdate(a, h, m, fs, paths + {p}) == (AnyToUpdate(a, h, m, fs, paths) || NeedsUpdating(m, state))
      && AnyMarked(a, h, m, fs, paths + {p}) == (AnyMarked(a, h, m, fs, paths) || SeenMarked(state))
      && |CurrentIn(a, h, m, fs, paths + {p})| == |CurrentIn(a, h, m, fs, paths)| + if state.Current? then 1 else 0
  {
    hide StateOf;
    var before := CurrentIn(a, h, m, fs, paths);
    assert CurrentIn(a, h, m, fs, paths + {p}) == if StateOf(a, h, m, fs, p).Current? then before + {p} else before;
  }
}

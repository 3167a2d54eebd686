/** What installing and uninstalling an adapter guarantees to the owner of the project's files. */
module AdapterSafety {
  import opened Options
  import opened PyText
  import opened HostConfig
  import opened AdapterFiles
  import opened AdapterLifecycle
  import opened AdapterOwnership

  /** p holds the same file, or still none. */
  predicate Same(before: Files, after: Files, p: Path) {
    if p in before then p in after && after[p] == before[p] else p !in after
  }

  // ----- Install -----

  /** Whether install succeeds or is refused at any point: a file other than the manifest and the
      settings that was changed or removed was a text that holds the marker or has the hash recorded for it. */
  lemma InstallTouchesOnlyOwned(a: Adapter, h: Host, fs: Files, now: string, p: Path)
    requires WellFormed(a) && p in fs && p != a.manifestPath && p != a.settingsPath
    ensures Same(fs, InstallFiles(a, h, fs, now), p) || Ours(a, h, fs, p)
  {
    hide Owned, Ours, ManifestPaths, ReadManifest, Installed, ReadSettings;
    var rest := WithoutObsolete(a, h, fs);
    OwnedIsOurs(a, h, fs, p);
    if p in a.templates && !TargetConflict(a, h, fs) {
      assert Replaceable(a, h, ReadManifest(a, h, fs), p, fs[p]);
      assert Same(fs, rest, p);
    }
    if InstallOutcome(a, h, fs).Done? {
      HookKeepsOthers(a, h, WithTemplates(a, rest), p);
      ManifestKeepsOthers(a, h, WithHook(a, h, WithTemplates(a, rest)).value, now, p);
    }
  }

  /** Files that neither the adapter nor the old manifest names are never touched. */
  lemma InstallKeepsOthers(a: Adapter, h: Host, fs: Files, now: string, p: Path)
    requires WellFormed(a) && p != a.manifestPath && p != a.settingsPath
    requires p !in a.templates && p !in a.obsolete && p !in ManifestPaths(h, ReadManifest(a, h, fs))
    ensures Same(fs, InstallFiles(a, h, fs, now), p)
  {
    hide ManifestPaths, ReadManifest, Owned, ReadSettings, TargetConflict, ObsoleteConflict, SettingsPass,
      NewManifest, Installed;
  }

  /** A refusal by one of the three checks writes nothing; at most obsolete owned files are gone. */
  lemma ChecksRefuseFirst(a: Adapter, h: Host, fs: Files, now: string)
    requires WellFormed(a) && InstallOutcome(a, h, fs) in {RefusedTargets, RefusedObsolete, RefusedSettings}
    ensures InstallOutcome(a, h, fs) == RefusedTargets ==> InstallFiles(a, h, fs, now) == fs
    ensures InstallOutcome(a, h, fs) != RefusedTargets ==> forall p ::
      if p in fs && Outlived(a, h, fs, p) && Ours(a, h, fs, p) then p !in InstallFiles(a, h, fs, now)
      else Same(fs, InstallFiles(a, h, fs, now), p)
  {
    hide TargetConflict, ObsoleteConflict, SettingsPass, Removable, Ours, Outlived;
    forall p ensures p in Removable(a, h, fs) <==> p in fs && Outlived(a, h, fs, p) && Ours(a, h, fs, p) {
      RemovableIs(a, h, fs, p);
    }
  }

  lemma TemplatesKeepSettings(a: Adapter, h: Host, fs: Files)
    requires WellFormed(a)
    ensures ReadSettings(a, h, WithTemplates(a, fs)) == ReadSettings(a, h, fs)
    ensures ReadManifest(a, h, WithTemplates(a, fs)) == ReadManifest(a, h, fs)
  {
  }

  /** After the checks pass, the merge is refused exactly when `hooks` or `SessionStart` is a JSON
      null; by then every template has been written. */
  lemma MergeRefusedOnlyByNull(a: Adapter, h: Host, fs: Files, now: string)
    requires WellFormed(a)
    requires InstallOutcome(a, h, fs) !in {RefusedTargets, RefusedObsolete, RefusedSettings}
    ensures InstallOutcome(a, h, fs) == RefusedMerge <==>
      var s := ReadSettings(a, h, WithoutObsolete(a, h, fs));
      && IsClaude(a) && s.Some? && "hooks" in s.value
      && (s.value["hooks"].Null? ||
          (s.value["hooks"].Obj? && "SessionStart" in s.value["hooks"].fields &&
            s.value["hooks"].fields["SessionStart"].Null?))
    ensures InstallOutcome(a, h, fs) == RefusedMerge ==>
      forall p :: p in a.templates ==>
        p in InstallFiles(a, h, fs, now) && InstallFiles(a, h, fs, now)[p] == Text(a.templates[p])
  {
    var rest := WithoutObsolete(a, h, fs);
    TemplatesKeepSettings(a, h, rest);
    if IsClaude(a) {
      InstallRefused(ReadSettings(a, h, rest).value);
    }
  }

  /** The refusal after the writes does happen: an empty project with `hooks` set to null. */
  lemma MergeCanBeRefusedLate(a: Adapter, h: Host, now: string)
    requires WellFormed(a) && Lawful(h) && IsClaude(a)
    ensures var fs := map[a.settingsPath := Text(h.render(Obj(map["hooks" := Null])))];
      InstallOutcome(a, h, fs) == RefusedMerge && InstallFiles(a, h, fs, now) == WithTemplates(a, fs)
  {
    hide Lawful, Installed, TargetConflict, ObsoleteConflict, WithoutObsolete, ReadManifest, ReadSettings, Mergeable,
      Writable;
    var fs := map[a.settingsPath := Text(h.render(Obj(map["hooks" := Null])))];
    NullHooks(a, h, fs);
    LoneSettings(a, h, fs);
    MergeRefusedOnlyByNull(a, h, fs, now);
  }

  lemma NullHooks(a: Adapter, h: Host, fs: Files)
    requires Lawful(h) && fs == map[a.settingsPath := Text(h.render(Obj(map["hooks" := Null])))]
    ensures ReadSettings(a, h, fs) == Some(map["hooks" := Null]) && SettingsPass(a, h, fs)
  {
    assert h.parse(h.render(Obj(map["hooks" := Null]))) == Some(Obj(map["hooks" := Null]));
  }

  /** A project that has nothing but settings: no conflict with targets or obsolete files. */
  lemma LoneSettings(a: Adapter, h: Host, fs: Files)
    requires WellFormed(a) && fs.Keys <= {a.settingsPath}
    ensures !TargetConflict(a, h, fs) && !ObsoleteConflict(a, h, fs) && WithoutObsolete(a, h, fs) == fs
  {
    assert ReadManifest(a, h, fs) == None;
    assert ManagedFiles(None) == [];
    assert ManifestPaths(h, None) == {};
    assert Removable(a, h, fs) == {};
  }

  // ----- The state an install leaves -----

  /** Every template in place, no other obsolete file, the manifest listing the templates with their
      hashes, and the hook in the settings. */
  ghost predicate Settled(a: Adapter, h: Host, fs: Files) {
    var m := ReadManifest(a, h, fs);
    && (forall p :: p in a.templates ==> p in fs && fs[p] == Text(a.templates[p]))
    && (forall p :: p in a.obsolete && p !in a.templates ==> p !in fs)
    && m.Some? && ManifestPaths(h, m) == a.templates.Keys
    && HookSettled(a, h, fs)
  }

  ghost predicate HookSettled(a: Adapter, h: Host, fs: Files) {
    IsClaude(a) ==> ReadSettings(a, h, fs).Some? && Hooked(ReadSettings(a, h, fs).value)
  }

  lemma ManifestWritten(a: Adapter, h: Host, fs: Files, now: string)
    requires WellFormed(a) && Lawful(h)
    ensures var existing := ReadManifest(a, h, fs);
      ReadManifest(a, h, WithManifest(a, h, fs, now)) == Some(NewManifest(a, h, existing, Entries(a, h, a.order), now))
  {
    var m := NewManifest(a, h, ReadManifest(a, h, fs), Entries(a, h, a.order), now);
    assert h.parse(h.render(Obj(m))) == Some(Obj(m));
  }

  lemma HookWritten(a: Adapter, h: Host, fs: Files)
    requires WellFormed(a) && Lawful(h) && WithHook(a, h, fs).Ok?
    ensures HookSettled(a, h, WithHook(a, h, fs).value)
  {
    hide Hooked, Installed;
    if IsClaude(a) {
      var s := ReadSettings(a, h, fs).value;
      InstallHooks(s);
      assert h.parse(h.render(Obj(Installed(s).value))) == Some(Obj(Installed(s).value));
    }
  }

  lemma HookKeepsOthers(a: Adapter, h: Host, fs: Files, p: Path)
    requires WithHook(a, h, fs).Ok? && p != a.settingsPath
    ensures Same(fs, WithHook(a, h, fs).value, p)
  {
  }

  lemma ManifestKeepsOthers(a: Adapter, h: Host, fs: Files, now: string, p: Path)
    requires WellFormed(a) && p != a.manifestPath
    ensures Same(fs, WithManifest(a, h, fs, now), p)
  {
  }

  lemma ObsoleteGone(a: Adapter, h: Host, fs: Files, p: Path)
    requires !ObsoleteConflict(a, h, fs) && p in a.obsolete && p !in a.templates
    ensures p !in WithoutObsolete(a, h, fs)
  {
    var m := ReadManifest(a, h, fs);
    assert p in ObsoletePaths(a, h, m);
  }

  lemma SameHook(a: Adapter, h: Host, fs: Files, after: Files)
    requires Same(fs, after, a.settingsPath) && HookSettled(a, h, fs)
    ensures HookSettled(a, h, after)
  {
    hide Hooked;
  }

  lemma InstallDone(a: Adapter, h: Host, fs: Files, now: string)
    requires WellFormed(a) && InstallOutcome(a, h, fs) == Done
    ensures !ObsoleteConflict(a, h, fs)
    ensures var hooked := WithHook(a, h, WithTemplates(a, WithoutObsolete(a, h, fs)));
      hooked.Ok? && InstallFiles(a, h, fs, now) == WithManifest(a, h, hooked.value, now)
  {
    hide TargetConflict, ObsoleteConflict, SettingsPass, WithHook, WithTemplates, WithoutObsolete, WithManifest;
  }

  lemma InstallSettles(a: Adapter, h: Host, fs: Files, now: string)
    requires WellFormed(a) && Lawful(h) && InstallOutcome(a, h, fs) == Done
    ensures Settled(a, h, InstallFiles(a, h, fs, now))
  {
    hide Hooked, Installed, HookSettled, ManifestPaths, Lawful, ReadManifest, NewManifest, ManifestHash,
      WithManifest, WithHook, InstallOutcome, InstallFiles, WithoutObsolete, ObsoleteConflict;
    InstallDone(a, h, fs, now);
    var fs2 := WithTemplates(a, WithoutObsolete(a, h, fs));
    var fs3 := WithHook(a, h, fs2).value;
    var fs4 := WithManifest(a, h, fs3, now);
    HookWritten(a, h, fs2);
    ManifestWritten(a, h, fs3, now);
    NewManifestFacts(a, h, ReadManifest(a, h, fs3), now);
    ManifestKeepsOthers(a, h, fs3, now, a.settingsPath);
    SameHook(a, h, fs3, fs4);
    forall p | p in a.obsolete && p !in a.templates ensures p !in fs4 {
      ObsoleteGone(a, h, fs, p);
      HookKeepsOthers(a, h, fs2, p);
      ManifestKeepsOthers(a, h, fs3, now, p);
    }
    forall p | p in a.templates ensures p in fs4 && fs4[p] == Text(a.templates[p]) {
      HookKeepsOthers(a, h, fs2, p);
      ManifestKeepsOthers(a, h, fs3, now, p);
    }
  }

  lemma StateCurrent(a: Adapter, h: Host, fs: Files, p: Path)
    requires WellFormed(a) && p in a.templates && p in fs && fs[p] == Text(a.templates[p])
    ensures StateOf(a, h, ReadManifest(a, h, fs), fs, p).Current?
  {
  }

  lemma HookFine(a: Adapter, h: Host, fs: Files)
    requires HookSettled(a, h, fs)
    ensures !HookContested(a, h, ReadManifest(a, h, fs), fs) && !HookMissing(a, h, ReadManifest(a, h, fs), fs)
  {
    if IsClaude(a) {
      InstallRefused(ReadSettings(a, h, fs).value);
    }
  }

  lemma AllCurrent(a: Adapter, h: Host, m: Option<Manifest>, fs: Files, paths: set<Path>)
    requires forall p :: p in paths ==> StateOf(a, h, m, fs, p).Current?
    ensures !AnyContested(a, h, m, fs, paths) && !AnyToUpdate(a, h, m, fs, paths)
    ensures CurrentIn(a, h, m, fs, paths) == paths
  {
    hide StateOf;
  }

  /** What the status `installed` stands for: a manifest that lists only templates, every template in place with its
      text, no obsolete file, and for Claude Code at least one Loopora handler in mergeable settings. */
  ghost predicate InPlace(a: Adapter, h: Host, fs: Files) {
    var m := ReadManifest(a, h, fs);
    && m.Some? && ManifestPaths(h, m) <= a.templates.Keys
    && (forall p :: p in a.templates ==> p in fs && fs[p] == Text(a.templates[p]))
    && (forall p :: p in a.obsolete && p !in a.templates ==> p !in fs)
    && (IsClaude(a) ==> SettingsPass(a, h, fs) && LooporaTotal(Groups(ReadSettings(a, h, fs).value)) > 0)
  }

  lemma CurrentText(a: Adapter, h: Host, m: Option<Manifest>, fs: Files, p: Path)
    requires Lawful(h) && StateOf(a, h, m, fs, p).Current?
    ensures p in a.templates && p in fs && fs[p] == Text(a.templates[p])
  {
    HashInjective(h, fs[p].text, a.templates[p]);
  }

  lemma PathsSettled(a: Adapter, h: Host, m: Option<Manifest>, fs: Files, paths: set<Path>, p: Path)
    requires m.Some? && p in paths && !AnyContested(a, h, m, fs, paths) && !AnyToUpdate(a, h, m, fs, paths)
    ensures StateOf(a, h, m, fs, p).Current?
  {
    hide StateOf;
    var state := StateOf(a, h, m, fs, p);
    assert !Contested(state) && !NeedsUpdating(m, state);
  }

  lemma InstalledParts(a: Adapter, h: Host, fs: Files)
    requires StatusOf(a, h, fs) == IsInstalled
    ensures var m := ReadManifest(a, h, fs);
      var paths := StatusPaths(a, h, m, fs);
      && m.Some? && !AnyContested(a, h, m, fs, paths) && !AnyToUpdate(a, h, m, fs, paths)
      && !HookContested(a, h, m, fs) && !HookMissing(a, h, m, fs)
  {
    hide ReadManifest, StatusPaths, AnyContested, AnyToUpdate, HookContested, HookMissing, CurrentIn, AnyMarked,
      ManifestError;
  }

  lemma InstalledFiles(a: Adapter, h: Host, fs: Files, p: Path)
    requires Lawful(h) && StatusOf(a, h, fs) == IsInstalled && p in StatusPaths(a, h, ReadManifest(a, h, fs), fs)
    ensures p in a.templates && p in fs && fs[p] == Text(a.templates[p])
  {
    hide StatusOf, StatusPaths, ReadManifest, AnyContested, AnyToUpdate, StateOf, Lawful;
    var m := ReadManifest(a, h, fs);
    InstalledParts(a, h, fs);
    PathsSettled(a, h, m, fs, StatusPaths(a, h, m, fs), p);
    CurrentText(a, h, m, fs, p);
  }

  lemma InstalledIsInPlace(a: Adapter, h: Host, fs: Files)
    requires Lawful(h) && StatusOf(a, h, fs) == IsInstalled
    ensures InPlace(a, h, fs)
  {
    hide StatusOf, ManifestPaths, ReadManifest, AnyContested, AnyToUpdate, Lawful, SettingsPass, LooporaTotal;
    var m := ReadManifest(a, h, fs);
    InstalledParts(a, h, fs);
    forall p | p in StatusPaths(a, h, m, fs) ensures p in a.templates && p in fs && fs[p] == Text(a.templates[p]) {
      InstalledFiles(a, h, fs, p);
    }
  }

  lemma InPlacePaths(a: Adapter, h: Host, fs: Files)
    requires InPlace(a, h, fs)
    ensures StatusPaths(a, h, ReadManifest(a, h, fs), fs) == a.templates.Keys
    ensures var m := ReadManifest(a, h, fs); m.Some? && !HookContested(a, h, m, fs) && !HookMissing(a, h, m, fs)
  {
    hide ManifestPaths, ReadManifest, SettingsPass, LooporaTotal;
  }

  lemma InPlaceIsInstalled(a: Adapter, h: Host, fs: Files)
    requires WellFormed(a) && InPlace(a, h, fs)
    ensures StatusOf(a, h, fs) == IsInstalled
  {
    var m := ReadManifest(a, h, fs);
    forall p | p in a.templates ensures StateOf(a, h, m, fs, p).Current? {
      StateCurrent(a, h, fs, p);
    }
    hide InPlace, StateOf, HookContested, HookMissing, ReadManifest, StatusPaths, AnyContested, AnyToUpdate,
      CurrentIn, AnyMarked;
    InPlacePaths(a, h, fs);
    AllCurrent(a, h, m, fs, a.templates.Keys);
    assert |a.templates.Keys| == |a.templates|;
  }

  /** A project reports itself installed exactly when everything is in place. */
  lemma InstalledMeans(a: Adapter, h: Host, fs: Files)
    requires WellFormed(a) && Lawful(h)
    ensures StatusOf(a, h, fs) == IsInstalled <==> InPlace(a, h, fs)
  {
    hide StatusOf, InPlace, WellFormed, Lawful;
    if StatusOf(a, h, fs) == IsInstalled {
      InstalledIsInPlace(a, h, fs);
    } else if InPlace(a, h, fs) {
      InPlaceIsInstalled(a, h, fs);
    }
  }

  lemma SettledInPlace(a: Adapter, h: Host, fs: Files)
    requires Settled(a, h, fs)
    ensures InPlace(a, h, fs)
  {
    hide ManifestPaths, ReadManifest, HookSettled, LooporaTotal;
    HookFine(a, h, fs);
  }

  /** Every successful install ends with the status installed. */
  lemma InstallReportsInstalled(a: Adapter, h: Host, fs: Files, now: string)
    requires WellFormed(a) && Lawful(h) && InstallOutcome(a, h, fs) == Done
    ensures StatusOf(a, h, InstallFiles(a, h, fs, now)) == IsInstalled
  {
    hide Settled, InPlace, StatusOf, InstallFiles;
    InstallSettles(a, h, fs, now);
    SettledInPlace(a, h, InstallFiles(a, h, fs, now));
    InPlaceIsInstalled(a, h, InstallFiles(a, h, fs, now));
  }

  lemma SettledPasses(a: Adapter, h: Host, fs: Files)
    requires WellFormed(a) && Settled(a, h, fs)
    ensures !TargetConflict(a, h, fs) && !ObsoleteConflict(a, h, fs)
    ensures WithoutObsolete(a, h, fs) == fs && WithTemplates(a, fs) == fs && SettingsPass(a, h, fs)
  {
    hide Owned, ManifestPaths, ReadManifest, HookSettled, ReadSettings;
    HookFine(a, h, fs);
    assert Removable(a, h, fs) == {};
    assert fs - {} == fs;
  }

  lemma SettledHook(a: Adapter, h: Host, fs: Files)
    requires Lawful(h) && HookSettled(a, h, fs)
    ensures WithHook(a, h, fs).Ok?
    ensures ReadSettings(a, h, WithHook(a, h, fs).value) == ReadSettings(a, h, fs)
  {
    hide Installed;
    if IsClaude(a) {
      var s := ReadSettings(a, h, fs).value;
      assert h.parse(h.render(Obj(s))) == Some(Obj(s));
    }
  }

  lemma SameReads(a: Adapter, h: Host, fs: Files, after: Files)
    ensures Same(fs, after, a.settingsPath) ==> ReadSettings(a, h, after) == ReadSettings(a, h, fs)
    ensures Same(fs, after, a.manifestPath) ==> ReadManifest(a, h, after) == ReadManifest(a, h, fs)
  {
  }

  /** Installing into a settled project succeeds and changes no file but perhaps the text of the
      settings and of the manifest; the settings keep their JSON value. */
  lemma SettledInstall(a: Adapter, h: Host, fs: Files, now: string)
    requires WellFormed(a) && Lawful(h) && Settled(a, h, fs)
    ensures InstallOutcome(a, h, fs) == Done
    ensures forall p :: p != a.settingsPath && p != a.manifestPath ==> Same(fs, InstallFiles(a, h, fs, now), p)
    ensures ReadSettings(a, h, InstallFiles(a, h, fs, now)) == ReadSettings(a, h, fs)
  {
    hide Owned, ManifestPaths, ReadManifest, ReadSettings, Installed, Lawful, WithHook, WithManifest, HookSettled;
    SettledPasses(a, h, fs);
    SettledHook(a, h, fs);
    var hooked := WithHook(a, h, fs).value;
    var after := WithManifest(a, h, hooked, now);
    forall p | p != a.settingsPath && p != a.manifestPath ensures Same(fs, after, p) {
      HookKeepsOthers(a, h, fs, p);
      ManifestKeepsOthers(a, h, hooked, now, p);
    }
    ManifestKeepsOthers(a, h, hooked, now, a.settingsPath);
    SameReads(a, h, hooked, after);
  }

  /** The manifest an install leaves is the one the next install would write. */
  ghost predicate ManifestSettled(a: Adapter, h: Host, fs: Files)
    requires forall p :: p in a.order ==> p in a.templates
  {
    var m := ReadManifest(a, h, fs);
    m.Some? && forall now :: NewManifest(a, h, m, Entries(a, h, a.order), now) == m.value
  }

  lemma NewManifestStable(
      a: Adapter, h: Host, existing: Option<Manifest>, entries: seq<Json>, now: string, later: string)
    requires Lawful(h) && now != "" && Strip(now) == now
    ensures var m := NewManifest(a, h, existing, entries, now); NewManifest(a, h, Some(m), entries, later) == m
  {
    var m := NewManifest(a, h, existing, entries, now);
    var at := m["installed_at"].s;
    if existing.Some? && TextField(h, existing.value, "installed_at") != "" {
      StripTwice(h.str(existing.value["installed_at"]));
    }
    assert Strip(at) == at;
    assert TextField(h, m, "installed_at") == at;
  }

  lemma ManifestSettles(a: Adapter, h: Host, fs: Files, now: string)
    requires WellFormed(a) && Lawful(h) && InstallOutcome(a, h, fs) == Done && now != "" && Strip(now) == now
    ensures ManifestSettled(a, h, InstallFiles(a, h, fs, now))
  {
    hide Lawful, ReadManifest, NewManifest, WithManifest, WithHook, WithTemplates, WithoutObsolete, InstallOutcome,
      InstallFiles, Entries;
    InstallDone(a, h, fs, now);
    var hooked := WithHook(a, h, WithTemplates(a, WithoutObsolete(a, h, fs))).value;
    ManifestWritten(a, h, hooked, now);
    forall later {
      NewManifestStable(a, h, ReadManifest(a, h, hooked), Entries(a, h, a.order), now, later);
    }
  }

  /** A second install leaves every file the same; the settings are the same as a JSON value. */
  lemma SecondInstall(a: Adapter, h: Host, fs: Files, now: string, later: string)
    requires WellFormed(a) && Lawful(h) && InstallOutcome(a, h, fs) == Done && now != "" && Strip(now) == now
    ensures var once := InstallFiles(a, h, fs, now);
      var twice := InstallFiles(a, h, once, later);
      && InstallOutcome(a, h, once) == Done
      && (forall p :: p != a.settingsPath ==> Same(once, twice, p))
      && ReadSettings(a, h, twice) == ReadSettings(a, h, once)
  {
    InstallSettles(a, h, fs, now);
    ManifestSettles(a, h, fs, now);
    var once := InstallFiles(a, h, fs, now);
    SettledInstall(a, h, once, later);
    ManifestStays(a, h, once, later);
  }

  lemma ManifestStays(a: Adapter, h: Host, fs: Files, now: string)
    requires WellFormed(a) && Lawful(h) && Settled(a, h, fs) && ManifestSettled(a, h, fs)
    ensures Same(fs, InstallFiles(a, h, fs, now), a.manifestPath)
  {
    hide Owned, ManifestPaths, ReadManifest, ReadSettings, Installed, Lawful, WithHook, HookSettled, NewManifest;
    SettledPasses(a, h, fs);
    SettledHook(a, h, fs);
    var hooked := WithHook(a, h, fs).value;
    HookKeepsOthers(a, h, fs, a.manifestPath);
    SameReads(a, h, fs, hooked);
  }
}

/** What uninstalling an adapter removes, and that it undoes an install. */
module AdapterUninstall {
  import opened Options
  import opened PyText
  import opened HostConfig
  import opened AdapterFiles
  import opened AdapterLifecycle
  import opened AdapterOwnership
  import opened AdapterSafety

  lemma WithoutHookKeepsOthers(a: Adapter, h: Host, fs: Files, p: Path)
    requires WithoutHook(a, h, fs).Ok? && p != a.settingsPath
    ensures Same(fs, WithoutHook(a, h, fs).value, p)
  {
  }

  /** Apart from the manifest and the settings, uninstall removes exactly the managed files it takes
      for Loopora's, and leaves every other file as it is. */
  lemma UninstallRemovesExactly(a: Adapter, h: Host, fs: Files, p: Path)
    requires p in fs && p != a.manifestPath && p != a.settingsPath
    ensures p in UninstallFiles(a, h, fs) ==> UninstallFiles(a, h, fs)[p] == fs[p]
    ensures p !in UninstallFiles(a, h, fs) <==>
      var m := ReadManifest(a, h, fs);
      p in ManagedPaths(a, h, m) && fs[p].Text? && TakenAsOurs(a, h, m, p, fs[p].text)
  {
    hide TakenAsOurs, ManagedPaths, ReadManifest, WithoutHook;
    var rest := fs - Uninstalled(a, h, fs);
    if WithoutHook(a, h, rest).Ok? {
      WithoutHookKeepsOthers(a, h, rest, p);
    }
  }

  /** No manifest entry for p has a hash, or the first one has none. */
  ghost predicate Unhashed(a: Adapter, h: Host, fs: Files, p: Path) {
    forall m: Manifest, i: nat :: Reads(a, h, fs, m) && FirstItemFor(m, p, i) ==>
      TextField(h, m["managed_files"].items[i].fields, "sha256") == ""
  }

  lemma UnhashedIs(a: Adapter, h: Host, fs: Files, p: Path)
    ensures ManifestHash(h, ReadManifest(a, h, fs), p) == "" <==> Unhashed(a, h, fs, p)
  {
    hide TextField, ReadManifest;
    var r := ReadManifest(a, h, fs);
    var i := HashInFirst(h, ManagedFiles(r), p);
    if r.Some? {
      ManifestReads(a, h, fs, r.value);
      if i < |ManagedFiles(r)| {
        assert FirstItemFor(r.value, p, i);
      }
    }
    forall m, k: nat | Reads(a, h, fs, m) && FirstItemFor(m, p, k)
      ensures r == Some(m) && k == i
    {
      ManifestReads(a, h, fs, m);
      assert ItemFor(m, p, k);
    }
  }

  /** Besides the adapter's own texts uninstall takes a text equal to its template, and an empty one that has no
      template or no recorded hash. */
  lemma UninstallTakes(a: Adapter, h: Host, fs: Files, p: Path)
    requires Lawful(h) && p in fs && p != a.manifestPath && p != a.settingsPath
    ensures p !in UninstallFiles(a, h, fs) <==>
      && (p in a.templates || ListedAt(a, h, fs, p)) && fs[p].Text?
      && (|| Ours(a, h, fs, p)
          || (p in a.templates && fs[p].text == a.templates[p])
          || (fs[p].text == "" && (p !in a.templates || Unhashed(a, h, fs, p))))
  {
    hide ManifestPaths, ListedAt, ReadManifest, ManifestHash, UninstallFiles, Unhashed, Holds, Contains, Recorded;
    UninstallRemovesExactly(a, h, fs, p);
    PathsAreListed(a, h, fs, p);
    if fs[p].Text? {
      ContainsIsHolds(fs[p].text, a.marker);
      HashMatchesIs(a, h, fs, p, fs[p].text);
      UnhashedIs(a, h, fs, p);
      HashInjective(h, fs[p].text, "");
      HashInjective(h, fs[p].text, if p in a.templates then a.templates[p] else "");
    }
  }

  /** Uninstall ends without manifest and, for Claude Code, with the settings as removal leaves them, if anything of
      them is left; unreadable settings stop it before both. */
  lemma UninstallEnds(a: Adapter, h: Host, fs: Files)
    requires Lawful(h) && WellFormed(a)
    requires a.manifestPath !in Uninstalled(a, h, fs) && a.settingsPath !in Uninstalled(a, h, fs)
    ensures var after, unreadable :=
        UninstallFiles(a, h, fs), a.kind == "claude" && a.settingsPath in fs && ReadSettings(a, h, fs).None?;
      && (unreadable ==> Same(fs, after, a.manifestPath) && Same(fs, after, a.settingsPath))
      && (!unreadable ==> a.manifestPath !in after)
      && (a.kind != "claude" ==> Same(fs, after, a.settingsPath))
      && (a.kind == "claude" && a.settingsPath in fs && !unreadable ==>
            var left := Removed(ReadSettings(a, h, fs).value);
            && (a.settingsPath in after ==> ReadSettings(a, h, after) == Some(left))
            && (a.settingsPath !in after <==> left == map[] != ReadSettings(a, h, fs).value))
  {
    hide Removed, Uninstalled;
    var rest := fs - Uninstalled(a, h, fs);
    SameReads(a, h, fs, rest);
    if IsClaude(a) && a.settingsPath in fs && ReadSettings(a, h, fs).Some? {
      var left := Removed(ReadSettings(a, h, fs).value);
      assert h.parse(h.render(Obj(left))) == Some(Obj(left));
    }
  }

  /** A non-empty file without marker and without a recorded or template hash is kept. */
  lemma UninstallKeepsForeign(a: Adapter, h: Host, fs: Files, p: Path)
    requires Lawful(h) && p in fs && p != a.manifestPath && p != a.settingsPath
    requires fs[p].Text? ==>
      && fs[p].text != "" && !HashMatches(h, ReadManifest(a, h, fs), p, fs[p].text) && !Marked(a, fs[p].text)
      && (p in a.templates ==> a.templates[p] != fs[p].text)
    ensures p in UninstallFiles(a, h, fs) && UninstallFiles(a, h, fs)[p] == fs[p]
  {
    UninstallRemovesExactly(a, h, fs, p);
    if fs[p].Text? {
      HashInjective(h, fs[p].text, "");
      if p in a.templates {
        HashInjective(h, fs[p].text, a.templates[p]);
      }
    }
  }

  /** An empty file at a managed path is removed exactly when the marker is empty, the manifest
      records no hash for the path, or the path has no template. */
  lemma UninstallAndEmptyFile(a: Adapter, h: Host, fs: Files, p: Path)
    requires Lawful(h) && WellFormed(a) && p in fs && fs[p] == Text("")
    requires p != a.manifestPath && p != a.settingsPath && p in ManagedPaths(a, h, ReadManifest(a, h, fs))
    ensures p !in UninstallFiles(a, h, fs) <==>
      a.marker == "" || ManifestHash(h, ReadManifest(a, h, fs), p) == "" || p !in a.templates
  {
    UninstallRemovesExactly(a, h, fs, p);
    assert Marked(a, "") <==> a.marker == "" by {
      if a.marker == "" {
        assert OccursAt("", a.marker, 0);
      }
    }
    if p in a.templates {
      HashInjective(h, "", a.templates[p]);
    }
  }

  /** So uninstalling an adapter that was never installed deletes a user's empty file at a template
      path, while the same file with any other unmarked text stays. */
  lemma EmptyUserFileIsLost(a: Adapter, h: Host, p: Path)
    requires Lawful(h) && WellFormed(a) && a.marker != "" && p in a.templates
    ensures p !in UninstallFiles(a, h, map[p := Text("")])
  {
    var fs := map[p := Text("")];
    assert ReadManifest(a, h, fs) == None;
    assert ManagedFiles(None) == [];
    assert ManifestHash(h, None, p) == "";
    UninstallAndEmptyFile(a, h, fs, p);
  }

  // ----- Install, then uninstall -----

  ghost function SettingsBefore(a: Adapter, h: Host, fs: Files): Settings
    requires ReadSettings(a, h, WithoutObsolete(a, h, fs)).Some?
  {
    ReadSettings(a, h, WithoutObsolete(a, h, fs)).value
  }

  /** The settings value an uninstall leaves after an install found s. */
  function SettingsAfter(s: Settings): Settings
    requires Writable(s)
  {
    if "hooks" in s && s["hooks"].fields == map[] then s - {"hooks"} else Removed(s)
  }

  lemma InstalledSettings(a: Adapter, h: Host, fs: Files, now: string)
    requires WellFormed(a) && Lawful(h) && InstallOutcome(a, h, fs) == Done && IsClaude(a)
    ensures ReadSettings(a, h, WithoutObsolete(a, h, fs)).Some? && Writable(SettingsBefore(a, h, fs))
    ensures Installed(SettingsBefore(a, h, fs)).Ok?
    ensures ReadSettings(a, h, InstallFiles(a, h, fs, now)) == Some(Installed(SettingsBefore(a, h, fs)).value)
    ensures a.settingsPath in InstallFiles(a, h, fs, now)
  {
    hide Installed, Removable;
    var rest := WithoutObsolete(a, h, fs);
    TemplatesKeepSettings(a, h, rest);
    var s := ReadSettings(a, h, rest).value;
    InstallRefused(s);
    var hooked := WithHook(a, h, WithTemplates(a, rest)).value;
    assert h.parse(h.render(Obj(Installed(s).value))) == Some(Obj(Installed(s).value));
    ManifestKeepsOthers(a, h, hooked, now, a.settingsPath);
    SameReads(a, h, hooked, InstallFiles(a, h, fs, now));
  }

  /** In a settled project uninstall takes exactly the templates. */
  lemma SettledUninstalled(a: Adapter, h: Host, fs: Files)
    requires WellFormed(a) && Settled(a, h, fs)
    ensures Uninstalled(a, h, fs) == a.templates.Keys
  {
    hide ManifestPaths, ReadManifest, HookSettled, Marked;
  }

  lemma HookTakenOut(a: Adapter, h: Host, fs: Files, s: Settings)
    requires IsClaude(a) && Lawful(h) && Writable(s)
    requires a.settingsPath in fs && ReadSettings(a, h, fs) == Some(Installed(s).value)
    ensures WithoutHook(a, h, fs) ==
      if SettingsAfter(s) == map[] then Ok(fs - {a.settingsPath})
      else Ok(fs[a.settingsPath := Text(h.render(Obj(SettingsAfter(s))))])
  {
    hide Installed, Removed, Groups, LooporaTotal, Lawful, Writable, ReadSettings;
    RemoveUndoesInstall(s);
    InstallLeavesOne(s);
    RemovalIsFinal(Installed(s).value);
  }

  /** Uninstalling after a successful install removes the templates, the obsolete files and the
      manifest, takes the hook back out of the settings, and leaves every other file as it was before
      the install. */
  lemma InstallThenUninstall(a: Adapter, h: Host, fs: Files, now: string, p: Path)
    requires WellFormed(a) && Lawful(h) && InstallOutcome(a, h, fs) == Done
    ensures var after := UninstallFiles(a, h, InstallFiles(a, h, fs, now));
      && (p in a.templates || p in a.obsolete || p == a.manifestPath ==> p !in after)
      && (p in Removable(a, h, fs) && p != a.settingsPath ==> p !in after)
      && (p !in a.templates && p !in a.obsolete && p !in Removable(a, h, fs)
          && p != a.manifestPath && p != a.settingsPath ==>
            Same(fs, after, p))
    ensures !IsClaude(a) ==>
      Same(WithoutObsolete(a, h, fs), UninstallFiles(a, h, InstallFiles(a, h, fs, now)), a.settingsPath)
    ensures IsClaude(a) ==>
      var before := ReadSettings(a, h, WithoutObsolete(a, h, fs));
      var after := UninstallFiles(a, h, InstallFiles(a, h, fs, now));
      && before.Some? && Writable(before.value)
      && (a.settingsPath in after <==> SettingsAfter(before.value) != map[])
      && (a.settingsPath in after ==> ReadSettings(a, h, after) == Some(SettingsAfter(before.value)))
  {
    hide Installed, Removed, Owned, ManifestPaths, ReadManifest, HookSettled, WithManifest, WithHook, WithoutHook,
      Uninstalled, Lawful, ReadSettings, Writable;
    var installed := InstallFiles(a, h, fs, now);
    InstallSettles(a, h, fs, now);
    SettledUninstalled(a, h, installed);
    var rest := installed - a.templates.Keys;
    UndoneSettings(a, h, fs, now, rest);
    var after := UninstallFiles(a, h, installed);
    if p != a.settingsPath {
      WithoutHookKeepsOthers(a, h, rest, p);
      if p != a.manifestPath && p !in a.templates {
        HookKeepsOthers(a, h, WithTemplates(a, WithoutObsolete(a, h, fs)), p);
        ManifestKeepsOthers(a, h, WithHook(a, h, WithTemplates(a, WithoutObsolete(a, h, fs))).value, now, p);
      }
    }
  }

  lemma UndoneSettings(a: Adapter, h: Host, fs: Files, now: string, rest: Files)
    requires WellFormed(a) && Lawful(h) && InstallOutcome(a, h, fs) == Done
    requires rest == InstallFiles(a, h, fs, now) - a.templates.Keys
    ensures WithoutHook(a, h, rest).Ok?
    ensures var after := WithoutHook(a, h, rest).value - {a.manifestPath};
      if IsClaude(a) then
        var before := ReadSettings(a, h, WithoutObsolete(a, h, fs));
        && before.Some? && Writable(before.value)
        && (a.settingsPath in after <==> SettingsAfter(before.value) != map[])
        && (a.settingsPath in after ==> ReadSettings(a, h, after) == Some(SettingsAfter(before.value)))
      else Same(WithoutObsolete(a, h, fs), after, a.settingsPath)
  {
    hide Installed, Removed, Owned, ManifestPaths, ReadManifest, WithManifest;
    var fs1 := WithoutObsolete(a, h, fs);
    if IsClaude(a) {
      InstalledSettings(a, h, fs, now);
      var s := SettingsBefore(a, h, fs);
      SameReads(a, h, InstallFiles(a, h, fs, now), rest);
      HookTakenOut(a, h, rest, s);
      assert h.parse(h.render(Obj(SettingsAfter(s)))) == Some(Obj(SettingsAfter(s)));
    } else {
      ManifestKeepsOthers(a, h, WithTemplates(a, fs1), now, a.settingsPath);
    }
  }

  /** In a project without any file the adapter names, install then uninstall changes nothing. */
  lemma FreshRoundTrip(a: Adapter, h: Host, fs: Files, now: string)
    requires WellFormed(a) && Lawful(h)
    requires fs.Keys !! a.templates.Keys + a.obsolete + {a.manifestPath, a.settingsPath}
    ensures InstallOutcome(a, h, fs) == Done
    ensures UninstallFiles(a, h, InstallFiles(a, h, fs, now)) == fs
  {
    hide InstallFiles, UninstallFiles, InstallOutcome, Same;
    FreshPasses(a, h, fs);
    var after := UninstallFiles(a, h, InstallFiles(a, h, fs, now));
    forall p ensures Same(fs, after, p) {
      FreshRoundTripAt(a, h, fs, now, p);
    }
    SameEverywhere(fs, after);
  }

  lemma FreshRoundTripAt(a: Adapter, h: Host, fs: Files, now: string, p: Path)
    requires WellFormed(a) && Lawful(h)
    requires fs.Keys !! a.templates.Keys + a.obsolete + {a.manifestPath, a.settingsPath}
    ensures Same(fs, UninstallFiles(a, h, InstallFiles(a, h, fs, now)), p)
  {
    hide InstallFiles, UninstallFiles, InstallOutcome, ReadSettings, Removable, ReadManifest, Lawful, SettingsAfter,
      Writable;
    FreshPasses(a, h, fs);
    InstallThenUninstall(a, h, fs, now, p);
  }

  lemma SameEverywhere(fs: Files, after: Files)
    requires forall p :: Same(fs, after, p)
    ensures fs == after
  {
    assert forall p :: Same(fs, after, p) ==> (p in fs <==> p in after);
  }

  lemma FreshPasses(a: Adapter, h: Host, fs: Files)
    requires WellFormed(a)
    requires fs.Keys !! a.templates.Keys + a.obsolete + {a.manifestPath, a.settingsPath}
    ensures InstallOutcome(a, h, fs) == Done && Removable(a, h, fs) == {} && WithoutObsolete(a, h, fs) == fs
    ensures ReadSettings(a, h, fs) == Some(map[]) && SettingsAfter(map[]) == map[]
  {
    assert ReadManifest(a, h, fs) == None;
    assert ManagedFiles(None) == [];
    assert ManifestPaths(h, None) == {};
    assert Removable(a, h, fs) == {};
    assert fs - {} == fs;
    TemplatesKeepSettings(a, h, fs);
    InstallRefused(map[]);
  }
}

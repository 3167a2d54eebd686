/** Which files an adapter may take for its own, said in terms of texts, entries and hashes. */
module AdapterOwnership {
  import opened Options
  import opened PyText
  import opened HostConfig
  import opened AdapterFiles
  import opened AdapterLifecycle

  // ----- Ownership -----

  ghost predicate Holds(text: string, part: string) {
    exists before: string, after: string :: Splits(text, before, part, after)
  }

  predicate Splits(text: string, before: string, part: string, after: string) {
    text == before + part + after
  }

  /** The manifest file is a JSON object made for this adapter. */
  ghost predicate Reads(a: Adapter, h: Host, fs: Files, m: Manifest) {
    && a.manifestPath in fs && fs[a.manifestPath].Text?
    && h.parse(fs[a.manifestPath].text) == Some(Obj(m))
    && "adapter" in m && m["adapter"] == Str(a.kind)
  }

  /** Item i of the manifest's file list is an object whose path is p. */
  ghost predicate ItemFor(m: Manifest, p: Path, i: nat) {
    && "managed_files" in m && m["managed_files"].List? && i < |m["managed_files"].items|
    && var item := m["managed_files"].items[i];
      item.Obj? && "path" in item.fields && item.fields["path"] == Str(p)
  }

  ghost predicate FirstItemFor(m: Manifest, p: Path, i: nat) {
    ItemFor(m, p, i) && forall j: nat :: j < i ==> !ItemFor(m, p, j)
  }

  /** The hash written beside p is that of the text, and not empty. */
  ghost predicate Recorded(a: Adapter, h: Host, fs: Files, p: Path, text: string) {
    exists m, i: nat :: Reads(a, h, fs, m) && FirstItemFor(m, p, i) && HasHash(h, m, i, text)
  }

  ghost predicate HasHash(h: Host, m: Manifest, i: nat, text: string)
    requires "managed_files" in m && m["managed_files"].List? && i < |m["managed_files"].items|
    requires m["managed_files"].items[i].Obj?
  {
    var hash := TextField(h, m["managed_files"].items[i].fields, "sha256");
    hash != "" && hash == if text == "" then "" else h.sha(text)
  }

  ghost predicate Ours(a: Adapter, h: Host, fs: Files, p: Path) {
    p in fs && fs[p].Text? && (Holds(fs[p].text, a.marker) || Recorded(a, h, fs, p, fs[p].text))
  }

  /** No template, and named as obsolete or by the manifest. */
  ghost predicate Outlived(a: Adapter, h: Host, fs: Files, p: Path) {
    p !in a.templates && (p in a.obsolete || ListedAt(a, h, fs, p))
  }

  ghost predicate ListedAt(a: Adapter, h: Host, fs: Files, p: Path) {
    exists m, i: nat :: Reads(a, h, fs, m) && Lists(h, m, p, i)
  }

  ghost predicate Lists(h: Host, m: Manifest, p: Path, i: nat) {
    && p != "" && "managed_files" in m && m["managed_files"].List? && i < |m["managed_files"].items|
    && m["managed_files"].items[i].Obj? && TextField(h, m["managed_files"].items[i].fields, "path") == p
  }

  // ----- That is how the code reads them -----

  lemma ContainsIsHolds(text: string, part: string)
    ensures Contains(text, part) <==> Holds(text, part)
  {
    if i :| 0 <= i <= |text| && OccursAt(text, part, i) {
      assert text == text[..i] + part + text[i + |part|..];
      assert Splits(text, text[..i], part, text[i + |part|..]);
    }
    if before: string, after: string :| Splits(text, before, part, after) {
      assert OccursAt(text, part, |before|);
    }
  }

  /** A missing field, or one that counts as false, reads as empty. */
  lemma TextFieldIs(h: Host, m: map<string, Json>, key: string)
    ensures TextField(h, m, key) ==
      if key !in m || m[key] in {Null, Bool(false), Int(0), Str(""), List([]), Obj(map[])} then ""
      else if m[key].Float? && m[key].x.Finite? && m[key].x.mantissa == 0 then ""
      else Strip(h.str(m[key]))
  {
  }

  lemma ManifestReads(a: Adapter, h: Host, fs: Files, m: Manifest)
    ensures ReadManifest(a, h, fs) == Some(m) <==> Reads(a, h, fs, m)
  {
  }

  lemma {:induction false} HashInFirst(h: Host, items: seq<Json>, p: Path) returns (i: nat)
    ensures i <= |items|
    ensures forall j :: 0 <= j < i ==>
      !(items[j].Obj? && "path" in items[j].fields && items[j].fields["path"] == Str(p))
    ensures i < |items| ==>
      && items[i].Obj? && "path" in items[i].fields && items[i].fields["path"] == Str(p)
      && HashIn(h, items, p) == TextField(h, items[i].fields, "sha256")
    ensures i == |items| ==> HashIn(h, items, p) == ""
  {
    hide TextField;
    if items == [] || (items[0].Obj? && "path" in items[0].fields && items[0].fields["path"] == Str(p)) {
      i := 0;
    } else {
      i := HashInFirst(h, items[1..], p);
      i := i + 1;
    }
  }

  lemma HashMatchesIs(a: Adapter, h: Host, fs: Files, p: Path, text: string)
    ensures HashMatches(h, ReadManifest(a, h, fs), p, text) <==> Recorded(a, h, fs, p, text)
  {
    hide TextField, ReadManifest;
    var r := ReadManifest(a, h, fs);
    var items := ManagedFiles(r);
    var i := HashInFirst(h, items, p);
    if r.Some? {
      ManifestReads(a, h, fs, r.value);
      if i < |items| {
        assert FirstItemFor(r.value, p, i);
      }
    }
    if m, k: nat :| Reads(a, h, fs, m) && FirstItemFor(m, p, k) && HasHash(h, m, k, text) {
      ManifestReads(a, h, fs, m);
      assert ItemFor(m, p, k) && k == i;
    }
  }

  lemma OwnedIsOurs(a: Adapter, h: Host, fs: Files, p: Path)
    requires p in fs
    ensures OwnedFile(a, h, ReadManifest(a, h, fs), p, fs[p]) <==> Ours(a, h, fs, p)
  {
    hide HashMatches, Recorded, Holds, Contains, ReadManifest;
    if fs[p].Text? {
      ContainsIsHolds(fs[p].text, a.marker);
      HashMatchesIs(a, h, fs, p, fs[p].text);
    }
  }

  lemma PathsAreListed(a: Adapter, h: Host, fs: Files, p: Path)
    ensures p in ManifestPaths(h, ReadManifest(a, h, fs)) <==> ListedAt(a, h, fs, p)
  {
    hide TextField, ReadManifest;
    var r := ReadManifest(a, h, fs);
    if p in ManifestPaths(h, r) {
      ManifestReads(a, h, fs, r.value);
      var item :| item in ManagedFiles(r) && item.Obj? && TextField(h, item.fields, "path") == p;
      var i :| 0 <= i < |ManagedFiles(r)| && ManagedFiles(r)[i] == item;
      assert Lists(h, r.value, p, i);
    }
    if m, i: nat :| Reads(a, h, fs, m) && Lists(h, m, p, i) {
      ManifestReads(a, h, fs, m);
      assert ManagedFiles(r)[i] in ManagedFiles(r);
    }
  }

  lemma ObsoleteIsOutlived(a: Adapter, h: Host, fs: Files, p: Path)
    ensures p in ObsoletePaths(a, h, ReadManifest(a, h, fs)) <==> Outlived(a, h, fs, p)
  {
    hide ManifestPaths, ReadManifest, ListedAt;
    PathsAreListed(a, h, fs, p);
  }

  // ----- What the checks find -----

  /** A taken template path whose file is neither the template nor the adapter's own. */
  ghost predicate BlocksTarget(a: Adapter, h: Host, fs: Files, p: Path) {
    p in a.templates && p in fs && fs[p] != Text(a.templates[p]) && !Ours(a, h, fs, p)
  }

  ghost predicate BlocksObsolete(a: Adapter, h: Host, fs: Files, p: Path) {
    p in fs && Outlived(a, h, fs, p) && !Ours(a, h, fs, p)
  }

  lemma TargetConflictIs(a: Adapter, h: Host, fs: Files)
    ensures TargetConflict(a, h, fs) <==> exists p :: BlocksTarget(a, h, fs, p)
  {
    hide Owned, Ours, ReadManifest;
    forall p | p in a.templates && p in fs
      ensures Replaceable(a, h, ReadManifest(a, h, fs), p, fs[p]) <==> !BlocksTarget(a, h, fs, p)
    {
      OwnedIsOurs(a, h, fs, p);
    }
  }

  lemma ObsoleteConflictIs(a: Adapter, h: Host, fs: Files)
    ensures ObsoleteConflict(a, h, fs) <==> exists p :: BlocksObsolete(a, h, fs, p)
  {
    hide OwnedFile, Ours, ReadManifest, ObsoletePaths, Outlived;
    var m := ReadManifest(a, h, fs);
    forall p | p in fs
      ensures p in ObsoletePaths(a, h, m) && !OwnedFile(a, h, m, p, fs[p]) <==> BlocksObsolete(a, h, fs, p)
    {
      OwnedIsOurs(a, h, fs, p);
      ObsoleteIsOutlived(a, h, fs, p);
    }
  }

  /** Removing obsolete files removes exactly the adapter's own ones among them. */
  lemma RemovableIs(a: Adapter, h: Host, fs: Files, p: Path)
    ensures p in Removable(a, h, fs) <==> p in fs && Outlived(a, h, fs, p) && Ours(a, h, fs, p)
  {
    hide OwnedFile, Ours, ReadManifest, ObsoletePaths, Outlived;
    if p in fs {
      OwnedIsOurs(a, h, fs, p);
      ObsoleteIsOutlived(a, h, fs, p);
    }
  }

  /** Claude Code settings that cannot be merged: unreadable, no object, or with `hooks` or `SessionStart` of a
      type that is neither null nor the right one. */
  ghost predicate SettingsUnfit(a: Adapter, h: Host, fs: Files) {
    a.kind == "claude" && a.settingsPath in fs &&
    (fs[a.settingsPath].Unreadable? ||
     match h.parse(fs[a.settingsPath].text)
     case Some(Obj(s)) =>
       "hooks" in s && s["hooks"] != Null &&
       (!s["hooks"].Obj? ||
        ("SessionStart" in s["hooks"].fields
         && s["hooks"].fields["SessionStart"] != Null && !s["hooks"].fields["SessionStart"].List?))
     case _ => true)
  }

  lemma SettingsPassIs(a: Adapter, h: Host, fs: Files)
    ensures SettingsPass(a, h, fs) <==> !SettingsUnfit(a, h, fs)
  {
  }

  /** When each of the three checks refuses an install. */
  lemma RefusalsAre(a: Adapter, h: Host, fs: Files)
    ensures InstallOutcome(a, h, fs) == RefusedTargets <==> exists p :: BlocksTarget(a, h, fs, p)
    ensures InstallOutcome(a, h, fs) == RefusedObsolete <==>
      && (exists p :: BlocksObsolete(a, h, fs, p))
      && (forall p :: !BlocksTarget(a, h, fs, p))
    ensures InstallOutcome(a, h, fs) == RefusedSettings <==>
      && SettingsUnfit(a, h, WithoutObsolete(a, h, fs))
      && (forall p :: !BlocksTarget(a, h, fs, p)) && (forall p :: !BlocksObsolete(a, h, fs, p))
  {
    hide TargetConflict, ObsoleteConflict, BlocksTarget, BlocksObsolete, SettingsPass, SettingsUnfit, WithoutObsolete;
    TargetConflictIs(a, h, fs);
    ObsoleteConflictIs(a, h, fs);
    SettingsPassIs(a, h, WithoutObsolete(a, h, fs));
  }
}

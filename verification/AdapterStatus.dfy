/** What each status of an adapter says about the project's files. */
module AdapterStatus {
  import opened Options
  import opened HostConfig
  import opened AdapterFiles
  import opened AdapterLifecycle
  import opened AdapterOwnership

  ghost predicate HasManifest(a: Adapter, h: Host, fs: Files) {
    exists m :: Reads(a, h, fs, m)
  }

  /** The paths a status looks at: those of the templates and of the manifest, and obsolete files still there. */
  ghost predicate LookedAt(a: Adapter, h: Host, fs: Files, p: Path) {
    p in a.templates || ListedAt(a, h, fs, p) || (p in a.obsolete && p in fs)
  }

  predicate InTemplate(a: Adapter, fs: Files, p: Path) {
    p in a.templates && p in fs && fs[p] == Text(a.templates[p])
  }

  ghost predicate Stranger(a: Adapter, h: Host, fs: Files, p: Path) {
    LookedAt(a, h, fs, p) && p in fs && !InTemplate(a, fs, p) && !Ours(a, h, fs, p)
  }

  /** Missing, or the adapter's own with another text than the template. */
  ghost predicate Behind(a: Adapter, h: Host, fs: Files, p: Path) {
    LookedAt(a, h, fs, p) && !InTemplate(a, fs, p) && (p in fs ==> Ours(a, h, fs, p))
  }

  ghost predicate HoldsMarker(a: Adapter, h: Host, fs: Files, p: Path) {
    LookedAt(a, h, fs, p) && p in fs && fs[p].Text? && Holds(fs[p].text, a.marker)
  }

  ghost predicate InError(a: Adapter, h: Host, fs: Files) {
    || (a.manifestPath in fs && !HasManifest(a, h, fs))
    || (exists p :: Stranger(a, h, fs, p))
    || (HasManifest(a, h, fs) && SettingsUnfit(a, h, fs))
  }

  /** Fit settings in which no session group has a Loopora handler. */
  ghost predicate HookGone(a: Adapter, h: Host, fs: Files) {
    && a.kind == "claude" && !SettingsUnfit(a, h, fs)
    && ReadSettings(a, h, fs).Some?
    && forall i: nat, j: nat :: !LooporaAt(Groups(ReadSettings(a, h, fs).value), i, j)
  }

  // ----- The code's own findings in these words -----

  lemma ManifestThere(a: Adapter, h: Host, fs: Files)
    ensures ReadManifest(a, h, fs).Some? <==> HasManifest(a, h, fs)
    ensures ManifestError(a, h, fs) <==> a.manifestPath in fs && !HasManifest(a, h, fs)
  {
    hide ReadManifest, Reads;
    if ReadManifest(a, h, fs).Some? {
      ManifestReads(a, h, fs, ReadManifest(a, h, fs).value);
    }
    if m :| Reads(a, h, fs, m) {
      ManifestReads(a, h, fs, m);
    }
  }

  lemma PathsLookedAt(a: Adapter, h: Host, fs: Files, p: Path)
    ensures p in StatusPaths(a, h, ReadManifest(a, h, fs), fs) <==> LookedAt(a, h, fs, p)
  {
    hide ManifestPaths, ListedAt, ReadManifest;
    PathsAreListed(a, h, fs, p);
  }

  lemma MarkedIs(a: Adapter, text: string)
    ensures Marked(a, text) <==> Holds(text, a.marker)
  {
    ContainsIsHolds(text, a.marker);
  }

  lemma StateIs(a: Adapter, h: Host, fs: Files, p: Path)
    requires Lawful(h) && WellFormed(a) && LookedAt(a, h, fs, p)
    ensures var state := StateOf(a, h, ReadManifest(a, h, fs), fs, p);
      && (state.Current? <==> InTemplate(a, fs, p))
      && (Contested(state) <==> Stranger(a, h, fs, p))
      && (state.Missing? || state.Outdated? <==> Behind(a, h, fs, p))
      && (state.Missing? <==> p !in fs)
      && (!Contested(state) ==> (SeenMarked(state) <==> HoldsMarker(a, h, fs, p)))
  {
    hide ReadManifest, LookedAt, Owned, Ours, Holds, Marked;
    if p in fs {
      OwnedIsOurs(a, h, fs, p);
      if fs[p].Text? {
        MarkedIs(a, fs[p].text);
        if p in a.templates {
          HashInjective(h, fs[p].text, a.templates[p]);
        }
      }
    }
  }

  lemma ContestedIs(a: Adapter, h: Host, fs: Files)
    requires Lawful(h) && WellFormed(a)
    ensures var m := ReadManifest(a, h, fs);
      AnyContested(a, h, m, fs, StatusPaths(a, h, m, fs)) <==> exists p :: Stranger(a, h, fs, p)
  {
    hide ReadManifest, StateOf, StatusPaths, LookedAt, Ours, InTemplate, Contested, Lawful, WellFormed;
    var m := ReadManifest(a, h, fs);
    forall p
      ensures p in StatusPaths(a, h, m, fs) && Contested(StateOf(a, h, m, fs, p)) <==> Stranger(a, h, fs, p)
    {
      PathsLookedAt(a, h, fs, p);
      if LookedAt(a, h, fs, p) {
        StateIs(a, h, fs, p);
      }
    }
  }

  lemma BehindIs(a: Adapter, h: Host, fs: Files)
    requires Lawful(h) && WellFormed(a) && ReadManifest(a, h, fs).Some?
    ensures var m := ReadManifest(a, h, fs);
      AnyToUpdate(a, h, m, fs, StatusPaths(a, h, m, fs)) <==> exists p :: Behind(a, h, fs, p)
  {
    hide ReadManifest, StateOf, StatusPaths, Lawful, WellFormed, LookedAt, Ours;
    var m := ReadManifest(a, h, fs);
    forall p
      ensures p in StatusPaths(a, h, m, fs) && NeedsUpdating(m, StateOf(a, h, m, fs, p)) <==> Behind(a, h, fs, p)
    {
      PathsLookedAt(a, h, fs, p);
      if LookedAt(a, h, fs, p) {
        StateIs(a, h, fs, p);
      }
    }
  }

  lemma MarkedFound(a: Adapter, h: Host, fs: Files)
    requires Lawful(h) && WellFormed(a) && forall p :: !Stranger(a, h, fs, p)
    ensures var m := ReadManifest(a, h, fs);
      AnyMarked(a, h, m, fs, StatusPaths(a, h, m, fs)) <==> exists p :: HoldsMarker(a, h, fs, p)
  {
    hide ReadManifest, StateOf, StatusPaths, Lawful, WellFormed, LookedAt, Stranger, SeenMarked, Contested;
    var m := ReadManifest(a, h, fs);
    forall p
      ensures p in StatusPaths(a, h, m, fs) && SeenMarked(StateOf(a, h, m, fs, p)) <==> HoldsMarker(a, h, fs, p)
    {
      PathsLookedAt(a, h, fs, p);
      if LookedAt(a, h, fs, p) {
        StateIs(a, h, fs, p);
      }
    }
  }

  lemma CountIs(a: Adapter, h: Host, fs: Files)
    requires Lawful(h) && WellFormed(a)
    ensures var m := ReadManifest(a, h, fs);
      |CurrentIn(a, h, m, fs, StatusPaths(a, h, m, fs))| == |a.templates| <==>
        forall p :: p in a.templates ==> InTemplate(a, fs, p)
  {
    hide ReadManifest, StateOf, StatusPaths, Lawful, WellFormed, Stranger, Behind, HoldsMarker;
    var m := ReadManifest(a, h, fs);
    var current := CurrentIn(a, h, m, fs, StatusPaths(a, h, m, fs));
    forall p ensures p in current <==> InTemplate(a, fs, p) {
      PathsLookedAt(a, h, fs, p);
      if LookedAt(a, h, fs, p) {
        StateIs(a, h, fs, p);
      }
    }
    assert |a.templates.Keys| == |a.templates|;
    if current != a.templates.Keys {
      assert current < a.templates.Keys;
      SmallerSet(current, a.templates.Keys);
    }
  }

  lemma SmallerSet(part: set<Path>, all: set<Path>)
    requires part < all
    ensures |part| < |all|
  {
    assert all == part + (all - part);
    assert all - part != {};
  }

  lemma HookFoundIs(a: Adapter, h: Host, fs: Files)
    ensures var m := ReadManifest(a, h, fs);
      && (HookContested(a, h, m, fs) <==> m.Some? && SettingsUnfit(a, h, fs))
      && (HookMissing(a, h, m, fs) <==> m.Some? && HookGone(a, h, fs))
  {
    hide ReadManifest, LooporaTotal, ReadSettings, SettingsUnfit, Groups, LooporaAt;
    SettingsPassIs(a, h, fs);
    if ReadSettings(a, h, fs).Some? {
      TotalFinds(Groups(ReadSettings(a, h, fs).value));
    }
    UnfitIsClaude(a, h, fs);
  }

  lemma UnfitIsClaude(a: Adapter, h: Host, fs: Files)
    ensures SettingsUnfit(a, h, fs) ==> IsClaude(a)
  {
  }

  // ----- The status -----

  /** A status is an error exactly for an unreadable manifest, for a file in the way that is not the adapter's, or for
      settings beside a manifest that cannot be merged. Otherwise, with a manifest, an update is due exactly when a
      file is missing or old or the hook is gone; without one, when all templates are there or some file is marked. */
  lemma StatusesAre(a: Adapter, h: Host, fs: Files)
    requires Lawful(h) && WellFormed(a)
    ensures StatusOf(a, h, fs) == Error <==> InError(a, h, fs)
    ensures StatusOf(a, h, fs) == NeedsUpdate <==>
      && !InError(a, h, fs)
      && if HasManifest(a, h, fs) then (exists p :: Behind(a, h, fs, p)) || HookGone(a, h, fs)
         else (forall p :: p in a.templates ==> InTemplate(a, fs, p)) || exists p :: HoldsMarker(a, h, fs, p)
    ensures StatusOf(a, h, fs) == NotInstalled ==> a.manifestPath !in fs
  {
    hide Lawful, WellFormed, ReadManifest, HasManifest, ManifestError, Stranger, Behind, HookGone, InTemplate,
      HoldsMarker, SettingsUnfit, StatusPaths, AnyContested, AnyToUpdate, AnyMarked, CurrentIn, HookContested,
      HookMissing;
    ManifestThere(a, h, fs);
    ContestedIs(a, h, fs);
    HookFoundIs(a, h, fs);
    CountIs(a, h, fs);
    if ReadManifest(a, h, fs).Some? {
      BehindIs(a, h, fs);
    }
    if forall p :: !Stranger(a, h, fs, p) {
      MarkedFound(a, h, fs);
    }
    NotAllInTemplate(a, h, fs);
  }

  lemma NotAllInTemplate(a: Adapter, h: Host, fs: Files)
    ensures (forall p :: p in a.templates ==> InTemplate(a, fs, p)) ||
            exists p :: Behind(a, h, fs, p) || Stranger(a, h, fs, p)
  {
    hide Ours;
    if p :| p in a.templates && !InTemplate(a, fs, p) {
      assert Behind(a, h, fs, p) || Stranger(a, h, fs, p);
    }
  }
}

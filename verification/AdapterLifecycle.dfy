/** Installing, checking and uninstalling an adapter, as changes to the project's files. */
module AdapterLifecycle {
  import opened Options
  import opened HostConfig
  import opened AdapterFiles

  // ----- Install, step by step, on file maps -----

  /** Text that an install may replace or remove: it carries the marker or is what the manifest recorded. */
  predicate Owned(a: Adapter, h: Host, m: Option<Manifest>, p: Path, text: string) {
    Marked(a, text) || HashMatches(h, m, p, text)
  }

  predicate OwnedFile(a: Adapter, h: Host, m: Option<Manifest>, p: Path, f: File) {
    f.Text? && Owned(a, h, m, p, f.text)
  }

  predicate Replaceable(a: Adapter, h: Host, m: Option<Manifest>, p: Path, f: File)
    requires p in a.templates
  {
    f.Text? && (f.text == a.templates[p] || Owned(a, h, m, p, f.text))
  }

  predicate TargetConflict(a: Adapter, h: Host, fs: Files) {
    exists p :: p in a.templates && p in fs && !Replaceable(a, h, ReadManifest(a, h, fs), p, fs[p])
  }

  function ObsoletePaths(a: Adapter, h: Host, m: Option<Manifest>): set<Path> {
    ManifestPaths(h, m) + a.obsolete - a.templates.Keys
  }

  function Removable(a: Adapter, h: Host, fs: Files): set<Path> {
    var m := ReadManifest(a, h, fs);
    set p | p in ObsoletePaths(a, h, m) && p in fs && OwnedFile(a, h, m, p, fs[p])
  }

  predicate ObsoleteConflict(a: Adapter, h: Host, fs: Files) {
    var m := ReadManifest(a, h, fs);
    exists p :: p in ObsoletePaths(a, h, m) && p in fs && !OwnedFile(a, h, m, p, fs[p])
  }

  function WithoutObsolete(a: Adapter, h: Host, fs: Files): Files {
    fs - Removable(a, h, fs)
  }

  /** The settings object; none at all reads as empty, an unreadable one as nothing. */
  function ReadSettings(a: Adapter, h: Host, fs: Files): Option<Settings> {
    if a.settingsPath !in fs then Some(map[])
    else if fs[a.settingsPath].Unreadable? then None
    else
      match h.parse(fs[a.settingsPath].text)
      case Some(Obj(s)) => Some(s)
      case _ => None
  }

  predicate SettingsPass(a: Adapter, h: Host, fs: Files) {
    var s := ReadSettings(a, h, fs);
    IsClaude(a) ==> s.Some? && Mergeable(s.value)
  }

  function WithTemplates(a: Adapter, fs: Files): Files {
    fs + map p | p in a.templates :: Text(a.templates[p])
  }

  function WithHook(a: Adapter, h: Host, fs: Files): Result<Files> {
    if !IsClaude(a) then Ok(fs)
    else
      match ReadSettings(a, h, fs)
      case None => Conflict
      case Some(s) =>
        match Installed(s)
        case Conflict => Conflict
        case Ok(updated) => Ok(fs[a.settingsPath := Text(h.render(Obj(updated)))])
  }

  function WithManifest(a: Adapter, h: Host, fs: Files, now: string): Files
    requires forall p :: p in a.order ==> p in a.templates
  {
    var existing := ReadManifest(a, h, fs);
    var m := NewManifest(a, h, existing, Entries(a, h, a.order), now);
    if existing == Some(m) then fs else fs[a.manifestPath := Text(h.render(Obj(m)))]
  }

  datatype Outcome = Done | RefusedTargets | RefusedObsolete | RefusedSettings | RefusedMerge

  function InstallOutcome(a: Adapter, h: Host, fs: Files): Outcome {
    if TargetConflict(a, h, fs) then RefusedTargets
    else if ObsoleteConflict(a, h, fs) then RefusedObsolete
    else if !SettingsPass(a, h, WithoutObsolete(a, h, fs)) then RefusedSettings
    else if WithHook(a, h, WithTemplates(a, WithoutObsolete(a, h, fs))).Conflict? then RefusedMerge
    else Done
  }

  function InstallFiles(a: Adapter, h: Host, fs: Files, now: string): Files
    requires forall p :: p in a.order ==> p in a.templates
  {
    match InstallOutcome(a, h, fs)
    case RefusedTargets => fs
    case RefusedObsolete => WithoutObsolete(a, h, fs)
    case RefusedSettings => WithoutObsolete(a, h, fs)
    case RefusedMerge => WithTemplates(a, WithoutObsolete(a, h, fs))
    case Done => WithManifest(a, h, WithHook(a, h, WithTemplates(a, WithoutObsolete(a, h, fs))).value, now)
  }

  // ----- Uninstall -----

  function ManagedPaths(a: Adapter, h: Host, m: Option<Manifest>): set<Path> {
    ManifestPaths(h, m) + a.templates.Keys
  }

  /** What uninstall takes for Loopora's. The hash of a path without template, or without manifest
      entry, is the empty one, which is also the hash of an empty file. */
  predicate TakenAsOurs(a: Adapter, h: Host, m: Option<Manifest>, p: Path, text: string) {
    var template := if p in a.templates then a.templates[p] else "";
    Marked(a, text) || Hash(h, text) in {ManifestHash(h, m, p), Hash(h, template)}
  }

  function Uninstalled(a: Adapter, h: Host, fs: Files): set<Path> {
    var m := ReadManifest(a, h, fs);
    set p | p in ManagedPaths(a, h, m) && p in fs && fs[p].Text? && TakenAsOurs(a, h, m, p, fs[p].text)
  }

  /** Conflict stands for the error raised when the settings cannot be read. */
  function WithoutHook(a: Adapter, h: Host, fs: Files): Result<Files> {
    if !IsClaude(a) || a.settingsPath !in fs then Ok(fs)
    else
      match ReadSettings(a, h, fs)
      case None => Conflict
      case Some(s) =>
        if Removed(s) == s then Ok(fs)
        else if Removed(s) != map[] then Ok(fs[a.settingsPath := Text(h.render(Obj(Removed(s))))])
        else Ok(fs - {a.settingsPath})
  }

  function UninstallFiles(a: Adapter, h: Host, fs: Files): Files {
    var rest := fs - Uninstalled(a, h, fs);
    match WithoutHook(a, h, rest)
    case Conflict => rest
    case Ok(after) => after - {a.manifestPath}
  }

  // ----- Status -----

  datatype Status = Error | NeedsUpdate | IsInstalled | NotInstalled
  datatype FileState = Missing | BadRead | Current(marked: bool) | Outdated(marked: bool) | Foreign

  function StateOf(a: Adapter, h: Host, m: Option<Manifest>, fs: Files, p: Path): FileState {
    var expected := if p in a.templates then a.templates[p] else "";
    if p !in fs then Missing
    else if fs[p].Unreadable? then BadRead
    else
      var text := fs[p].text;
      if expected != "" && Hash(h, text) == Hash(h, expected) then Current(Marked(a, text))
      else if Owned(a, h, m, p, text) then Outdated(Marked(a, text))
      else Foreign
  }

  function StatusPaths(a: Adapter, h: Host, m: Option<Manifest>, fs: Files): set<Path> {
    a.templates.Keys + ManifestPaths(h, m) + (set p | p in a.obsolete && p in fs)
  }

  predicate NeedsUpdating(m: Option<Manifest>, state: FileState) {
    (state.Missing? && m.Some?) || state.Outdated?
  }

  predicate Contested(state: FileState) {
    state.BadRead? || state.Foreign?
  }

  predicate SeenMarked(state: FileState) {
    (state.Current? || state.Outdated?) && state.marked
  }

  /** The settings count as contested only beside a manifest. */
  predicate HookContested(a: Adapter, h: Host, m: Option<Manifest>, fs: Files) {
    IsClaude(a) && m.Some? && !SettingsPass(a, h, fs)
  }

  predicate HookMissing(a: Adapter, h: Host, m: Option<Manifest>, fs: Files) {
    IsClaude(a) && m.Some? && SettingsPass(a, h, fs) && LooporaTotal(Groups(ReadSettings(a, h, fs).value)) == 0
  }

  function Verdict(a: Adapter, present: bool, contested: bool, needsUpdate: bool, current: nat, marked: bool): Status {
    if contested then Error
    else if present && needsUpdate then NeedsUpdate
    else if present && current == |a.templates| then IsInstalled
    else if !present && (current == |a.templates| || marked) then NeedsUpdate
    else NotInstalled
  }

  function CurrentIn(a: Adapter, h: Host, m: Option<Manifest>, fs: Files, paths: set<Path>): set<Path> {
    set p | p in paths && StateOf(a, h, m, fs, p).Current?
  }

  predicate AnyContested(a: Adapter, h: Host, m: Option<Manifest>, fs: Files, paths: set<Path>) {
    exists p :: p in paths && Contested(StateOf(a, h, m, fs, p))
  }

  predicate AnyToUpdate(a: Adapter, h: Host, m: Option<Manifest>, fs: Files, paths: set<Path>) {
    exists p :: p in paths && NeedsUpdating(m, StateOf(a, h, m, fs, p))
  }

  predicate AnyMarked(a: Adapter, h: Host, m: Option<Manifest>, fs: Files, paths: set<Path>) {
    exists p :: p in paths && SeenMarked(StateOf(a, h, m, fs, p))
  }

  function StatusOf(a: Adapter, h: Host, fs: Files): Status {
    if ManifestError(a, h, fs) then Error
    else
      var m := ReadManifest(a, h, fs);
      var paths := StatusPaths(a, h, m, fs);
      Verdict(
        a, m.Some?,
        AnyContested(a, h, m, fs, paths) || HookContested(a, h, m, fs),
        AnyToUpdate(a, h, m, fs, paths) || HookMissing(a, h, m, fs),
        |CurrentIn(a, h, m, fs, paths)|,
        AnyMarked(a, h, m, fs, paths))
  }
}

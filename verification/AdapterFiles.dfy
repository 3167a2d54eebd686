/** Which files an adapter owns: templates, the manifest of the last install, the managed marker. */
module AdapterFiles {
  import opened Options
  import opened PyText
  import opened HostConfig

  type Path = string

  /** A file that exists holds text or cannot be read as text. */
  datatype File = Text(text: string) | Unreadable
  type Files = map<Path, File>

  /** The surrounding library functions: JSON text, hashing of non-empty text, `str` of a JSON value. */
  datatype Host = Host(
    parse: string -> Option<Json>,
    render: Json -> string,
    sha: string -> string,
    str: Json -> string)

  ghost predicate Lawful(h: Host) {
    && (forall v :: h.parse(h.render(v)) == Some(v))
    && (forall t, u :: h.sha(t) == h.sha(u) ==> t == u)
    && (forall t :: h.sha(t) != "" && Strip(h.sha(t)) == h.sha(t))
    && (forall s :: h.str(Str(s)) == s)
  }

  /** `sha256_text`: the empty text has the empty hash. */
  function Hash(h: Host, text: string): string {
    if text == "" then "" else h.sha(text)
  }

  lemma HashInjective(h: Host, t: string, u: string)
    requires Lawful(h)
    ensures Hash(h, t) == Hash(h, u) <==> t == u
    ensures Hash(h, t) == "" <==> t == ""
    ensures Strip(Hash(h, t)) == Hash(h, t)
  {
  }

  datatype Adapter = Adapter(
    kind: string,
    order: seq<Path>,
    templates: map<Path, string>,
    marker: string,
    obsolete: set<Path>,
    manifestPath: Path,
    settingsPath: Path)

  predicate IsClaude(a: Adapter) {
    a.kind == "claude"
  }

  /** Templates are non-empty texts under trimmed paths, and the manifest and the settings are files
      of their own. */
  ghost predicate WellFormed(a: Adapter) {
    && (forall p :: p in a.order <==> p in a.templates)
    && (forall i, j :: 0 <= i < j < |a.order| ==> a.order[i] != a.order[j])
    && (forall p :: p in a.templates ==> a.templates[p] != "" && p != "" && Strip(p) == p)
    && a.manifestPath != a.settingsPath
    && a.manifestPath !in a.templates && a.manifestPath !in a.obsolete
    && a.settingsPath !in a.templates && a.settingsPath !in a.obsolete
  }

  predicate Marked(a: Adapter, text: string) {
    Contains(text, a.marker)
  }

  // ----- The manifest -----

  type Manifest = map<string, Json>

  predicate Truthy(v: Json) {
    match v
    case Null => false
    case Bool(b) => b
    case Int(i) => i != 0
    case Float(x) => x.Infinite? || x.mantissa != 0
    case Str(s) => s != ""
    case List(items) => items != []
    case Obj(fields) => fields != map[]
  }

  /** `str(m.get(key) or "").strip()` */
  function TextField(h: Host, m: map<string, Json>, key: string): string {
    if key in m && Truthy(m[key]) then Strip(h.str(m[key])) else ""
  }

  function ReadManifest(a: Adapter, h: Host, fs: Files): Option<Manifest> {
    if a.manifestPath !in fs || fs[a.manifestPath].Unreadable? then None
    else
      match h.parse(fs[a.manifestPath].text)
      case Some(Obj(m)) => if "adapter" in m && m["adapter"] == Str(a.kind) then Some(m) else None
      case _ => None
  }

  /** A manifest file that is there and cannot be taken as this adapter's. */
  predicate ManifestError(a: Adapter, h: Host, fs: Files) {
    a.manifestPath in fs && ReadManifest(a, h, fs).None?
  }

  function ManagedFiles(m: Option<Manifest>): seq<Json> {
    if m.Some? && "managed_files" in m.value && m.value["managed_files"].List?
    then m.value["managed_files"].items
    else []
  }

  function ManifestPaths(h: Host, m: Option<Manifest>): set<Path> {
    set item | item in ManagedFiles(m) && item.Obj? && TextField(h, item.fields, "path") != ""
      :: TextField(h, item.fields, "path")
  }

  /** The hash of the first entry whose path is literally p. */
  function HashIn(h: Host, items: seq<Json>, p: Path): string {
    if items == [] then ""
    else if items[0].Obj? && "path" in items[0].fields && items[0].fields["path"] == Str(p)
    then TextField(h, items[0].fields, "sha256")
    else HashIn(h, items[1..], p)
  }

  function ManifestHash(h: Host, m: Option<Manifest>, p: Path): string {
    HashIn(h, ManagedFiles(m), p)
  }

  predicate HashMatches(h: Host, m: Option<Manifest>, p: Path, text: string) {
    ManifestHash(h, m, p) != "" && Hash(h, text) == ManifestHash(h, m, p)
  }

  function Entry(h: Host, p: Path, text: string): Json {
    Obj(map["path" := Str(p), "sha256" := Str(Hash(h, text))])
  }

  function Entries(a: Adapter, h: Host, order: seq<Path>): seq<Json>
    requires forall p :: p in order ==> p in a.templates
  {
    if order == [] then [] else [Entry(h, order[0], a.templates[order[0]])] + Entries(a, h, order[1..])
  }

  const SCHEMA_VERSION := 3
  const ADAPTER_VERSION := 73

  function NewManifest(a: Adapter, h: Host, existing: Option<Manifest>, entries: seq<Json>, now: string): Manifest {
    var installedAt := if existing.Some? then TextField(h, existing.value, "installed_at") else "";
    map[
      "adapter" := Str(a.kind),
      "managed_schema_version" := Int(SCHEMA_VERSION),
      "version" := Int(ADAPTER_VERSION),
      "installed_at" := Str(if installedAt != "" then installedAt else now),
      "managed_files" := List(entries)]
  }

  ghost predicate Plain(a: Adapter, order: seq<Path>) {
    forall q :: q in order ==> q in a.templates && q != "" && Strip(q) == q
  }

  lemma EntryFields(h: Host, p: Path, text: string)
    requires Lawful(h) && p != "" && Strip(p) == p
    ensures TextField(h, Entry(h, p, text).fields, "path") == p
    ensures TextField(h, Entry(h, p, text).fields, "sha256") == Hash(h, text)
  {
    HashInjective(h, text, "");
  }

  lemma PlainTail(a: Adapter, order: seq<Path>)
    requires Plain(a, order) && order != []
    ensures Plain(a, order[1..])
  {
    forall q | q in order[1..] ensures q in order {
    }
  }

  lemma {:induction false} EntriesHash(a: Adapter, h: Host, order: seq<Path>, p: Path)
    requires Lawful(h) && Plain(a, order) && p in order
    ensures HashIn(h, Entries(a, h, order), p) == Hash(h, a.templates[p])
  {
    EntryFields(h, order[0], a.templates[order[0]]);
    assert Entries(a, h, order)[1..] == Entries(a, h, order[1..]);
    if p != order[0] {
      PlainTail(a, order);
      EntriesHash(a, h, order[1..], p);
    }
  }

  lemma {:induction false} EntriesListed(a: Adapter, h: Host, order: seq<Path>, item: Json)
    requires forall p :: p in order ==> p in a.templates
    ensures item in Entries(a, h, order) <==> exists p :: p in order && item == Entry(h, p, a.templates[p])
  {
    if order != [] {
      EntriesListed(a, h, order[1..], item);
      assert forall p :: p in order <==> p == order[0] || p in order[1..];
    }
  }

  lemma EntriesPaths(a: Adapter, h: Host, m: Option<Manifest>)
    requires Lawful(h) && WellFormed(a) && ManagedFiles(m) == Entries(a, h, a.order)
    ensures ManifestPaths(h, m) == a.templates.Keys
  {
    forall p | p in ManifestPaths(h, m) ensures p in a.templates {
      var item :| item in ManagedFiles(m) && item.Obj? && TextField(h, item.fields, "path") == p;
      EntriesListed(a, h, a.order, item);
      var q :| q in a.order && item == Entry(h, q, a.templates[q]);
      EntryFields(h, q, a.templates[q]);
    }
    forall p | p in a.templates ensures p in ManifestPaths(h, m) {
      var item := Entry(h, p, a.templates[p]);
      EntryFields(h, p, a.templates[p]);
      EntriesListed(a, h, a.order, item);
      assert item in ManagedFiles(m);
    }
  }

  predicate NewManifestFields(a: Adapter, m: Manifest, now: string, first: bool) {
    && m.Keys == {"adapter", "managed_schema_version", "version", "installed_at", "managed_files"}
    && m["adapter"] == Str(a.kind) && m["managed_schema_version"] == Int(3) && m["version"] == Int(73)
    && (first ==> m["installed_at"] == Str(now))
  }

  lemma NewManifestHas(a: Adapter, h: Host, existing: Option<Manifest>, entries: seq<Json>, now: string)
    ensures NewManifestFields(a, NewManifest(a, h, existing, entries, now), now, existing.None?)
  {
    hide TextField;
  }

  /** The manifest an install writes lists exactly the templates, each with its hash, and a first one is dated now. */
  lemma NewManifestFacts(a: Adapter, h: Host, existing: Option<Manifest>, now: string)
    requires Lawful(h) && WellFormed(a)
    ensures var m := Some(NewManifest(a, h, existing, Entries(a, h, a.order), now));
      && ManifestPaths(h, m) == a.templates.Keys
      && forall p :: p in a.templates ==> ManifestHash(h, m, p) == Hash(h, a.templates[p])
    ensures NewManifestFields(a, NewManifest(a, h, existing, Entries(a, h, a.order), now), now, existing.None?)
  {
    hide NewManifestFields;
    NewManifestHas(a, h, existing, Entries(a, h, a.order), now);
    var m := Some(NewManifest(a, h, existing, Entries(a, h, a.order), now));
    assert ManagedFiles(m) == Entries(a, h, a.order);
    EntriesPaths(a, h, m);
    forall p | p in a.templates ensures ManifestHash(h, m, p) == Hash(h, a.templates[p]) {
      EntriesHash(a, h, a.order, p);
    }
  }
}

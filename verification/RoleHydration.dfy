/** Roles completed from their definitions, with one prompt map shared by all roles. */
module RoleHydration {
  import opened Options
  import opened PyText
  import opened RawValues

  /** A role as supplied; what is no object passes through. */
  datatype Role = NoObject | Role(fields: Fields)

  type Prompts = map<string, string>

  /** The normalisers of archetypes and prompt references, which may reject a text, and the definitions by id. */
  datatype Catalog = Catalog(archetype: string -> Option<string>, promptRef: string -> Option<string>,
    definitions: map<string, Fields>)

  datatype Outcome = Conflict | Hydrated(roles: seq<Role>, prompts: Prompts)

  // ----- Reading values -----

  const CHECKED := ["archetype", "prompt_ref", "executor_kind", "executor_mode", "command_cli", "command_args_text",
    "model", "reasoning_effort"]
  const FILLED := CHECKED + ["name", "posture_notes"]

  /** The value a field is compared by; None when a normaliser rejects it. */
  function Canonical(catalog: Catalog, field: string, raw: Raw): Option<string> {
    if field == "archetype" then catalog.archetype(TextOf(raw))
    else if field == "prompt_ref" then
      if Strip(TextOf(raw)) != "" then catalog.promptRef(Strip(TextOf(raw))) else Some("")
    else if field == "command_args_text" then Some(TextOf(raw))
    else Some(Strip(TextOf(raw)))
  }

  function Newlines(s: string): string {
    if s == "" then ""
    else if s[0] != '\r' then [s[0]] + Newlines(s[1..])
    else if |s| > 1 && s[1] == '\n' then "\n" + Newlines(s[2..])
    else "\n" + Newlines(s[1..])
  }

  function CanonicalPrompt(markdown: string): string {
    Strip(Newlines(markdown))
  }

  // ----- One role -----

  function DefinitionId(fields: Fields): string {
    Strip(Printed(Get(fields, "role_definition_id", Text(""))))
  }

  predicate FieldAgrees(catalog: Catalog, definition: Fields, fields: Fields, field: string) {
    field in fields ==>
      var provided := Canonical(catalog, field, fields[field]);
      provided.Some? && provided == Canonical(catalog, field, Get(definition, field, Null))
  }

  predicate AllAgree(catalog: Catalog, definition: Fields, fields: Fields, names: seq<string>) {
    forall k :: 0 <= k < |names| ==> FieldAgrees(catalog, definition, fields, names[k])
  }

  /** The fields with those of `names` that are missing taken from the definition. */
  function Completed(definition: Fields, fields: Fields, names: seq<string>): Fields {
    map field | field in fields.Keys + set k | 0 <= k < |names| :: names[k] ::
      if field in fields then fields[field] else Get(definition, field, Text(""))
  }

  lemma CompletedMore(definition: Fields, fields: Fields, names: seq<string>, name: string)
    ensures Completed(definition, fields, []) == fields
    ensures var sofar := Completed(definition, fields, names);
      Completed(definition, fields, names + [name]) ==
        if name in sofar then sofar else sofar[name := Get(definition, name, Text(""))]
  {
    var more := names + [name];
    assert forall k :: 0 <= k < |names| ==> more[k] == names[k];
    assert more[|names|] == name;
    assert forall field :: field in Completed(definition, fields, more) <==>
      field in Completed(definition, fields, names) || field == name;
  }

  lemma AgreesLater(catalog: Catalog, definition: Fields, fields: Fields, names: seq<string>, name: string)
    requires forall k :: 0 <= k < |names| ==> names[k] != name
    ensures FieldAgrees(catalog, definition, Completed(definition, fields, names), name) <==>
      FieldAgrees(catalog, definition, fields, name)
  {
  }

  function PromptRef(fields: Fields): string {
    Strip(Printed(Get(fields, "prompt_ref", Text(""))))
  }

  function Markdown(definition: Fields): string {
    Printed(Get(definition, "prompt_markdown", Text("")))
  }

  /** The prompt map after a role wants `markdown` under `ref`, or None when they conflict. */
  function AddPrompt(prompts: Prompts, ref: string, markdown: string): Option<Prompts> {
    if ref == "" || markdown == "" then Some(prompts)
    else if ref !in prompts then Some(prompts[ref := markdown])
    else if CanonicalPrompt(prompts[ref]) != CanonicalPrompt(markdown) then None
    else Some(prompts)
  }

  function HydrateRole(catalog: Catalog, role: Role, prompts: Prompts): Option<(Role, Prompts)> {
    if role.NoObject? || DefinitionId(role.fields) == "" then Some((role, prompts))
    else if DefinitionId(role.fields) !in catalog.definitions then None
    else
      var definition := catalog.definitions[DefinitionId(role.fields)];
      if !AllAgree(catalog, definition, role.fields, CHECKED) then None
      else
        var fields := Completed(definition, role.fields, FILLED);
        match AddPrompt(prompts, PromptRef(fields), Markdown(definition))
        case None => None
        case Some(more) => Some((Role(fields), more))
  }

  function HydrateRoles(catalog: Catalog, roles: seq<Role>, prompts: Prompts): Outcome {
    if roles == [] then Hydrated([], prompts)
    else
      match HydrateRoles(catalog, roles[..|roles| - 1], prompts)
      case Conflict => Conflict
      case Hydrated(done, sofar) =>
        match HydrateRole(catalog, roles[|roles| - 1], sofar)
        case None => Conflict
        case Some((role, more)) => Hydrated(done + [role], more)
  }

  // ----- The same in place -----

  /** The role being completed, and the prompt map of the whole source. */
  class Hydration {
    var fields: Fields
    var prompts: Prompts

    constructor (supplied: Prompts)
      ensures prompts == supplied
    {
      fields, prompts := map[], supplied;
    }

    method HydrateField(catalog: Catalog, definition: Fields, field: string) returns (ok: bool)
      modifies this`fields
      ensures ok == FieldAgrees(catalog, definition, old(fields), field)
      ensures ok ==>
        fields == if field in old(fields) then old(fields) else old(fields)[field := Get(definition, field, Text(""))]
    {
      if field in fields {
        var provided := Canonical(catalog, field, fields[field]);
        var expected := Canonical(catalog, field, Get(definition, field, Null));
        if provided.None? || provided != expected {
          return false;
        }
      }
      if field !in fields {
        fields := fields[field := Get(definition, field, Text(""))];
      }
      ok := true;
    }

    method HydrateFields(catalog: Catalog, definition: Fields) returns (ok: bool)
      modifies this`fields
      ensures ok == AllAgree(catalog, definition, old(fields), CHECKED)
      ensures ok ==> fields == Completed(definition, old(fields), FILLED)
    {
      hide Completed, FieldAgrees;
      FieldsApart();
      CompletedMore(definition, fields, [], "");
      for k := 0 to |CHECKED|
        invariant fields == Completed(definition, old(fields), CHECKED[..k])
        invariant AllAgree(catalog, definition, old(fields), CHECKED[..k])
      {
        CompletedMore(definition, old(fields), CHECKED[..k], CHECKED[k]);
        AgreesLater(catalog, definition, old(fields), CHECKED[..k], CHECKED[k]);
        assert CHECKED[..k + 1] == CHECKED[..k] + [CHECKED[k]];
        ok := HydrateField(catalog, definition, CHECKED[k]);
        if !ok {
          return;
        }
      }
      assert CHECKED[..|CHECKED|] == CHECKED;
      CompletedMore(definition, old(fields), CHECKED, "name");
      if "name" !in fields {
        fields := fields["name" := Get(definition, "name", Text(""))];
      }
      CompletedMore(definition, old(fields), CHECKED + ["name"], "posture_notes");
      if "posture_notes" !in fields {
        fields := fields["posture_notes" := Get(definition, "posture_notes", Text(""))];
      }
      assert CHECKED + ["name"] + ["posture_notes"] == FILLED;
      ok := true;
    }

    method HydratePrompt(definition: Fields) returns (ok: bool)
      modifies this`prompts
      ensures ok == AddPrompt(old(prompts), PromptRef(fields), Markdown(definition)).Some?
      ensures ok ==> Some(prompts) == AddPrompt(old(prompts), PromptRef(fields), Markdown(definition))
    {
      var ref := PromptRef(fields);
      if ref == "" {
        return true;
      }
      var markdown := Markdown(definition);
      if ref !in prompts {
        if markdown != "" {
          prompts := prompts[ref := markdown];
        }
        return true;
      }
      ok := !(markdown != "" && CanonicalPrompt(prompts[ref]) != CanonicalPrompt(markdown));
    }

    method Hydrate(catalog: Catalog, role: Role) returns (ok: bool, hydrated: Role)
      modifies this
      ensures ok == HydrateRole(catalog, role, old(prompts)).Some?
      ensures ok ==> Some((hydrated, prompts)) == HydrateRole(catalog, role, old(prompts))
    {
      if role.NoObject? || DefinitionId(role.fields) == "" {
        return true, role;
      }
      hydrated := role;
      if DefinitionId(role.fields) !in catalog.definitions {
        return false, role;
      }
      fields := role.fields;
      var definition := catalog.definitions[DefinitionId(fields)];
      ok := HydrateFields(catalog, definition);
      if ok {
        ok := HydratePrompt(definition);
        hydrated := Role(fields);
      }
    }
  }

  method HydrateRoleSnapshots(catalog: Catalog, roles: seq<Role>, supplied: Prompts) returns (outcome: Outcome)
    ensures outcome == HydrateRoles(catalog, roles, supplied)
  {
    var hydration := new Hydration(supplied);
    var done := [];
    for k := 0 to |roles|
      invariant HydrateRoles(catalog, roles[..k], supplied) == Hydrated(done, hydration.prompts)
      invariant fresh(hydration)
    {
      assert roles[..k + 1][..k] == roles[..k];
      var ok, role := hydration.Hydrate(catalog, roles[k]);
      if !ok {
        ConflictStays(catalog, roles, k + 1, supplied);
        return Conflict;
      }
      done := done + [role];
    }
    assert roles[..|roles|] == roles;
    outcome := Hydrated(done, hydration.prompts);
  }

  lemma {:induction false} ConflictStays(catalog: Catalog, roles: seq<Role>, k: nat, supplied: Prompts)
    requires k <= |roles| && HydrateRoles(catalog, roles[..k], supplied).Conflict?
    ensures HydrateRoles(catalog, roles, supplied).Conflict?
  {
    if k < |roles| {
      assert roles[..|roles| - 1][..k] == roles[..k];
      ConflictStays(catalog, roles[..|roles| - 1], k, supplied);
    } else {
      assert roles[..k] == roles;
    }
  }

  lemma FieldsApart()
    ensures forall j, k :: 0 <= j < k < |CHECKED| ==> CHECKED[j] != CHECKED[k]
  {
    assert |"archetype"| == 9 && |"prompt_ref"| == 10 && |"executor_kind"| == 13 && |"executor_mode"| == 13;
    assert |"command_cli"| == 11 && |"command_args_text"| == 17 && |"model"| == 5 && |"reasoning_effort"| == 16;
    assert "executor_kind"[9] != "executor_mode"[9];
  }
}

/** Hydration field by field: which fields are compared and how, which are filled, when two prompts are the same. */
module HydrationFields {
  import opened Options
  import opened PyText
  import opened RawValues
  import opened RoleHydration
  import opened HydrationLaws

  // ----- The fields that are filled -----

  predicate FilledName(name: string) {
    || name == "archetype" || name == "prompt_ref" || name == "executor_kind" || name == "executor_mode"
    || name == "command_cli" || name == "command_args_text" || name == "model" || name == "reasoning_effort"
    || name == "name" || name == "posture_notes"
  }

  lemma FilledNames(name: string)
    ensures (exists k :: 0 <= k < |FILLED| && FILLED[k] == name) <==> FilledName(name)
  {
    assert FILLED[0] == "archetype" && FILLED[1] == "prompt_ref" && FILLED[2] == "executor_kind";
    assert FILLED[3] == "executor_mode" && FILLED[4] == "command_cli" && FILLED[5] == "command_args_text";
    assert FILLED[6] == "model" && FILLED[7] == "reasoning_effort" && FILLED[8] == "name";
    assert FILLED[9] == "posture_notes";
  }

  /** The role's definition: named by a trimmed `role_definition_id`, and known. */
  ghost predicate DefinedBy(catalog: Catalog, role: Role, definition: Fields) {
    && role.Role? && "role_definition_id" in role.fields
    && Strip(Printed(role.fields["role_definition_id"])) != ""
    && Strip(Printed(role.fields["role_definition_id"])) in catalog.definitions
    && definition == catalog.definitions[Strip(Printed(role.fields["role_definition_id"]))]
  }

  lemma DefinedIs(catalog: Catalog, role: Role, definition: Fields)
    ensures DefinedBy(catalog, role, definition) <==> Found(catalog, role) && definition == DefinitionOf(catalog, role)
  {
    StrippedIsFixed("");
  }

  /** A hydrated role has the supplied fields with their values, and of the ten fields those that were missing, from the
      definition or empty; it has no others. */
  lemma HydratedFields(catalog: Catalog, roles: seq<Role>, supplied: Prompts, i: nat, definition: Fields, name: string)
    requires HydrateRoles(catalog, roles, supplied).Hydrated?
    requires i < |roles| && DefinedBy(catalog, roles[i], definition)
    ensures i < |HydrateRoles(catalog, roles, supplied).roles|
    ensures var before, after := roles[i], HydrateRoles(catalog, roles, supplied).roles[i];
      && after.Role?
      && (name in after.fields <==> name in before.fields || FilledName(name))
      && (name in after.fields ==>
            after.fields[name] ==
              if name in before.fields then before.fields[name]
              else if name in definition then definition[name]
              else Text(""))
  {
    hide HydrateRoles, Fits, Explains, FilledName, DefinedBy, Found;
    HydratedFacts(catalog, roles, supplied);
    DefinedIs(catalog, roles[i], definition);
    FullIs(catalog, roles[i], name);
  }

  lemma FullIs(catalog: Catalog, role: Role, name: string)
    requires Found(catalog, role)
    ensures var full, definition := Full(catalog, role), DefinitionOf(catalog, role);
      && full.Role?
      && (name in full.fields <==> name in role.fields || FilledName(name))
      && (name in full.fields ==>
            full.fields[name] ==
              if name in role.fields then role.fields[name]
              else if name in definition then definition[name]
              else Text(""))
  {
    hide FilledName;
    FilledNames(name);
  }

  // ----- The fields that are compared -----

  /** Two texts a normaliser accepts as the same. */
  predicate SameNormal(normal: string -> Option<string>, a: string, b: string) {
    normal(a).Some? && normal(a) == normal(b)
  }

  predicate SameRef(normal: string -> Option<string>, a: string, b: string) {
    if a == "" || b == "" then
      (a == "" || normal(a) == Some("")) && (b == "" || normal(b) == Some(""))
    else SameNormal(normal, a, b)
  }

  /** A supplied field against the definition's, null where it has none: `archetype` and `prompt_ref` by their normal
      form, `command_args_text` to the letter, the others trimmed. */
  predicate SameValue(catalog: Catalog, field: string, a: Raw, b: Raw) {
    if field == "archetype" then SameNormal(catalog.archetype, TextOf(a), TextOf(b))
    else if field == "prompt_ref" then SameRef(catalog.promptRef, Strip(TextOf(a)), Strip(TextOf(b)))
    else if field == "command_args_text" then TextOf(a) == TextOf(b)
    else Strip(TextOf(a)) == Strip(TextOf(b))
  }

  predicate ComparedName(name: string) {
    FilledName(name) && name != "name" && name != "posture_notes"
  }

  lemma ComparedNames(name: string)
    ensures (exists k :: 0 <= k < |CHECKED| && CHECKED[k] == name) <==> ComparedName(name)
  {
    assert CHECKED[0] == "archetype" && CHECKED[1] == "prompt_ref" && CHECKED[2] == "executor_kind";
    assert CHECKED[3] == "executor_mode" && CHECKED[4] == "command_cli" && CHECKED[5] == "command_args_text";
    assert CHECKED[6] == "model" && CHECKED[7] == "reasoning_effort";
    NamesApart();
  }

  lemma NamesApart()
    ensures !exists k :: 0 <= k < |CHECKED| && CHECKED[k] in {"name", "posture_notes"}
  {
    assert |"archetype"| == 9 && |"prompt_ref"| == 10 && |"executor_kind"| == 13 && |"executor_mode"| == 13;
    assert |"command_cli"| == 11 && |"command_args_text"| == 17 && |"model"| == 5 && |"reasoning_effort"| == 16;
    assert |"name"| == 4 && |"posture_notes"| == 13;
    assert "executor_kind"[0] == 'e' && "executor_mode"[0] == 'e' && "posture_notes"[0] == 'p';
  }

  /** A role agrees with its definition exactly when each of the eight compared fields it supplies has the same
      value. */
  lemma AgreesWhen(catalog: Catalog, definition: Fields, fields: Fields)
    ensures AllAgree(catalog, definition, fields, CHECKED) <==>
      forall name :: ComparedName(name) && name in fields ==>
        SameValue(catalog, name, fields[name], if name in definition then definition[name] else Null)
  {
    hide ComparedName, SameValue, FieldAgrees;
    forall name: string
      ensures (exists k :: 0 <= k < |CHECKED| && CHECKED[k] == name) <==> ComparedName(name)
      ensures FieldAgrees(catalog, definition, fields, name) <==> (name in fields ==>
        SameValue(catalog, name, fields[name], if name in definition then definition[name] else Null))
    {
      ComparedNames(name);
      FieldAgreesIs(catalog, definition, fields, name);
    }
  }

  lemma FieldAgreesIs(catalog: Catalog, definition: Fields, fields: Fields, name: string)
    ensures FieldAgrees(catalog, definition, fields, name) <==> (name in fields ==>
      SameValue(catalog, name, fields[name], if name in definition then definition[name] else Null))
  {
    hide Strip;
  }

  // ----- The prompts -----

  /** A prompt of a definition is there under the role's reference, up to white space around it and line ends; what is
      not supplied was brought by some role, literally. */
  lemma HydratedPrompts(catalog: Catalog, roles: seq<Role>, supplied: Prompts, i: nat, definition: Fields)
    requires HydrateRoles(catalog, roles, supplied).Hydrated?
    requires i < |roles| && DefinedBy(catalog, roles[i], definition)
    ensures var out := HydrateRoles(catalog, roles, supplied);
      && i < |out.roles| && out.roles[i].Role? && "prompt_ref" in out.roles[i].fields
      && var ref := Strip(Printed(out.roles[i].fields["prompt_ref"]));
      && ("prompt_markdown" in definition && Printed(definition["prompt_markdown"]) != "" && ref != "" ==>
            && ref in out.prompts
            && Strip(Newlines(out.prompts[ref])) == Strip(Newlines(Printed(definition["prompt_markdown"])))
            && (ref in supplied ==> out.prompts[ref] == supplied[ref]))
  {
    hide HydrateRoles, Fits, FilledName, DefinedBy, Found, Newlines, Strip;
    HydratedFacts(catalog, roles, supplied);
    DefinedIs(catalog, roles[i], definition);
    FullIs(catalog, roles[i], "prompt_ref");
    PromptRefFilled();
  }

  lemma PromptRefFilled()
    ensures FilledName("prompt_ref")
  {
  }

  lemma PromptsAdded(catalog: Catalog, roles: seq<Role>, supplied: Prompts, ref: string)
    requires HydrateRoles(catalog, roles, supplied).Hydrated?
    requires ref in HydrateRoles(catalog, roles, supplied).prompts && ref !in supplied
    ensures ref != ""
    ensures exists i, definition ::
      && 0 <= i < |roles| && DefinedBy(catalog, roles[i], definition)
      && "prompt_markdown" in definition
      && HydrateRoles(catalog, roles, supplied).prompts[ref] == Printed(definition["prompt_markdown"]) != ""
      && Strip(Printed(Get(Full(catalog, roles[i]).fields, "prompt_ref", Text("")))) == ref
  {
    hide HydrateRoles, Fits, DefinedBy, Found, Strip, Full;
    HydratedFacts(catalog, roles, supplied);
    var prompts := HydrateRoles(catalog, roles, supplied).prompts;
    var i :| 0 <= i < |roles| && Wants(catalog, roles[i], ref) && prompts[ref] == Wanted(catalog, roles[i]);
    DefinedIs(catalog, roles[i], DefinitionOf(catalog, roles[i]));
  }

  predicate Without(s: string, c: char) {
    forall k :: 0 <= k < |s| ==> s[k] != c
  }

  lemma {:induction false} NewlinesAppend(a: string, b: string)
    requires a != "" && b != "" && a[|a| - 1] == '\r' ==> b[0] != '\n'
    ensures Newlines(a + b) == Newlines(a) + Newlines(b)
  {
    if a == "" {
      assert a + b == b;
    } else {
      var n := if |a| > 1 && a[0] == '\r' && a[1] == '\n' then 2 else 1;
      assert (a + b)[n..] == a[n..] + b;
      NewlinesAppend(a[n..], b);
    }
  }

  lemma {:induction false} NewlinesNone(s: string)
    requires Without(s, '\r')
    ensures Newlines(s) == s
  {
    if s != "" {
      NewlinesNone(s[1..]);
    }
  }

  /** Prompts are compared with their line ends made alike: a carriage return with the line feed after it, or alone, is
      one line feed, and nothing else is changed. */
  lemma NewlinesAre(a: string, b: string)
    ensures Without(a, '\r') ==> Newlines(a) == a
    ensures Newlines(a + ("\r\n" + b)) == Newlines(a) + "\n" + Newlines(b)
    ensures b == "" || b[0] != '\n' ==> Newlines(a + ("\r" + b)) == Newlines(a) + "\n" + Newlines(b)
  {
    if Without(a, '\r') {
      NewlinesNone(a);
    }
    NewlinesAppend(a, "\r\n" + b);
    assert ("\r\n" + b)[2..] == b;
    assert Newlines("\r\n" + b) == "\n" + Newlines(b);
    NewlinesAppend(a, "\r" + b);
    assert ("\r" + b)[1..] == b;
  }
}

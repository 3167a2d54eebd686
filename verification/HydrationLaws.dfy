/** When hydration succeeds, what it leaves agreed, and what a second hydration does. */
module HydrationLaws {
  import opened Options
  import opened PyText
  import opened RawValues
  import opened RoleHydration

  predicate IsDefined(role: Role) {
    role.Role? && DefinitionId(role.fields) != ""
  }

  predicate Found(catalog: Catalog, role: Role) {
    IsDefined(role) && DefinitionId(role.fields) in catalog.definitions
  }

  function DefinitionOf(catalog: Catalog, role: Role): Fields
    requires Found(catalog, role)
  {
    catalog.definitions[DefinitionId(role.fields)]
  }

  /** The definition exists and no supplied field contradicts it. */
  predicate Fits(catalog: Catalog, role: Role) {
    IsDefined(role) ==> Found(catalog, role) && AllAgree(catalog, DefinitionOf(catalog, role), role.fields, CHECKED)
  }

  function Full(catalog: Catalog, role: Role): Role {
    if Found(catalog, role) then Role(Completed(DefinitionOf(catalog, role), role.fields, FILLED)) else role
  }

  function Ref(catalog: Catalog, role: Role): string
    requires Found(catalog, role)
  {
    PromptRef(Full(catalog, role).fields)
  }

  function Wanted(catalog: Catalog, role: Role): string
    requires Found(catalog, role)
  {
    Markdown(DefinitionOf(catalog, role))
  }

  /** The role brings a prompt of its own under a reference. */
  predicate Wants(catalog: Catalog, role: Role, ref: string) {
    Found(catalog, role) && Ref(catalog, role) == ref && ref != "" && Wanted(catalog, role) != ""
  }

  predicate SamePrompt(a: string, b: string) {
    CanonicalPrompt(a) == CanonicalPrompt(b)
  }

  // ----- Success, said without the walk -----

  ghost predicate SuppliedAgree(catalog: Catalog, roles: seq<Role>, supplied: Prompts) {
    forall i :: 0 <= i < |roles| && Found(catalog, roles[i]) ==>
      var ref := Ref(catalog, roles[i]);
      Wants(catalog, roles[i], ref) && ref in supplied ==> SamePrompt(supplied[ref], Wanted(catalog, roles[i]))
  }

  ghost predicate RolesAgree(catalog: Catalog, roles: seq<Role>) {
    forall i, j :: 0 <= i < j < |roles| && Found(catalog, roles[i]) && Found(catalog, roles[j]) ==>
      var ref := Ref(catalog, roles[i]);
      Wants(catalog, roles[i], ref) && Wants(catalog, roles[j], ref) ==>
        SamePrompt(Wanted(catalog, roles[i]), Wanted(catalog, roles[j]))
  }

  ghost predicate Consistent(catalog: Catalog, roles: seq<Role>, supplied: Prompts) {
    && (forall i :: 0 <= i < |roles| ==> Fits(catalog, roles[i]))
    && SuppliedAgree(catalog, roles, supplied)
    && RolesAgree(catalog, roles)
  }

  /** What the prompt map has become: the supplied entries, and for every other entry a role that brought it. */
  ghost predicate Explains(catalog: Catalog, roles: seq<Role>, supplied: Prompts, prompts: Prompts) {
    && (forall ref :: ref in supplied ==> ref in prompts && prompts[ref] == supplied[ref])
    && (forall i :: 0 <= i < |roles| && Found(catalog, roles[i]) ==>
          var ref := Ref(catalog, roles[i]);
          Wants(catalog, roles[i], ref) ==> ref in prompts && SamePrompt(prompts[ref], Wanted(catalog, roles[i])))
    && (forall ref :: ref in prompts && ref !in supplied ==> Brought(catalog, roles, ref, prompts[ref]))
  }

  ghost predicate Brought(catalog: Catalog, roles: seq<Role>, ref: string, markdown: string) {
    exists i :: 0 <= i < |roles| && Wants(catalog, roles[i], ref) && markdown == Wanted(catalog, roles[i])
  }

  lemma HydrateRoleIs(catalog: Catalog, role: Role, prompts: Prompts)
    ensures HydrateRole(catalog, role, prompts) ==
      if !Fits(catalog, role) then None
      else if !IsDefined(role) then Some((role, prompts))
      else
        match AddPrompt(prompts, Ref(catalog, role), Wanted(catalog, role))
        case None => None
        case Some(more) => Some((Full(catalog, role), more))
  {
  }

  lemma ExplainsNext(catalog: Catalog, roles: seq<Role>, supplied: Prompts, prompts: Prompts, role: Role)
    requires Explains(catalog, roles, supplied, prompts) && Found(catalog, role)
    requires AddPrompt(prompts, Ref(catalog, role), Wanted(catalog, role)).Some?
    ensures Explains(catalog, roles + [role], supplied,
      AddPrompt(prompts, Ref(catalog, role), Wanted(catalog, role)).value)
  {
    hide Ref, Wanted, CanonicalPrompt, Found;
    var more := AddPrompt(prompts, Ref(catalog, role), Wanted(catalog, role)).value;
    var all := roles + [role];
    assert all[|roles|] == role;
    forall ref | ref in more && ref !in supplied ensures Brought(catalog, all, ref, more[ref]) {
      if ref in prompts {
        var i :| 0 <= i < |roles| && Wants(catalog, roles[i], ref) && more[ref] == Wanted(catalog, roles[i]);
        assert all[i] == roles[i];
      }
    }
  }

  lemma ExplainsPassing(catalog: Catalog, roles: seq<Role>, supplied: Prompts, prompts: Prompts, role: Role)
    requires Explains(catalog, roles, supplied, prompts) && !Found(catalog, role)
    ensures Explains(catalog, roles + [role], supplied, prompts)
  {
    hide Ref, Wanted, CanonicalPrompt, Found;
    var all := roles + [role];
    assert all[|roles|] == role;
    forall ref | ref in prompts && ref !in supplied ensures Brought(catalog, all, ref, prompts[ref]) {
      var i :| 0 <= i < |roles| && Wants(catalog, roles[i], ref) && prompts[ref] == Wanted(catalog, roles[i]);
      assert all[i] == roles[i];
    }
  }

  /** On success every role with a definition is the completed one, the others are as they were, supplied prompts are
      as they were, and the map agrees with every prompt a role brought. */
  lemma {:induction false} HydratedFacts(catalog: Catalog, roles: seq<Role>, supplied: Prompts)
    requires HydrateRoles(catalog, roles, supplied).Hydrated?
    ensures var out := HydrateRoles(catalog, roles, supplied);
      && |out.roles| == |roles|
      && (forall i :: 0 <= i < |roles| ==> Fits(catalog, roles[i]) && out.roles[i] == Full(catalog, roles[i]))
      && Explains(catalog, roles, supplied, out.prompts)
  {
    hide Fits, Full, Found, HydrateRole, Explains, AddPrompt;
    if roles == [] {
      ExplainsNothing(catalog, supplied);
    } else {
      var before, last := roles[..|roles| - 1], roles[|roles| - 1];
      HydratedFacts(catalog, before, supplied);
      var sofar := HydrateRoles(catalog, before, supplied);
      HydrateRoleIs(catalog, last, sofar.prompts);
      FitsFound(catalog, last);
      if IsDefined(last) {
        ExplainsNext(catalog, before, supplied, sofar.prompts, last);
      } else {
        ExplainsPassing(catalog, before, supplied, sofar.prompts, last);
      }
      assert roles == before + [last];
    }
  }

  lemma ExplainsNothing(catalog: Catalog, supplied: Prompts)
    ensures Explains(catalog, [], supplied, supplied)
  {
  }

  lemma FitsFound(catalog: Catalog, role: Role)
    ensures Fits(catalog, role) ==> (IsDefined(role) <==> Found(catalog, role))
    ensures !IsDefined(role) ==> Fits(catalog, role) && Full(catalog, role) == role && !Found(catalog, role)
  {
  }

  /** With a map that explains the earlier roles, a role's prompt is accepted exactly when it agrees with the supplied
      entry and with every earlier role under its reference. */
  lemma AddPromptWorks(catalog: Catalog, roles: seq<Role>, supplied: Prompts, prompts: Prompts, role: Role)
    requires Explains(catalog, roles, supplied, prompts) && Found(catalog, role)
    ensures AddPrompt(prompts, Ref(catalog, role), Wanted(catalog, role)).Some? <==>
      var ref, wanted := Ref(catalog, role), Wanted(catalog, role);
      Wants(catalog, role, ref) ==>
        && (ref in supplied ==> SamePrompt(supplied[ref], wanted))
        && forall i :: 0 <= i < |roles| && Wants(catalog, roles[i], ref) ==>
            SamePrompt(Wanted(catalog, roles[i]), wanted)
  {
    hide Ref, Wanted, CanonicalPrompt, Found;
    var ref := Ref(catalog, role);
    if ref in prompts && ref !in supplied {
      assert Brought(catalog, roles, ref, prompts[ref]);
    }
  }

  /** Hydration succeeds exactly when the roles are consistent: a condition without order. */
  lemma {:induction false} SucceedsIffConsistent(catalog: Catalog, roles: seq<Role>, supplied: Prompts)
    ensures HydrateRoles(catalog, roles, supplied).Hydrated? <==> Consistent(catalog, roles, supplied)
  {
    hide Fits, HydrateRole, Explains, AddPrompt, Consistent, Wanted, Ref, Found, Full;
    if roles == [] {
      ConsistentNone(catalog, supplied);
    } else {
      var before, last := roles[..|roles| - 1], roles[|roles| - 1];
      assert roles == before + [last];
      SucceedsIffConsistent(catalog, before, supplied);
      ConsistentNext(catalog, before, last, supplied);
      if Consistent(catalog, before, supplied) {
        var sofar := HydrateRoles(catalog, before, supplied);
        HydratedFacts(catalog, before, supplied);
        HydrateRoleIs(catalog, last, sofar.prompts);
        FitsFound(catalog, last);
        if Found(catalog, last) {
          AddPromptWorks(catalog, before, supplied, sofar.prompts, last);
        }
      }
    }
  }

  lemma ConsistentNone(catalog: Catalog, supplied: Prompts)
    ensures Consistent(catalog, [], supplied)
  {
  }

  /** What one more role adds to consistency. */
  lemma ConsistentNext(catalog: Catalog, roles: seq<Role>, role: Role, supplied: Prompts)
    ensures Consistent(catalog, roles + [role], supplied) <==>
      && Consistent(catalog, roles, supplied) && Fits(catalog, role)
      && (Found(catalog, role) ==>
            var ref, wanted := Ref(catalog, role), Wanted(catalog, role);
            Wants(catalog, role, ref) ==>
              && (ref in supplied ==> SamePrompt(supplied[ref], wanted))
              && forall i :: 0 <= i < |roles| && Wants(catalog, roles[i], ref) ==>
                  SamePrompt(Wanted(catalog, roles[i]), wanted))
  {
    hide Fits, Wanted, Ref, Found, SamePrompt;
    var all := roles + [role];
    assert all[|roles|] == role;
    assert forall i :: 0 <= i < |roles| ==> all[i] == roles[i];
    if Consistent(catalog, all, supplied) {
      assert forall i :: 0 <= i < |roles| ==> Fits(catalog, roles[i]);
    }
  }

  // ----- Agreement -----

  lemma CheckedIsFilled(k: nat)
    requires k < |CHECKED|
    ensures FILLED[k] == CHECKED[k]
  {
  }

  lemma FullAgrees(catalog: Catalog, role: Role, k: nat)
    requires Found(catalog, role) && Fits(catalog, role) && k < |CHECKED|
    ensures var fields := Full(catalog, role).fields;
      && CHECKED[k] in fields
      && Canonical(catalog, CHECKED[k], fields[CHECKED[k]])
         == Canonical(catalog, CHECKED[k], Get(DefinitionOf(catalog, role), CHECKED[k], Null))
  {
    hide Canonical;
    CheckedIsFilled(k);
    assert FILLED[k] in Full(catalog, role).fields;
    EmptyLikeNull(catalog, CHECKED[k]);
  }

  lemma EmptyLikeNull(catalog: Catalog, field: string)
    ensures Canonical(catalog, field, Text("")) == Canonical(catalog, field, Null)
  {
  }

  /** After a successful hydration every role with a definition has all checked fields, and each reads the same as in
      the definition; its prompt is the map's, up to line ends and outer white space. */
  lemma HydratedRolesAgree(catalog: Catalog, roles: seq<Role>, supplied: Prompts, i: nat, k: nat)
    requires HydrateRoles(catalog, roles, supplied).Hydrated? && i < |roles| && IsDefined(roles[i]) && k < |CHECKED|
    ensures var out := HydrateRoles(catalog, roles, supplied);
      && |out.roles| == |roles| && Found(catalog, roles[i])
      && var definition, role := DefinitionOf(catalog, roles[i]), out.roles[i];
      && role.Role? && CHECKED[k] in role.fields
      && Canonical(catalog, CHECKED[k], role.fields[CHECKED[k]])
         == Canonical(catalog, CHECKED[k], Get(definition, CHECKED[k], Null))
      && (PromptRef(role.fields) != "" && Markdown(definition) != "" ==>
            PromptRef(role.fields) in out.prompts &&
              SamePrompt(out.prompts[PromptRef(role.fields)], Markdown(definition)))
  {
    hide HydrateRoles, Canonical, CanonicalPrompt, PromptRef, Markdown;
    HydratedFacts(catalog, roles, supplied);
    FitsFound(catalog, roles[i]);
    FullAgrees(catalog, roles[i], k);
    assert Wants(catalog, roles[i], Ref(catalog, roles[i])) <==>
      Ref(catalog, roles[i]) != "" && Wanted(catalog, roles[i]) != "";
  }

  // ----- A second hydration -----

  /** The definition's own values are ones the normalisers accept. */
  predicate ValidDefinition(catalog: Catalog, definition: Fields) {
    forall k :: 0 <= k < |CHECKED| ==> Canonical(catalog, CHECKED[k], Get(definition, CHECKED[k], Null)).Some?
  }

  lemma FullTwice(catalog: Catalog, role: Role)
    requires Found(catalog, role)
    ensures var full := Full(catalog, role);
      && Found(catalog, full) && DefinitionOf(catalog, full) == DefinitionOf(catalog, role) &&
          Full(catalog, full) == full
  {
    var definition := DefinitionOf(catalog, role);
    var fields := Completed(definition, role.fields, FILLED);
    assert Strip("") == "";
    assert "role_definition_id" in role.fields;
    assert DefinitionId(fields) == DefinitionId(role.fields);
    forall field | field in Completed(definition, fields, FILLED) ensures field in fields {
    }
    assert Completed(definition, fields, FILLED) == fields;
  }

  lemma FitsAgain(catalog: Catalog, role: Role)
    requires Found(catalog, role) && Fits(catalog, role)
    ensures Fits(catalog, Full(catalog, role)) <==> ValidDefinition(catalog, DefinitionOf(catalog, role))
  {
    hide Canonical;
    var definition, full := DefinitionOf(catalog, role), Full(catalog, role);
    FullTwice(catalog, role);
    forall k | 0 <= k < |CHECKED|
      ensures FieldAgrees(catalog, definition, full.fields, CHECKED[k]) <==>
        Canonical(catalog, CHECKED[k], Get(definition, CHECKED[k], Null)).Some?
    {
      FullAgrees(catalog, role, k);
    }
  }

  /** A completed role passes again through the map it contributed to, unless its definition is not valid. */
  lemma HydrateRoleAgain(catalog: Catalog, roles: seq<Role>, supplied: Prompts, prompts: Prompts, i: nat)
    requires Explains(catalog, roles, supplied, prompts) && i < |roles| && Fits(catalog, roles[i])
    ensures HydrateRole(catalog, Full(catalog, roles[i]), prompts) ==
      if Found(catalog, roles[i]) && !ValidDefinition(catalog, DefinitionOf(catalog, roles[i])) then None
      else Some((Full(catalog, roles[i]), prompts))
  {
    hide Fits, ValidDefinition, CanonicalPrompt;
    var role := roles[i];
    FitsFound(catalog, role);
    if Found(catalog, role) {
      FullTwice(catalog, role);
      FitsAgain(catalog, role);
      HydrateRoleIs(catalog, Full(catalog, role), prompts);
      assert Ref(catalog, Full(catalog, role)) == Ref(catalog, role) &&
          Wanted(catalog, Full(catalog, role)) == Wanted(catalog, role);
    }
  }

  ghost predicate ValidDefinitions(catalog: Catalog, roles: seq<Role>) {
    forall i :: 0 <= i < |roles| && Found(catalog, roles[i]) ==>
        ValidDefinition(catalog, DefinitionOf(catalog, roles[i]))
  }

  lemma {:induction false} HydratePrefixAgain(catalog: Catalog, roles: seq<Role>, supplied: Prompts, n: nat)
    requires HydrateRoles(catalog, roles, supplied).Hydrated? && n <= |roles|
    ensures var out := HydrateRoles(catalog, roles, supplied);
      && |out.roles| == |roles|
      && HydrateRoles(catalog, out.roles[..n], out.prompts) ==
         if ValidDefinitions(catalog, roles[..n]) then Hydrated(out.roles[..n], out.prompts) else Conflict
    decreases n
  {
    hide Explains, HydrateRole, HydrateRoles, Fits, Full, Found, ValidDefinitions, ValidDefinition;
    HydratedFacts(catalog, roles, supplied);
    var out := HydrateRoles(catalog, roles, supplied);
    if n == 0 {
      HydrateNone(catalog, out.prompts);
      assert out.roles[..0] == [] && roles[..0] == [];
    } else {
      HydratePrefixAgain(catalog, roles, supplied, n - 1);
      HydrateRoleAgain(catalog, roles, supplied, out.prompts, n - 1);
      HydrateNext(catalog, out.roles, n, out.prompts);
      assert out.roles[..n] == out.roles[..n - 1] + [out.roles[n - 1]];
      assert roles[..n] == roles[..n - 1] + [roles[n - 1]];
      ValidNext(catalog, roles[..n - 1], roles[n - 1]);
    }
  }

  lemma HydrateNone(catalog: Catalog, prompts: Prompts)
    ensures HydrateRoles(catalog, [], prompts) == Hydrated([], prompts) && ValidDefinitions(catalog, [])
  {
  }

  lemma HydrateNext(catalog: Catalog, roles: seq<Role>, n: nat, prompts: Prompts)
    requires 0 < n <= |roles|
    ensures HydrateRoles(catalog, roles[..n], prompts) ==
      match HydrateRoles(catalog, roles[..n - 1], prompts)
      case Conflict => Conflict
      case Hydrated(done, sofar) =>
        match HydrateRole(catalog, roles[n - 1], sofar)
        case None => Conflict
        case Some((role, more)) => Hydrated(done + [role], more)
  {
    hide HydrateRole;
    assert roles[..n][..n - 1] == roles[..n - 1];
  }

  lemma ValidNext(catalog: Catalog, roles: seq<Role>, role: Role)
    ensures ValidDefinitions(catalog, roles + [role]) <==>
      && ValidDefinitions(catalog, roles)
      && (Found(catalog, role) ==> ValidDefinition(catalog, DefinitionOf(catalog, role)))
  {
    hide ValidDefinition, Found;
    var all := roles + [role];
    assert all[|roles|] == role && forall i :: 0 <= i < |roles| ==> all[i] == roles[i];
  }

  /** Hydrating the output again changes nothing when the normalisers accept the values of every definition used,
      and fails otherwise. */
  lemma HydrateAgain(catalog: Catalog, roles: seq<Role>, supplied: Prompts)
    requires HydrateRoles(catalog, roles, supplied).Hydrated?
    ensures var out := HydrateRoles(catalog, roles, supplied);
      HydrateRoles(catalog, out.roles, out.prompts) == if ValidDefinitions(catalog, roles) then out else Conflict
  {
    hide HydrateRoles, ValidDefinitions;
    var out := HydrateRoles(catalog, roles, supplied);
    HydratePrefixAgain(catalog, roles, supplied, |roles|);
    assert out.roles[..|roles|] == out.roles && roles[..|roles|] == roles;
  }

  // ----- A definition that is no longer accepted -----

  /** The archetypes the normaliser knows, and one definition, saved with another one. */
  function RenamedCatalog(): Catalog {
    Catalog(
      text => if text in {"builder", "inspector", "gatekeeper", "guide", "custom"} then Some(text) else None,
      text => Some(text),
      map["role_reviewer" := map["archetype" := Text("reviewer"), "prompt_ref" := Text("reviewer.md")]])
  }

  /** A role that names the definition and states nothing itself. */
  function BareRole(): Role {
    Role(map["role_definition_id" := Text("role_reviewer")])
  }

  /** A definition saved with an archetype that is no longer accepted fills a role, and the next hydration
      rejects it. */
  lemma SecondHydrationCanFail()
    ensures var out := HydrateRoles(RenamedCatalog(), [BareRole()], map[]);
      out.Hydrated? && HydrateRoles(RenamedCatalog(), out.roles, out.prompts) == Conflict
  {
    hide HydrateRoles;
    BareRoleFits();
    SucceedsIffConsistent(RenamedCatalog(), [BareRole()], map[]);
    HydrateAgain(RenamedCatalog(), [BareRole()], map[]);
    assert [BareRole()][0] == BareRole();
  }

  lemma BareRoleFits()
    ensures Found(RenamedCatalog(), BareRole()) && Fits(RenamedCatalog(), BareRole())
    ensures !ValidDefinition(RenamedCatalog(), DefinitionOf(RenamedCatalog(), BareRole()))
  {
    StrippedIsFixed("role_reviewer");
    forall k | 0 <= k < |CHECKED| ensures CHECKED[k] !in BareRole().fields {
      assert |"role_definition_id"| == 18;
    }
    var definition := DefinitionOf(RenamedCatalog(), BareRole());
    assert CHECKED[0] == "archetype" && definition["archetype"] == Text("reviewer");
    assert |"reviewer"| == 8 && |"builder"| == 7 && |"inspector"| == 9 && |"gatekeeper"| == 10 && |"guide"| == 5 &&
        |"custom"| == 6;
    assert Canonical(RenamedCatalog(), "archetype", Text("reviewer")) == None;
  }
}

/** The proof of dispatch a host submits with a step's result: the template it is given, and the gate it must pass. */
module DispatchGate {
  import opened Options
  import opened PyText
  import opened RawValues

  // ----- Data -----

  /** What a step says about who must run it; `modes` is None when it is no list. */
  datatype RoleDispatch = RoleDispatch(required: Raw, inlineAllowed: Raw, targetAgent: Raw, modes: Option<seq<Raw>>)

  /** The step view the host works from; `role` is None when there is no, or an empty, role dispatch. */
  datatype StepView = StepView(adapter: string, runId: string, stepId: string, iter: Raw, stepOrder: Raw,
    role: Option<RoleDispatch>)

  /** The claimed step as the submit finds it. */
  datatype Claim = Claim(adapter: string, runId: string, stepId: string, iterId: Raw, stepOrder: Raw, view: StepView)

  /** The fields the gate reads of the submitted block, Null where one is missing; `traceNotes` is the notes field of
      `native_trace`. An empty block, or none, is no dispatch at all. */
  datatype Dispatch = Dispatch(
    schemaVersion: Raw, adapter: Raw, runId: Raw, iter: Raw, stepId: Raw, stepOrder: Raw, targetAgent: Raw,
    actualAgent: Raw, agentName: Raw, dispatchMode: Raw, mode: Raw, inline: Raw, attestation: Raw, notes: Raw,
      traceNotes: Raw)

  datatype Fault =
    | RoleMissing | RoleNotRequired | RoleInlineUnclear | RoleWithoutAgent | RoleWithoutModes
    | ProofMissing | InlineUnclear | WrongAgent | WrongMode | InlineRefused
    | RunMissing | StepMissing | AdapterMissing | WrongRun | WrongStep | WrongAdapter
    | IterMissing | WrongIter | OrderMissing | WrongOrder | OutputUnavailable | BadVersion

  datatype Proof = Proof(
    version: int, adapter: string, runId: string, stepId: string, targetAgent: string, actualAgent: string,
    mode: string, inline: bool, attestation: string, iter: Option<int>, stepOrder: Option<int>)

  datatype Verdict = Accepted(proof: Proof) | Refused(fault: Fault)

  // ----- Who must run the step -----

  const MODES := ["host_subagent", "host_task", "host_agent"]

  function Lower(s: string): (r: string)
    ensures |r| == |s| && forall k :: 0 <= k < |s| ==> r[k] == if 'A' <= s[k] <= 'Z' then s[k] - 'A' + 'a' else s[k]
  {
    seq(|s|, k requires 0 <= k < |s| => if 'A' <= s[k] <= 'Z' then s[k] - 'A' + 'a' else s[k])
  }

  function TargetAgent(archetype: string): string {
    var name := Lower(Strip(archetype));
    if name == "builder" then "loopora-builder"
    else if name == "gatekeeper" then "loopora-gatekeeper"
    else if name == "guide" then "loopora-guide"
    else "loopora-inspector"
  }

  function GeneratedRole(archetype: string): RoleDispatch {
    RoleDispatch(Bool(true), Bool(false), Text(TargetAgent(archetype)),
      Some([Text(MODES[0]), Text(MODES[1]), Text(MODES[2])]))
  }

  function ExpectedAgent(role: RoleDispatch): string {
    Trimmed(role.targetAgent)
  }

  predicate HasMode(modes: seq<Raw>, mode: string) {
    exists k :: 0 <= k < |modes| && Strip(Printed(modes[k])) != "" && Printed(modes[k]) == mode
  }

  predicate AnyMode(modes: seq<Raw>) {
    exists k :: 0 <= k < |modes| && Strip(Printed(modes[k])) != ""
  }

  function RoleFault(role: Option<RoleDispatch>): Option<Fault> {
    if role.None? then Some(RoleMissing)
    else if role.value.required != Bool(true) then Some(RoleNotRequired)
    else if !role.value.inlineAllowed.Bool? then Some(RoleInlineUnclear)
    else if ExpectedAgent(role.value) == "" then Some(RoleWithoutAgent)
    else if role.value.modes.None? || !AnyMode(role.value.modes.value) then Some(RoleWithoutModes)
    else None
  }

  // ----- The template -----

  function NonNegative(raw: Raw): int {
    if raw.Int? && raw.i >= 0 then raw.i else 0
  }

  const ATTESTATION := "The host invoked the " + "named Loopora role " + "agent for this step."

  function Template(view: StepView): Dispatch {
    var agent := if view.role.Some? then ExpectedAgent(view.role.value) else "";
    Dispatch(
      Int(1), Text(view.adapter), Text(view.runId), Int(NonNegative(view.iter)), Text(view.stepId),
      Int(NonNegative(view.stepOrder)), Text(agent), Text(agent), Null, Text("host_subagent"), Null, Bool(false),
      Text(ATTESTATION), Null, Text(""))
  }

  // ----- What the host says in prose -----

  predicate ContainsAny(text: string, phrases: seq<string>) {
    exists k :: 0 <= k < |phrases| && Contains(text, phrases[k])
  }

  /** Runs of white space become one blank. */
  function Runs(s: string): string {
    if s == "" then ""
    else if !IsSpace(s[0]) then [s[0]] + Runs(s[1..])
    else if |s| > 1 && IsSpace(s[1]) then Runs(s[1..])
    else " " + Runs(s[1..])
  }

  function Squeezed(s: string): string {
    Lower(Runs(Strip(s)))
  }

  function Join(a: string, b: string): string {
    if a == "" then b else if b == "" then a else a + " " + b
  }

  function ClaimText(dispatch: Dispatch): string {
    Join(Join(Squeezed(TextOf(dispatch.attestation)), Squeezed(TextOf(dispatch.notes))),
      Squeezed(TextOf(dispatch.traceNotes)))
  }

  const UNAVAILABLE := [
    "returned no output", "returned no structured output", "no structured output", "role output unavailable",
    "without role output", "role agent output unavailable", "subagent output unavailable"]
  const ACTORS := ["main session", "main orchestrator", "orchestrator session"]
  const BUILT := ["constructed the wrapper", "constructed wrapper", "constructed the result"]

  predicate ClaimsNoOutput(text: string) {
    ContainsAny(text, UNAVAILABLE) || (ContainsAny(text, ACTORS) && ContainsAny(text, BUILT))
  }

  // ----- The gate -----

  function Or(a: Raw, b: Raw): Raw {
    if Truthy(a) then a else b
  }

  function Trimmed(raw: Raw): string {
    Strip(TextOf(raw))
  }

  /** The claimed position, from the claim itself or else from its step view. */
  function Expected(claimed: Raw, viewed: Raw): Option<int> {
    if claimed.Bool? then None
    else if claimed.Int? then Some(claimed.i)
    else if viewed.Int? then Some(viewed.i)
    else None
  }

  function PositionFault(stated: Raw, expected: Option<int>, missing: Fault, wrong: Fault): Option<Fault> {
    if expected.None? then None
    else if !stated.Int? then Some(missing)
    else if stated.i != expected.value then Some(wrong)
    else None
  }

  function Version(raw: Raw): Option<int> {
    if raw == Null || raw == Text("") then Some(1)
    else if raw.Int? then Some(raw.i)
    else None
  }

  function IdFault(claim: Claim, dispatch: Dispatch): Option<Fault> {
    if Trimmed(dispatch.runId) == "" then Some(RunMissing)
    else if Trimmed(dispatch.stepId) == "" then Some(StepMissing)
    else if Trimmed(dispatch.adapter) == "" then Some(AdapterMissing)
    else if Trimmed(dispatch.runId) != claim.runId then Some(WrongRun)
    else if Trimmed(dispatch.stepId) != claim.stepId then Some(WrongStep)
    else if Trimmed(dispatch.adapter) != claim.adapter then Some(WrongAdapter)
    else None
  }

  function ActualAgent(dispatch: Dispatch): string {
    Trimmed(Or(dispatch.actualAgent, dispatch.agentName))
  }

  function Mode(dispatch: Dispatch): string {
    Trimmed(Or(dispatch.dispatchMode, dispatch.mode))
  }

  function AgentFault(role: RoleDispatch, dispatch: Dispatch): Option<Fault>
    requires RoleFault(Some(role)).None?
  {
    if !dispatch.inline.Bool? then Some(InlineUnclear)
    else if ActualAgent(dispatch) != ExpectedAgent(role) then Some(WrongAgent)
    else if Trimmed(dispatch.targetAgent) != ExpectedAgent(role) then Some(WrongAgent)
    else if !HasMode(role.modes.value, Mode(dispatch)) then Some(WrongMode)
    else if dispatch.inline.b && role.inlineAllowed != Bool(true) then Some(InlineRefused)
    else None
  }

  function Judge(claim: Claim, dispatch: Option<Dispatch>): Verdict {
    var role := claim.view.role;
    if RoleFault(role).Some? then Refused(RoleFault(role).value)
    else if dispatch.None? then Refused(ProofMissing)
    else
      var d := dispatch.value;
      var iter, order := Expected(claim.iterId, claim.view.iter), Expected(claim.stepOrder, claim.view.stepOrder);
      if AgentFault(role.value, d).Some? then Refused(AgentFault(role.value, d).value)
      else if IdFault(claim, d).Some? then Refused(IdFault(claim, d).value)
      else if PositionFault(d.iter, iter, IterMissing, WrongIter).Some? then
        Refused(PositionFault(d.iter, iter, IterMissing, WrongIter).value)
      else if PositionFault(d.stepOrder, order, OrderMissing, WrongOrder).Some? then
        Refused(PositionFault(d.stepOrder, order, OrderMissing, WrongOrder).value)
      else if ClaimsNoOutput(ClaimText(d)) then Refused(OutputUnavailable)
      else if Version(d.schemaVersion).None? then Refused(BadVersion)
      else Accepted(Proof(
        Version(d.schemaVersion).value, claim.adapter, claim.runId, claim.stepId, ExpectedAgent(role.value),
          ActualAgent(d), Mode(d),
        d.inline.b, Trimmed(d.attestation), iter, order))
  }

  // ----- Telling steps apart -----

  /** A proof accepted for two claimed steps names one run, step, adapter and agent, and one position wherever both
      claims record it. */
  lemma AcceptedForBoth(a: Claim, b: Claim, dispatch: Option<Dispatch>)
    requires Judge(a, dispatch).Accepted? && Judge(b, dispatch).Accepted?
    ensures a.runId == b.runId && a.stepId == b.stepId && a.adapter == b.adapter
    ensures a.view.role.Some? && b.view.role.Some? &&
        ExpectedAgent(a.view.role.value) == ExpectedAgent(b.view.role.value)
    ensures var x, y := Expected(a.iterId, a.view.iter), Expected(b.iterId, b.view.iter); x.Some? && y.Some? ==> x == y
    ensures var x, y := Expected(a.stepOrder, a.view.stepOrder), Expected(b.stepOrder, b.view.stepOrder);
      x.Some? && y.Some? ==> x == y
  {
    hide ClaimsNoOutput, ClaimText, HasMode, AnyMode, Strip;
  }

  // ----- The template passes -----

  predicate Without(s: string, c: char) {
    forall k :: 0 <= k < |s| ==> s[k] != c
  }

  lemma {:induction false} StripWithout(s: string, c: char)
    requires Without(s, c)
    ensures Without(Strip(s), c)
  {
    LStripWithout(s, c);
    RStripWithout(LStrip(s), c);
  }

  lemma {:induction false} LStripWithout(s: string, c: char)
    requires Without(s, c)
    ensures Without(LStrip(s), c)
  {
    if s != "" && IsSpace(s[0]) {
      LStripWithout(s[1..], c);
    }
  }

  lemma {:induction false} RStripWithout(s: string, c: char)
    requires Without(s, c)
    ensures Without(RStrip(s), c)
  {
    if s != "" && IsSpace(s[|s| - 1]) {
      RStripWithout(s[..|s| - 1], c);
    }
  }

  lemma {:induction false} RunsWithout(s: string, c: char)
    requires Without(s, c) && c != ' '
    ensures Without(Runs(s), c)
  {
    if s != "" {
      RunsWithout(s[1..], c);
    }
  }

  lemma SqueezedWithoutU(s: string)
    requires Without(s, 'u') && Without(s, 'U')
    ensures Without(Squeezed(s), 'u')
  {
    StripWithout(s, 'u');
    StripWithout(s, 'U');
    RunsWithout(Strip(s), 'u');
    RunsWithout(Strip(s), 'U');
  }

  lemma NotContained(text: string, phrase: string, k: nat)
    requires Without(text, 'u') && k < |phrase| && phrase[k] == 'u'
    ensures !Contains(text, phrase)
  {
    forall i: nat | i + |phrase| <= |text| ensures !OccursAt(text, phrase, i) {
      assert text[i..i + |phrase|][k] == text[i + k];
    }
  }

  /** Every phrase the gate looks for has a u in it; the template's prose has none. */
  lemma NoPhrase(text: string)
    requires Without(text, 'u')
    ensures !ClaimsNoOutput(text)
  {
    forall k | 0 <= k < |UNAVAILABLE| ensures !Contains(text, UNAVAILABLE[k]) {
      NotContained(text, UNAVAILABLE[k], [3, 3, 6, 6, 5, 12, 1][k]);
    }
    forall k | 0 <= k < |BUILT| ensures !Contains(text, BUILT[k]) {
      NotContained(text, BUILT[k], 6);
    }
  }

  lemma AttestationWithoutU()
    ensures Without(ATTESTATION, 'u') && Without(ATTESTATION, 'U')
  {
    assert Without("The host invoked the ", 'u') && Without("named Loopora role ", 'u') &&
        Without("agent for this step.", 'u');
    assert Without("The host invoked the ", 'U') && Without("named Loopora role ", 'U') &&
        Without("agent for this step.", 'U');
  }

  lemma SqueezedEmpty()
    ensures Squeezed("") == ""
  {
  }

  lemma TemplateProse(view: StepView)
    ensures !ClaimsNoOutput(ClaimText(Template(view)))
  {
    hide Squeezed, Without;
    AttestationWithoutU();
    SqueezedWithoutU(ATTESTATION);
    SqueezedEmpty();
    NoPhrase(Squeezed(ATTESTATION));
  }

  function ClaimOf(view: StepView): Claim {
    Claim(view.adapter, view.runId, view.stepId, view.iter, view.stepOrder, view)
  }

  predicate Identified(id: string) {
    id != "" && Stripped(id)
  }

  lemma StripsToItself(id: string)
    ensures Strip(id) != "" && Strip(id) == id <==> Identified(id)
  {
    StripTwice(id);
    if Identified(id) {
      StrippedIsFixed(id);
    }
  }

  /** How the gate reads the template. */
  lemma TemplateReads(view: StepView, role: RoleDispatch)
    requires view.role == Some(role)
    ensures var d := Template(view);
      && Trimmed(d.runId) == Strip(view.runId) && Trimmed(d.stepId) == Strip(view.stepId)
      && Trimmed(d.adapter) == Strip(view.adapter)
      && Trimmed(d.targetAgent) == ExpectedAgent(role) && ActualAgent(d) == ExpectedAgent(role)
      && Mode(d) == "host_subagent" && d.inline == Bool(false) && Version(d.schemaVersion) == Some(1)
  {
    hide Strip;
    StripTwice(TextOf(role.targetAgent));
    StrippedIsFixed("host_subagent");
    StrippedIsFixed("");
  }

  /** The unedited template is accepted for its own step exactly when the step's role dispatch is usable and takes the
      template's mode, its ids are non-empty and trimmed, and its positions are not negative. */
  lemma TemplateAccepted(view: StepView)
    ensures Judge(ClaimOf(view), Some(Template(view))).Accepted? <==>
      && RoleFault(view.role).None? && HasMode(view.role.value.modes.value, "host_subagent")
      && Identified(view.runId) && Identified(view.stepId) && Identified(view.adapter)
      && (view.iter.Int? ==> view.iter.i >= 0) && (view.stepOrder.Int? ==> view.stepOrder.i >= 0)
  {
    hide ClaimsNoOutput, ClaimText, HasMode, AnyMode, Strip, Stripped, Trimmed, ActualAgent, Mode, Version,
      ExpectedAgent;
    if view.role.Some? {
      TemplateProse(view);
      TemplateReads(view, view.role.value);
      StripsToItself(view.runId);
      StripsToItself(view.stepId);
      StripsToItself(view.adapter);
    }
  }

  /** With the role dispatch the service generates, for any archetype, only ids and positions matter. */
  lemma GeneratedTemplateAccepted(view: StepView, archetype: string)
    requires view.role == Some(GeneratedRole(archetype))
    ensures Judge(ClaimOf(view), Some(Template(view))).Accepted? <==>
      && Identified(view.runId) && Identified(view.stepId) && Identified(view.adapter)
      && (view.iter.Int? ==> view.iter.i >= 0) && (view.stepOrder.Int? ==> view.stepOrder.i >= 0)
  {
    hide Judge, Template, Strip;
    TemplateAccepted(view);
    GeneratedRoleUsable(archetype);
  }

  lemma GeneratedRoleUsable(archetype: string)
    ensures RoleFault(Some(GeneratedRole(archetype))).None?
    ensures HasMode(GeneratedRole(archetype).modes.value, "host_subagent")
  {
    hide Strip, Lower;
    var modes := GeneratedRole(archetype).modes.value;
    StrippedIsFixed(TargetAgent(archetype));
    StrippedIsFixed("host_subagent");
    assert Printed(modes[0]) == "host_subagent";
  }

  /** Under a generated role dispatch no accepted proof was run inline. */
  lemma NeverInline(claim: Claim, dispatch: Option<Dispatch>, archetype: string)
    requires claim.view.role == Some(GeneratedRole(archetype)) && Judge(claim, dispatch).Accepted?
    ensures !Judge(claim, dispatch).proof.inline
  {
    hide ClaimsNoOutput, ClaimText, HasMode, AnyMode, Strip;
  }

  /** The template of one step is no proof for a step that differs in run, step, adapter, agent or recorded position. */
  lemma TemplateOfAnotherStep(view: StepView, claim: Claim)
    requires Judge(ClaimOf(view), Some(Template(view))).Accepted? && view.iter.Int? && view.stepOrder.Int?
    requires Expected(claim.iterId, claim.view.iter).Some? && Expected(claim.stepOrder, claim.view.stepOrder).Some?
    ensures Judge(claim, Some(Template(view))).Accepted? <==>
      && claim.runId == view.runId && claim.stepId == view.stepId && claim.adapter == view.adapter
      && Expected(claim.iterId, claim.view.iter) == Some(view.iter.i)
      && Expected(claim.stepOrder, claim.view.stepOrder) == Some(view.stepOrder.i)
      && RoleFault(claim.view.role).None? && HasMode(claim.view.role.value.modes.value, "host_subagent")
      && ExpectedAgent(claim.view.role.value) == ExpectedAgent(view.role.value)
  {
    hide ClaimsNoOutput, ClaimText, HasMode, AnyMode, Strip, Trimmed, ActualAgent, Mode, Version, ExpectedAgent;
    TemplateAccepted(view);
    TemplateProse(view);
    TemplateReads(view, view.role.value);
    StripsToItself(view.runId);
    StripsToItself(view.stepId);
    StripsToItself(view.adapter);
  }
}

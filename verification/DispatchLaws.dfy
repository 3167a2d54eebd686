/** What the dispatch gate accepts, condition by condition, and what an accepted proof says. */
module DispatchLaws {
  import opened Options
  import opened PyText
  import opened RawValues
  import opened DispatchGate

  // ----- Exact acceptance -----

  /** The step demands a named agent, and says in which modes. */
  ghost predicate Usable(role: Option<RoleDispatch>) {
    && role.Some? && role.value.required == Bool(true) && role.value.inlineAllowed.Bool?
    && Strip(TextOf(role.value.targetAgent)) != ""
    && role.value.modes.Some?
    && exists k :: 0 <= k < |role.value.modes.value| && Strip(Printed(role.value.modes.value[k])) != ""
  }

  /** Where the claim, or else its view, records a position, the proof states the same one. */
  ghost predicate Placed(stated: Raw, claimed: Raw, viewed: Raw) {
    || (claimed.Int? && stated == claimed)
    || (!claimed.Int? && !claimed.Bool? && viewed.Int? && stated == viewed)
    || (!claimed.Int? && (claimed.Bool? || !viewed.Int?))
  }

  /** A field under its first name, or under its second if the first counts as false. */
  function Either(a: Raw, b: Raw): string {
    Strip(if Truthy(a) then TextOf(a) else TextOf(b))
  }

  ghost predicate Fits(claim: Claim, d: Dispatch) {
    && Strip(TextOf(d.runId)) == claim.runId != ""
    && Strip(TextOf(d.stepId)) == claim.stepId != ""
    && Strip(TextOf(d.adapter)) == claim.adapter != ""
    && Placed(d.iter, claim.iterId, claim.view.iter)
    && Placed(d.stepOrder, claim.stepOrder, claim.view.stepOrder)
  }

  ghost predicate RunAsAsked(role: RoleDispatch, d: Dispatch) {
    && role.modes.Some?
    && Strip(TextOf(d.targetAgent)) == Either(d.actualAgent, d.agentName) == Strip(TextOf(role.targetAgent))
    && (d.inline == Bool(false) || (d.inline == Bool(true) && role.inlineAllowed == Bool(true)))
    && exists k :: 0 <= k < |role.modes.value| && Strip(Printed(role.modes.value[k])) != ""
        && Printed(role.modes.value[k]) == Either(d.dispatchMode, d.mode)
  }

  /** A proof is accepted exactly when the step's demand is usable, the proof is by the demanded agent in an accepted
      mode, is for this run, step, adapter and position, admits no missing output and has a readable version. */
  lemma AcceptedWhen(claim: Claim, dispatch: Option<Dispatch>)
    ensures Judge(claim, dispatch).Accepted? <==>
      && Usable(claim.view.role) && dispatch.Some?
      && RunAsAsked(claim.view.role.value, dispatch.value) && Fits(claim, dispatch.value)
      && !ClaimsNoOutput(ClaimText(dispatch.value))
      && (dispatch.value.schemaVersion in {Null, Text("")} || dispatch.value.schemaVersion.Int?)
  {
    hide ClaimsNoOutput, ClaimText, Strip, Printed;
    if dispatch.Some? {
      EitherIs(dispatch.value);
    }
  }

  lemma EitherIs(d: Dispatch)
    ensures ActualAgent(d) == Either(d.actualAgent, d.agentName) && Mode(d) == Either(d.dispatchMode, d.mode)
  {
  }

  /** An accepted proof is recorded under the claim's own run, step and adapter, with the demanded agent and what the
      host stated. */
  lemma AcceptedProof(claim: Claim, d: Dispatch)
    requires Judge(claim, Some(d)).Accepted?
    ensures var p := Judge(claim, Some(d)).proof;
      && p.runId == claim.runId && p.stepId == claim.stepId && p.adapter == claim.adapter
      && p.targetAgent == p.actualAgent == Strip(TextOf(d.targetAgent))
      && p.mode == Either(d.dispatchMode, d.mode) && d.inline == Bool(p.inline)
      && p.attestation == Strip(TextOf(d.attestation))
      && d.schemaVersion in {Int(p.version), Null, Text("")} && (!d.schemaVersion.Int? ==> p.version == 1)
      && (p.iter.Some? ==> d.iter == Int(p.iter.value))
      && (claim.iterId.Int? || (claim.view.iter.Int? && !claim.iterId.Bool?) <==> p.iter.Some?)
      && (p.stepOrder.Some? ==> d.stepOrder == Int(p.stepOrder.value))
      && (claim.stepOrder.Int? || (claim.view.stepOrder.Int? && !claim.stepOrder.Bool?) <==> p.stepOrder.Some?)
  {
    hide ClaimsNoOutput, ClaimText, Strip, Printed, HasMode, AnyMode;
    EitherIs(d);
  }

  // ----- Admissions in prose -----

  lemma ContainsJoin(a: string, b: string, phrase: string)
    requires Contains(a, phrase) || Contains(b, phrase)
    ensures Contains(Join(a, b), phrase)
  {
    if Contains(a, phrase) {
      var i :| 0 <= i <= |a| && OccursAt(a, phrase, i);
      if a == "" {
        assert OccursAt(Join(a, b), phrase, 0);
      } else {
        assert OccursAt(Join(a, b), phrase, i);
      }
    } else {
      var i :| 0 <= i <= |b| && OccursAt(b, phrase, i);
      var start := if a == "" then 0 else if b == "" then |a| else |a| + 1;
      assert Join(a, b)[start..] == b;
      assert OccursAt(Join(a, b), phrase, start + i);
    }
  }

  /** Some piece of the host's prose, in lower case and with single blanks, has the phrase. */
  ghost predicate Says(d: Dispatch, phrase: string) {
    || Contains(Squeezed(TextOf(d.attestation)), phrase)
    || Contains(Squeezed(TextOf(d.notes)), phrase)
    || Contains(Squeezed(TextOf(d.traceNotes)), phrase)
  }

  lemma SaysInClaim(d: Dispatch, phrase: string)
    requires Says(d, phrase)
    ensures Contains(ClaimText(d), phrase)
  {
    hide Squeezed, Contains, Join;
    var a, b, c := Squeezed(TextOf(d.attestation)), Squeezed(TextOf(d.notes)), Squeezed(TextOf(d.traceNotes));
    if !Contains(c, phrase) {
      ContainsJoin(a, b, phrase);
    }
    ContainsJoin(Join(a, b), c, phrase);
  }

  predicate NoOutputPhrase(phrase: string) {
    || phrase == "returned no output" || phrase == "returned no structured output"
    || phrase == "no structured output" || phrase == "role output unavailable" || phrase == "without role output"
    || phrase == "role agent output unavailable" || phrase == "subagent output unavailable"
  }

  predicate MainSession(phrase: string) {
    phrase == "main session" || phrase == "main orchestrator" || phrase == "orchestrator session"
  }

  predicate SelfMade(phrase: string) {
    phrase == "constructed the wrapper" || phrase == "constructed wrapper" || phrase == "constructed the result"
  }

  lemma PhraseIndex(phrases: seq<string>, phrase: string, k: nat)
    requires k < |phrases| && phrases[k] == phrase
    ensures forall text :: Contains(text, phrase) ==> ContainsAny(text, phrases)
  {
    hide Contains;
  }

  lemma PhrasesCount(phrase: string)
    ensures NoOutputPhrase(phrase) ==> forall text :: Contains(text, phrase) ==> ContainsAny(text, UNAVAILABLE)
    ensures MainSession(phrase) ==> forall text :: Contains(text, phrase) ==> ContainsAny(text, ACTORS)
    ensures SelfMade(phrase) ==> forall text :: Contains(text, phrase) ==> ContainsAny(text, BUILT)
  {
    hide Contains, ContainsAny;
    for k := 0 to 7
      invariant forall j, text :: 0 <= j < k && Contains(text, UNAVAILABLE[j]) ==> ContainsAny(text, UNAVAILABLE)
    {
      PhraseIndex(UNAVAILABLE, UNAVAILABLE[k], k);
    }
    for k := 0 to 3
      invariant forall j, text :: 0 <= j < k && Contains(text, ACTORS[j]) ==> ContainsAny(text, ACTORS)
      invariant forall j, text :: 0 <= j < k && Contains(text, BUILT[j]) ==> ContainsAny(text, BUILT)
    {
      PhraseIndex(ACTORS, ACTORS[k], k);
      PhraseIndex(BUILT, BUILT[k], k);
    }
    assert phrase == UNAVAILABLE[0] || phrase == UNAVAILABLE[1] || phrase == UNAVAILABLE[2]
      || phrase == UNAVAILABLE[3] || phrase == UNAVAILABLE[4] || phrase == UNAVAILABLE[5] || phrase == UNAVAILABLE[6]
      || !NoOutputPhrase(phrase);
    assert phrase == ACTORS[0] || phrase == ACTORS[1] || phrase == ACTORS[2] || !MainSession(phrase);
    assert phrase == BUILT[0] || phrase == BUILT[1] || phrase == BUILT[2] || !SelfMade(phrase);
  }

  /** A proof whose prose admits that a role's output is missing is refused. */
  lemma MissingOutputRefused(claim: Claim, d: Dispatch, phrase: string)
    requires NoOutputPhrase(phrase) && Says(d, phrase)
    ensures Judge(claim, Some(d)).Refused?
  {
    hide Judge, Says, Contains, ContainsAny, ClaimText, Usable, RunAsAsked, Fits;
    SaysInClaim(d, phrase);
    PhrasesCount(phrase);
    AcceptedWhen(claim, Some(d));
  }

  /** And so is one that says, in whichever pieces, that the main session built the result itself. */
  lemma SelfMadeRefused(claim: Claim, d: Dispatch, actor: string, built: string)
    requires MainSession(actor) && Says(d, actor) && SelfMade(built) && Says(d, built)
    ensures Judge(claim, Some(d)).Refused?
  {
    hide Judge, Says, Contains, ContainsAny, ClaimText, Usable, RunAsAsked, Fits;
    SaysInClaim(d, actor);
    SaysInClaim(d, built);
    PhrasesCount(actor);
    PhrasesCount(built);
    AcceptedWhen(claim, Some(d));
  }

  // ----- Squeezed prose -----

  function Letters(s: string): string {
    if s == "" then "" else (if IsSpace(s[0]) then "" else [s[0]]) + Letters(s[1..])
  }

  /** Squeezing keeps every character that is no white space, and of white space only single blanks. */
  lemma {:induction false} RunsFacts(s: string)
    ensures Letters(Runs(s)) == Letters(s)
    ensures Runs(s) != "" && IsSpace(Runs(s)[0]) ==> IsSpace(s[0])
    ensures forall k :: 0 <= k < |Runs(s)| && IsSpace(Runs(s)[k]) ==>
      Runs(s)[k] == ' ' && (k + 1 < |Runs(s)| ==> !IsSpace(Runs(s)[k + 1]))
  {
    if s != "" {
      RunsFacts(s[1..]);
      var head := if IsSpace(s[0]) then ' ' else s[0];
      assert ([head] + Runs(s[1..]))[1..] == Runs(s[1..]);
    }
  }

  // ----- Agents -----

  /** The agent a role's step demands. */
  lemma AgentsAre(archetype: string)
    ensures TargetAgent(archetype) == "loopora-builder" <==> Lower(Strip(archetype)) == "builder"
    ensures TargetAgent(archetype) == "loopora-gatekeeper" <==> Lower(Strip(archetype)) == "gatekeeper"
    ensures TargetAgent(archetype) == "loopora-guide" <==> Lower(Strip(archetype)) == "guide"
    ensures TargetAgent(archetype) == "loopora-inspector" <==>
      Lower(Strip(archetype)) !in {"builder", "gatekeeper", "guide"}
  {
    hide Strip, Lower;
    assert |"loopora-builder"| == 15 && |"loopora-gatekeeper"| == 18;
    assert |"loopora-guide"| == 13 && |"loopora-inspector"| == 17;
    assert |"builder"| == 7 && |"gatekeeper"| == 10 && |"guide"| == 5;
  }
}

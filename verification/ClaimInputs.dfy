/** Exactly what a claim reads: which outputs, which handoffs, which evidence. */
module ClaimInputs {
  import opened Options
  import opened ParallelGroups
  import opened GroupSnapshots

  // ----- Members of the group -----

  /** Step k and the step at order lie in one unbroken stretch of the same group. */
  predicate Member(steps: seq<Step>, order: nat, k: nat) {
    && k < |steps| && order < |steps|
    && forall i :: 0 <= i < |steps| && (k <= i <= order || order <= i <= k) ==> steps[i].group == steps[order].group
  }

  lemma MemberIs(steps: seq<Step>, order: nat, k: nat)
    requires order < |steps|
    ensures RunStart(steps, order) <= k < RunEnd(steps, order) <==> Member(steps, order, k)
  {
    RunIsMaximal(steps, order);
    var start, end := RunStart(steps, order), RunEnd(steps, order);
    if k < start {
      assert steps[start - 1].group != steps[order].group;
    } else if end <= k < |steps| {
      assert steps[end].group != steps[order].group;
    }
  }

  ghost predicate IdOfMember(ctx: Context, order: nat, name: string) {
    exists k: nat :: Member(ctx.steps, order, k) && ctx.steps[k].id == name
  }

  /** Some member's role has that id or that runtime name. */
  ghost predicate RoleOfMember(ctx: Context, order: nat, name: string)
    requires Rooted(ctx)
  {
    exists k: nat :: Member(ctx.steps, order, k) &&
      var role := ctx.roles[ctx.steps[k].roleId]; role.id == name || ctx.runtimeRole(role) == name
  }

  ghost predicate ArchetypeOfMember(ctx: Context, order: nat, name: string)
    requires Rooted(ctx)
  {
    exists k: nat :: Member(ctx.steps, order, k) && ctx.roles[ctx.steps[k].roleId].archetype == name
  }

  // ----- What is read -----

  /** The items of whole at the increasing positions `at`. */
  ghost predicate Picks<T>(part: seq<T>, whole: seq<T>, at: seq<nat>) {
    && |at| == |part|
    && (forall i :: 0 <= i < |at| ==> at[i] < |whole| && part[i] == whole[at[i]])
    && (forall i, j :: 0 <= i < j < |at| ==> at[i] < at[j])
  }

  ghost predicate HandoffsRead(ctx: Context, live: Live, order: nat, handoffs: seq<Handoff>, at: seq<nat>) {
    && Picks(handoffs, live.handoffs, at)
    && forall k: nat :: k < |live.handoffs| ==>
      (k in at <==> !IdOfMember(ctx, order, live.handoffs[k].sourceStep))
  }

  ghost predicate EvidenceRead(ctx: Context, live: Live, order: nat, evidence: seq<Evidence>, at: seq<nat>) {
    && Picks(evidence, live.ledger, at)
    && forall k: nat :: k < |live.ledger| ==>
      (k in at <==>
       live.ledger[k].Entry? && !(live.ledger[k].iter == live.iter && IdOfMember(ctx, order, live.ledger[k].stepId)))
  }

  /** A member of a group reads every live output except those under a name that members file under, the handoffs
      of non-members and the evidence that is not a member's of this iteration, both in their order. */
  ghost predicate ReadsAround(ctx: Context, live: Live, order: nat, inputs: Inputs)
    requires Rooted(ctx)
  {
    && (forall name :: name in inputs.byStep <==> name in live.byStep && !IdOfMember(ctx, order, name))
    && (forall name :: name in inputs.byStep ==> inputs.byStep[name] == live.byStep[name])
    && (forall name :: name in inputs.byRole <==> name in live.byRole && !RoleOfMember(ctx, order, name))
    && (forall name :: name in inputs.byRole ==> inputs.byRole[name] == live.byRole[name])
    && (forall name :: name in inputs.byArchetype <==> name in live.byArchetype && !ArchetypeOfMember(ctx, order, name))
    && (forall name :: name in inputs.byArchetype ==> inputs.byArchetype[name] == live.byArchetype[name])
    && (exists at :: HandoffsRead(ctx, live, order, inputs.handoffs, at))
    && inputs.evidence.Some? && (exists at :: EvidenceRead(ctx, live, order, inputs.evidence.value, at))
  }

  /** A step without group reads the live outputs and handoffs, and is given no list of evidence. */
  predicate ReadsLive(live: Live, inputs: Inputs) {
    && inputs.byStep == live.byStep && inputs.byRole == live.byRole && inputs.byArchetype == live.byArchetype
    && inputs.handoffs == live.handoffs && inputs.evidence.None?
  }

  lemma NamesAre(ctx: Context, order: nat, name: string)
    requires Rooted(ctx) && order < |ctx.steps|
    ensures var start, end := RunStart(ctx.steps, order), RunEnd(ctx.steps, order);
      && (name in IdSet(ctx.steps, start, end) <==> IdOfMember(ctx, order, name))
      && (name in RoleNames(ctx, GroupRoles(ctx, start, end)) <==> RoleOfMember(ctx, order, name))
      && (name in Archetypes(GroupRoles(ctx, start, end)) <==> ArchetypeOfMember(ctx, order, name))
  {
    hide Member;
    var start, end := RunStart(ctx.steps, order), RunEnd(ctx.steps, order);
    forall k: nat ensures start <= k < end <==> Member(ctx.steps, order, k) {
      MemberIs(ctx.steps, order, k);
    }
    forall k: nat | Member(ctx.steps, order, k)
      ensures ctx.roles[ctx.steps[k].roleId] in GroupRoles(ctx, start, end)
    {
    }
  }

  /** at picks part, and holds exactly the positions in keep. */
  ghost predicate PicksKept<T>(part: seq<T>, whole: seq<T>, at: seq<nat>, keep: set<nat>) {
    Picks(part, whole, at) && forall k :: k in at <==> k in keep
  }

  lemma PickLast<T>(part: seq<T>, whole: seq<T>, at: seq<nat>, keep: set<nat>)
    requires whole != [] && PicksKept(part, whole[..|whole| - 1], at, keep)
    ensures PicksKept(part, whole, at, keep)
    ensures PicksKept(part + [whole[|whole| - 1]], whole, at + [|whole| - 1], keep + {|whole| - 1})
  {
  }

  function Others(handoffs: seq<Handoff>, ids: set<string>): set<nat> {
    set k: nat | k < |handoffs| && handoffs[k].sourceStep !in ids
  }

  lemma OthersNext(handoffs: seq<Handoff>, ids: set<string>)
    requires handoffs != []
    ensures var n := |handoffs| - 1;
      var keep := Others(handoffs[..n], ids);
      Others(handoffs, ids) == if handoffs[n].sourceStep in ids then keep else keep + {n}
  {
  }

  lemma OutsideNext(handoffs: seq<Handoff>, ids: set<string>)
    requires handoffs != []
    ensures var n := |handoffs| - 1;
      var rest := HandoffsOutside(handoffs[..n], ids);
      HandoffsOutside(handoffs, ids) == if handoffs[n].sourceStep in ids then rest else rest + [handoffs[n]]
  {
  }

  lemma {:induction false} HandoffsPicked(handoffs: seq<Handoff>, ids: set<string>) returns (at: seq<nat>)
    ensures PicksKept(HandoffsOutside(handoffs, ids), handoffs, at, Others(handoffs, ids))
  {
    hide PicksKept, Others, HandoffsOutside;
    if handoffs == [] {
      at := [];
      NoHandoffs(ids);
    } else {
      var n := |handoffs| - 1;
      at := HandoffsPicked(handoffs[..n], ids);
      var rest, keep := HandoffsOutside(handoffs[..n], ids), Others(handoffs[..n], ids);
      PickLast(rest, handoffs, at, keep);
      OthersNext(handoffs, ids);
      OutsideNext(handoffs, ids);
      at := if handoffs[n].sourceStep in ids then at else at + [n];
    }
  }

  lemma NoHandoffs(ids: set<string>)
    ensures PicksKept(HandoffsOutside([], ids), [], [], Others([], ids))
  {
  }

  lemma EntriesAppend(items: seq<Evidence>, e: Evidence)
    ensures EntriesOnly(items + [e]) == EntriesOnly(items) + if e.Entry? then [e] else []
  {
    assert (items + [e])[..|items|] == items;
  }

  function OtherEntries(ledger: seq<Evidence>, iter: nat, ids: set<string>): set<nat> {
    set k: nat | k < |ledger| && ledger[k].Entry? && !FromGroup(ledger[k], iter, ids)
  }

  lemma OtherEntriesNext(ledger: seq<Evidence>, iter: nat, ids: set<string>)
    requires ledger != []
    ensures var n := |ledger| - 1;
      var keep := OtherEntries(ledger[..n], iter, ids);
      OtherEntries(ledger, iter, ids) ==
        if ledger[n].Entry? && !FromGroup(ledger[n], iter, ids) then keep + {n} else keep
  {
  }

  lemma EntriesNext(ledger: seq<Evidence>, iter: nat, ids: set<string>)
    requires ledger != []
    ensures var n := |ledger| - 1;
      var rest := EntriesOnly(EvidenceOutside(ledger[..n], iter, ids));
      EntriesOnly(EvidenceOutside(ledger, iter, ids)) ==
        if ledger[n].Entry? && !FromGroup(ledger[n], iter, ids) then rest + [ledger[n]] else rest
  {
    var n := |ledger| - 1;
    var before := EvidenceOutside(ledger[..n], iter, ids);
    assert EvidenceOutside(ledger, iter, ids) ==
      if FromGroup(ledger[n], iter, ids) then before else before + [ledger[n]];
    hide EvidenceOutside;
    EntriesAppend(before, ledger[n]);
  }

  lemma NoEntries(iter: nat, ids: set<string>)
    ensures PicksKept(EntriesOnly(EvidenceOutside([], iter, ids)), [], [], OtherEntries([], iter, ids))
  {
  }

  lemma {:induction false} EvidencePicked(ledger: seq<Evidence>, iter: nat, ids: set<string>) returns (at: seq<nat>)
    ensures PicksKept(
      EntriesOnly(EvidenceOutside(ledger, iter, ids)), ledger, at, OtherEntries(ledger, iter, ids))
  {
    hide PicksKept, OtherEntries, EvidenceOutside, EntriesOnly;
    if ledger == [] {
      at := [];
      NoEntries(iter, ids);
    } else {
      var n := |ledger| - 1;
      at := EvidencePicked(ledger[..n], iter, ids);
      var before, keep := EvidenceOutside(ledger[..n], iter, ids), OtherEntries(ledger[..n], iter, ids);
      PickLast(EntriesOnly(before), ledger, at, keep);
      OtherEntriesNext(ledger, iter, ids);
      EntriesNext(ledger, iter, ids);
      at := if ledger[n].Entry? && !FromGroup(ledger[n], iter, ids) then at + [n] else at;
    }
  }

  lemma InputsAre(ctx: Context, live: Live, order: nat)
    requires Rooted(ctx) && order < |ctx.steps|
    ensures var inputs := InputsNow(ctx, live, ctx.steps[order], order);
      if ctx.steps[order].group == "" then ReadsLive(live, inputs) else ReadsAround(ctx, live, order, inputs)
  {
    hide IdOfMember, RoleOfMember, ArchetypeOfMember, Picks;
    if ctx.steps[order].group != "" {
      AfreshAround(ctx, live, order);
    }
  }

  lemma AfreshAround(ctx: Context, live: Live, order: nat)
    requires Rooted(ctx) && order < |ctx.steps|
    ensures ReadsAround(
      ctx, live, order, Handed(Afresh(ctx, live, RunStart(ctx.steps, order), RunEnd(ctx.steps, order))))
  {
    hide IdOfMember, RoleOfMember, ArchetypeOfMember, Picks, IdSet, RoleNames, Archetypes, GroupRoles;
    var start, end := RunStart(ctx.steps, order), RunEnd(ctx.steps, order);
    var ids := IdSet(ctx.steps, start, end);
    forall name
      ensures name in ids <==> IdOfMember(ctx, order, name)
      ensures name in RoleNames(ctx, GroupRoles(ctx, start, end)) <==> RoleOfMember(ctx, order, name)
      ensures name in Archetypes(GroupRoles(ctx, start, end)) <==> ArchetypeOfMember(ctx, order, name)
    {
      NamesAre(ctx, order, name);
    }
    var s := Handed(Afresh(ctx, live, start, end));
    var at := HandoffsPicked(live.handoffs, ids);
    assert HandoffsRead(ctx, live, order, s.handoffs, at);
    at := EvidencePicked(live.ledger, live.iter, ids);
    assert EvidenceRead(ctx, live, order, s.evidence.value, at);
  }

  // ----- Through the cache -----

  /** Whatever is cached, a claim gets a snapshot of this iteration and of its own stretch, and the cached one if it
      is of these. */
  lemma SnapshotIsCurrent(ctx: Context, m: Machine, order: nat)
    requires Rooted(ctx) && order < |ctx.steps|
    ensures var s := SnapshotFor(ctx, m, order);
      && s.iter == m.live.iter && s.group == ctx.steps[order].group
      && (forall k: nat :: s.start <= k < s.end <==> Member(ctx.steps, order, k))
      && (m.cache.Some? && m.cache.value.iter == m.live.iter && m.cache.value.group == ctx.steps[order].group
          && m.cache.value.start == RunStart(ctx.steps, order) && m.cache.value.end == RunEnd(ctx.steps, order)
          ==> m.cache == Some(s))
  {
    hide Member;
    RunIsMaximal(ctx.steps, order);
    forall k: nat ensures RunStart(ctx.steps, order) <= k < RunEnd(ctx.steps, order) <==> Member(ctx.steps, order, k) {
      MemberIs(ctx.steps, order, k);
    }
  }

  lemma ServedAround(ctx: Context, m: Machine, order: nat)
    requires Rooted(ctx) && order < |ctx.steps| && CacheCoherent(ctx, m)
    ensures ReadsAround(ctx, m.live, order, Handed(SnapshotFor(ctx, m, order)))
  {
    hide ReadsAround, Handed, Afresh;
    ServedIsLive(ctx, m, order);
    AfreshAround(ctx, m.live, order);
  }

  /** In any run a claim is handed exactly these inputs, cached or not. */
  lemma ClaimsReadExactly(ctx: Context, ms: seq<Machine>, ops: seq<Op>, n: nat)
    requires Rooted(ctx) && Run(ctx, ms, ops) && Coherent(ctx, ms[0])
    requires n < |ops| && ops[n].Claim? && ops[n].order < |ctx.steps|
    ensures var order := ops[n].order;
      if ctx.steps[order].group == "" then ReadsLive(ms[n].live, ServedAt(ctx, ms, ops, n))
      else ReadsAround(ctx, ms[n].live, order, ServedAt(ctx, ms, ops, n))
  {
    hide Coherent, ServedAt, InputsNow, ReadsAround;
    CachedClaimIsLive(ctx, ms, ops, n);
    InputsAre(ctx, ms[n].live, ops[n].order);
  }

  // ----- What a submit leaves to be read -----

  /** After a submit every name of the step has its output, the other names keep theirs, and handoff and evidence are
      the last ones. */
  lemma SubmitIsFiled(ctx: Context, live: Live, step: Step, op: Op)
    requires op.Submit? && step.roleId in ctx.roles
    ensures var after, role := Filed(ctx, live, step, op), ctx.roles[step.roleId];
      && after.iter == live.iter
      && (forall name :: name in after.byStep <==> name in live.byStep || name == step.id)
      && (forall name :: name in after.byStep ==>
          after.byStep[name] == if name == step.id then op.output else live.byStep[name])
      && (forall name :: name in after.byRole <==>
          name in live.byRole || name == role.id || name == ctx.runtimeRole(role))
      && (forall name :: name in after.byRole ==>
          after.byRole[name] ==
            if name == role.id || name == ctx.runtimeRole(role) then op.output else live.byRole[name])
      && (forall name :: name in after.byArchetype <==> name in live.byArchetype || name == role.archetype)
      && (forall name :: name in after.byArchetype ==>
          after.byArchetype[name] == if name == role.archetype then op.output else live.byArchetype[name])
      && after.handoffs == live.handoffs + [Handoff(step.id, op.handoff)]
      && after.ledger == live.ledger + [Entry(live.iter, step.id, op.evidence)]
  {
  }

  /** So the next claim reads a submitted output, unless a step of its own group files under the name. */
  lemma NextClaimReads(ctx: Context, live: Live, step: Step, op: Op, order: nat)
    requires Rooted(ctx) && op.Submit? && step.roleId in ctx.roles && order < |ctx.steps|
    ensures var inputs := InputsNow(ctx, Filed(ctx, live, step, op), ctx.steps[order], order);
      var role, alone := ctx.roles[step.roleId], ctx.steps[order].group == "";
      && (alone || !IdOfMember(ctx, order, step.id) ==>
          step.id in inputs.byStep && inputs.byStep[step.id] == op.output
          && Handoff(step.id, op.handoff) in inputs.handoffs)
      && (alone || !RoleOfMember(ctx, order, role.id) ==>
          role.id in inputs.byRole && inputs.byRole[role.id] == op.output)
      && (alone || !RoleOfMember(ctx, order, ctx.runtimeRole(role)) ==>
          ctx.runtimeRole(role) in inputs.byRole && inputs.byRole[ctx.runtimeRole(role)] == op.output)
      && (alone || !ArchetypeOfMember(ctx, order, role.archetype) ==>
          role.archetype in inputs.byArchetype && inputs.byArchetype[role.archetype] == op.output)
  {
    hide InputsNow, IdOfMember, RoleOfMember, ArchetypeOfMember, EvidenceRead;
    var after := Filed(ctx, live, step, op);
    InputsAre(ctx, after, order);
    assert after.handoffs[|live.handoffs|] == Handoff(step.id, op.handoff);
    if ctx.steps[order].group != "" && !IdOfMember(ctx, order, step.id) {
      var at :| HandoffsRead(ctx, after, order, InputsNow(ctx, after, ctx.steps[order], order).handoffs, at);
      assert |live.handoffs| in at;
    }
  }

  /** A submit of a group's step keeps the snapshot exactly while a step of the stretch is still to come. */
  lemma SnapshotLasts(ctx: Context, m: Machine, op: Op)
    requires Rooted(ctx) && Legal(ctx, m, op) && op.Submit? && !m.active.value.control
    requires m.active.value.order < |ctx.steps| && ctx.steps[m.active.value.order] == m.active.value.step
    ensures var a := m.active.value;
      Apply(ctx, m, op).cache ==
        if a.step.group != "" && Member(ctx.steps, a.order, a.order + 1) then m.cache else None
  {
  }

  // ----- Where outputs and handoffs come from -----

  /** Operation k is a submit of this iteration, seen from n. */
  ghost predicate Submitted(ctx: Context, ms: seq<Machine>, ops: seq<Op>, n: nat, k: nat)
    requires Rooted(ctx) && Run(ctx, ms, ops)
  {
    k < n <= |ops| && SameIteration(ops, k, n) && ops[k].Submit? && ms[k].active.Some?
  }

  datatype By = ByStep | ByRole | ByArchetype

  function Outputs(live: Live, kind: By): map<string, Output> {
    match kind
    case ByStep => live.byStep
    case ByRole => live.byRole
    case ByArchetype => live.byArchetype
  }

  /** The claimed step files its output under that name: its id, its role's id or runtime name, or its archetype. */
  ghost predicate FilesUnder(ctx: Context, m: Machine, kind: By, name: string) {
    && m.active.Some? && m.active.value.step.roleId in ctx.roles
    && var step, role := m.active.value.step, ctx.roles[m.active.value.step.roleId];
      match kind
      case ByStep => step.id == name
      case ByRole => role.id == name || ctx.runtimeRole(role) == name
      case ByArchetype => role.archetype == name
  }

  /** And the last one under that name. */
  ghost predicate LastBy(ctx: Context, ms: seq<Machine>, ops: seq<Op>, n: nat, k: nat, kind: By, name: string)
    requires Rooted(ctx) && Run(ctx, ms, ops)
  {
    && Submitted(ctx, ms, ops, n, k) && FilesUnder(ctx, ms[k], kind, name)
    && forall j :: k < j < n && ops[j].Submit? ==> !FilesUnder(ctx, ms[j], kind, name)
  }

  /** In every run, the output under a step id, a role or an archetype is the one last submitted in this iteration under
      that name; without such a submit there is none. */
  lemma {:induction false} OutputsAre(ctx: Context, ms: seq<Machine>, ops: seq<Op>, n: nat, kind: By, name: string)
    requires Rooted(ctx) && Run(ctx, ms, ops) && n <= |ops| && Outputs(ms[0].live, kind) == map[]
    ensures name in Outputs(ms[n].live, kind) <==> exists k: nat :: LastBy(ctx, ms, ops, n, k, kind, name)
    ensures forall k: nat :: LastBy(ctx, ms, ops, n, k, kind, name) ==>
      name in Outputs(ms[n].live, kind) && Outputs(ms[n].live, kind)[name] == ops[k].output
  {
    if n > 0 {
      var m := n - 1;
      OutputsAre(ctx, ms, ops, m, kind, name);
      assert GroupSnapshots.Step(ctx, ms[m], ops[m], ms[n]);
      forall k: nat
        ensures LastBy(ctx, ms, ops, n, k, kind, name) <==>
          if ops[m].Submit? && FilesUnder(ctx, ms[m], kind, name) then k == m
          else !ops[m].NextIteration? && LastBy(ctx, ms, ops, m, k, kind, name)
      {
        LastByNext(ctx, ms, ops, m, k, kind, name);
      }
      ApplyFiles(ctx, ms[m], ops[m], kind, name);
      hide LastBy, FilesUnder, Apply, Outputs;
    }
  }

  lemma LastByNext(ctx: Context, ms: seq<Machine>, ops: seq<Op>, m: nat, k: nat, kind: By, name: string)
    requires Rooted(ctx) && Run(ctx, ms, ops) && m < |ops| && (ops[m].Submit? ==> ms[m].active.Some?)
    ensures LastBy(ctx, ms, ops, m + 1, k, kind, name) <==>
      if ops[m].Submit? && FilesUnder(ctx, ms[m], kind, name) then k == m
      else !ops[m].NextIteration? && LastBy(ctx, ms, ops, m, k, kind, name)
  {
    hide Run, Rooted, FilesUnder;
  }

  lemma ApplyFiles(ctx: Context, m: Machine, op: Op, kind: By, name: string)
    requires Rooted(ctx) && Legal(ctx, m, op)
    ensures var before, after := Outputs(m.live, kind), Outputs(Apply(ctx, m, op).live, kind);
      if op.NextIteration? then after == map[]
      else if op.Submit? && FilesUnder(ctx, m, kind, name) then name in after && after[name] == op.output
      else (name in after <==> name in before) && (name in after ==> after[name] == before[name])
  {
  }

  /** Exactly the submits of this iteration before n, in order. */
  ghost predicate IterationSubmits(ctx: Context, ms: seq<Machine>, ops: seq<Op>, n: nat, at: seq<nat>)
    requires Rooted(ctx) && Run(ctx, ms, ops)
  {
    && (forall i, j :: 0 <= i < j < |at| ==> at[i] < at[j])
    && (forall i :: 0 <= i < |at| ==> Submitted(ctx, ms, ops, n, at[i]))
    && (forall k: nat :: Submitted(ctx, ms, ops, n, k) ==> k in at)
  }

  lemma IterationSubmitsNext(ctx: Context, ms: seq<Machine>, ops: seq<Op>, m: nat, at: seq<nat>)
    requires Rooted(ctx) && Run(ctx, ms, ops) && m < |ops| && (ops[m].Submit? ==> ms[m].active.Some?)
    requires IterationSubmits(ctx, ms, ops, m, at)
    ensures IterationSubmits(ctx, ms, ops, m + 1,
      if ops[m].NextIteration? then [] else if ops[m].Submit? then at + [m] else at)
  {
    forall k: nat
      ensures Submitted(ctx, ms, ops, m + 1, k) <==>
        !ops[m].NextIteration? && (Submitted(ctx, ms, ops, m, k) || (k == m && ops[m].Submit?))
    {
      SubmittedNext(ctx, ms, ops, m, k);
    }
    assert forall k: nat :: Submitted(ctx, ms, ops, m, k) ==> k < m;
    hide Submitted, Run, Rooted;
  }

  /** Each handoff is that of the submit at the same place in `at`. */
  ghost predicate HandoffsFrom(ms: seq<Machine>, ops: seq<Op>, handoffs: seq<Handoff>, at: seq<nat>) {
    && |handoffs| == |at| && |ms| == |ops| + 1
    && forall i :: 0 <= i < |at| ==>
      && at[i] < |ops| && ops[at[i]].Submit? && ms[at[i]].active.Some?
      && handoffs[i] == Handoff(ms[at[i]].active.value.step.id, ops[at[i]].handoff)
  }

  lemma HandoffsFromNext(ms: seq<Machine>, ops: seq<Op>, handoffs: seq<Handoff>, at: seq<nat>, m: nat)
    requires HandoffsFrom(ms, ops, handoffs, at) && m < |ops| && ops[m].Submit? && ms[m].active.Some?
    ensures HandoffsFrom(
      ms, ops, handoffs + [Handoff(ms[m].active.value.step.id, ops[m].handoff)], at + [m])
  {
  }

  /** And the handoffs are those of this iteration's submits, one each, in their order. */
  lemma {:induction false} HandoffsAre(ctx: Context, ms: seq<Machine>, ops: seq<Op>, n: nat) returns (at: seq<nat>)
    requires Rooted(ctx) && Run(ctx, ms, ops) && n <= |ops| && ms[0].live.handoffs == []
    ensures IterationSubmits(ctx, ms, ops, n, at) && HandoffsFrom(ms, ops, ms[n].live.handoffs, at)
  {
    at := [];
    if n > 0 {
      var m := n - 1;
      at := HandoffsAre(ctx, ms, ops, m);
      assert GroupSnapshots.Step(ctx, ms[m], ops[m], ms[n]);
      ApplyHandoffs(ctx, ms[m], ops[m]);
      hide IterationSubmits, HandoffsFrom, Apply;
      IterationSubmitsNext(ctx, ms, ops, m, at);
      if ops[m].Submit? {
        HandoffsFromNext(ms, ops, ms[m].live.handoffs, at, m);
      }
      NoHandoffsFrom(ms, ops);
      at := if ops[m].NextIteration? then [] else if ops[m].Submit? then at + [m] else at;
    }
  }

  lemma NoHandoffsFrom(ms: seq<Machine>, ops: seq<Op>)
    requires |ms| == |ops| + 1
    ensures HandoffsFrom(ms, ops, [], [])
  {
  }

  lemma ApplyHandoffs(ctx: Context, m: Machine, op: Op)
    requires Rooted(ctx) && Legal(ctx, m, op)
    ensures Apply(ctx, m, op).live.handoffs ==
      if op.NextIteration? then []
      else if op.Submit? then m.live.handoffs + [Handoff(m.active.value.step.id, op.handoff)]
      else m.live.handoffs
  {
  }

  lemma SubmittedNext(ctx: Context, ms: seq<Machine>, ops: seq<Op>, m: nat, k: nat)
    requires Rooted(ctx) && Run(ctx, ms, ops) && m < |ops| && (ops[m].Submit? ==> ms[m].active.Some?)
    ensures Submitted(ctx, ms, ops, m + 1, k) <==>
      !ops[m].NextIteration? && (Submitted(ctx, ms, ops, m, k) || (k == m && ops[m].Submit?))
  {
    hide Run, Rooted;
  }

  lemma ApplyLedger(ctx: Context, m: Machine, op: Op)
    requires Rooted(ctx) && Legal(ctx, m, op)
    ensures Apply(ctx, m, op).live.ledger ==
      if op.Submit? then m.live.ledger + [Entry(m.live.iter, m.active.value.step.id, op.evidence)] else m.live.ledger
    ensures Apply(ctx, m, op).live.iter == m.live.iter + if op.NextIteration? then 1 else 0
  {
  }

  /** Each line is that of the submit at the same place in `at`. */
  ghost predicate Lines(ms: seq<Machine>, ops: seq<Op>, lines: seq<Evidence>, at: seq<nat>) {
    && |lines| == |at| && |ms| == |ops| + 1
    && forall i :: 0 <= i < |at| ==>
      && at[i] < |ops| && ops[at[i]].Submit? && ms[at[i]].active.Some?
      && lines[i] == Entry(ms[at[i]].live.iter, ms[at[i]].active.value.step.id, ops[at[i]].evidence)
  }

  /** Exactly the submits before n, in order. */
  ghost predicate SubmitsBefore(ops: seq<Op>, n: nat, at: seq<nat>) {
    && n <= |ops| && (forall i, j :: 0 <= i < j < |at| ==> at[i] < at[j])
    && (forall i :: 0 <= i < |at| ==> at[i] < n && ops[at[i]].Submit?)
    && (forall k :: 0 <= k < n && ops[k].Submit? ==> k in at)
  }

  lemma LinesNext(ms: seq<Machine>, ops: seq<Op>, lines: seq<Evidence>, at: seq<nat>, m: nat)
    requires Lines(ms, ops, lines, at) && m < |ops| && ops[m].Submit? && ms[m].active.Some?
    ensures Lines(
      ms, ops, lines + [Entry(ms[m].live.iter, ms[m].active.value.step.id, ops[m].evidence)], at + [m])
  {
  }

  lemma SubmitsNext(ops: seq<Op>, n: nat, at: seq<nat>)
    requires n < |ops| && SubmitsBefore(ops, n, at)
    ensures SubmitsBefore(ops, n + 1, if ops[n].Submit? then at + [n] else at)
  {
  }

  /** The ledger never loses a line: it is the ledger of the start and one line for every submit of the run, in order,
      under the iteration and the step of the submit. */
  lemma {:induction false} LedgerIs(ctx: Context, ms: seq<Machine>, ops: seq<Op>, n: nat)
    returns (at: seq<nat>, lines: seq<Evidence>)
    requires Rooted(ctx) && Run(ctx, ms, ops) && n <= |ops|
    ensures ms[n].live.ledger == ms[0].live.ledger + lines
    ensures Lines(ms, ops, lines, at) && SubmitsBefore(ops, n, at)
  {
    hide Lines, SubmitsBefore, Apply;
    if n == 0 {
      at, lines := [], [];
      NoLines(ms, ops);
    } else {
      var m := n - 1;
      at, lines := LedgerIs(ctx, ms, ops, m);
      StepLedger(ctx, ms, ops, m);
      SubmitsNext(ops, m, at);
      if ops[m].Submit? {
        LinesNext(ms, ops, lines, at, m);
        var line := Entry(ms[m].live.iter, ms[m].active.value.step.id, ops[m].evidence);
        Added(ms[0].live.ledger, lines, [line]);
        at, lines := at + [m], lines + [line];
      }
    }
  }

  lemma NoLines(ms: seq<Machine>, ops: seq<Op>)
    requires |ms| == |ops| + 1
    ensures Lines(ms, ops, [], []) && SubmitsBefore(ops, 0, [])
    ensures ms[0].live.ledger + [] == ms[0].live.ledger
  {
  }

  lemma Added(a: seq<Evidence>, b: seq<Evidence>, c: seq<Evidence>)
    ensures a + b + c == a + (b + c)
  {
  }

  lemma StepLedger(ctx: Context, ms: seq<Machine>, ops: seq<Op>, m: nat)
    requires Rooted(ctx) && Run(ctx, ms, ops) && m < |ops|
    ensures ops[m].Submit? ==> ms[m].active.Some?
    ensures ms[m + 1].live.ledger == ms[m].live.ledger +
      if ops[m].Submit? then [Entry(ms[m].live.iter, ms[m].active.value.step.id, ops[m].evidence)] else []
    ensures ms[m + 1].live.iter == ms[m].live.iter + if ops[m].NextIteration? then 1 else 0
  {
    assert GroupSnapshots.Step(ctx, ms[m], ops[m], ms[m + 1]);
    ApplyLedger(ctx, ms[m], ops[m]);
    assert ms[m].live.ledger + [] == ms[m].live.ledger;
  }

  /** A run that starts at iteration i is at i plus the number of iteration changes. */
  lemma {:induction false} IterationIs(ctx: Context, ms: seq<Machine>, ops: seq<Op>, n: nat)
    requires Rooted(ctx) && Run(ctx, ms, ops) && n <= |ops|
    ensures ms[n].live.iter == ms[0].live.iter + |set k | 0 <= k < n && ops[k].NextIteration?|
  {
    if n > 0 {
      var m := n - 1;
      IterationIs(ctx, ms, ops, m);
      StepLedger(ctx, ms, ops, m);
      hide Run, Rooted;
      var before := set k | 0 <= k < m && ops[k].NextIteration?;
      assert (set k | 0 <= k < n && ops[k].NextIteration?) == if ops[m].NextIteration? then before + {m} else before;
    }
  }
}

/** What a claimed step reads: the live outputs, or, inside a parallel group, a snapshot that leaves
    out the group's own steps and is cached in the run state between the claims of the group. */
module GroupSnapshots {
  import opened Options
  import opened ParallelGroups

  datatype Output = Output(json: string)
  datatype Role = Role(id: string, archetype: string)
  datatype Handoff = Handoff(sourceStep: string, body: string)

  /** A line of the evidence ledger; a line that is no JSON object is kept but never handed out. */
  datatype Evidence = Entry(iter: int, stepId: string, body: string) | Malformed(text: string)

  datatype Context = Context(steps: seq<Step>, roles: map<string, Role>, runtimeRole: Role -> string)

  /** Every step names a known role. */
  ghost predicate Rooted(ctx: Context) {
    forall i :: 0 <= i < |ctx.steps| ==> ctx.steps[i].roleId in ctx.roles
  }

  /** The part of the run state that submits change. */
  datatype Live = Live(
    iter: nat,
    byStep: map<string, Output>,
    byRole: map<string, Output>,
    byArchetype: map<string, Output>,
    handoffs: seq<Handoff>,
    ledger: seq<Evidence>)

  datatype Snapshot = Snapshot(
    iter: nat, group: string, start: nat, end: nat, ids: seq<string>,
    byStep: map<string, Output>,
    byRole: map<string, Output>,
    byArchetype: map<string, Output>,
    handoffs: seq<Handoff>,
    evidence: seq<Evidence>)

  datatype Inputs = Inputs(
    byStep: map<string, Output>,
    byRole: map<string, Output>,
    byArchetype: map<string, Output>,
    handoffs: seq<Handoff>,
    evidence: Option<seq<Evidence>>)

  // ----- The snapshot computed afresh -----

  function IdSet(steps: seq<Step>, start: nat, end: nat): set<string>
    requires start <= end <= |steps|
  {
    set i | start <= i < end :: steps[i].id
  }

  function GroupRoles(ctx: Context, start: nat, end: nat): set<Role>
    requires start <= end <= |ctx.steps|
    requires forall i :: 0 <= i < |ctx.steps| ==> ctx.steps[i].roleId in ctx.roles
  {
    set i | start <= i < end :: ctx.roles[ctx.steps[i].roleId]
  }

  /** The names under which the group's roles file their outputs. */
  function RoleNames(ctx: Context, roles: set<Role>): set<string> {
    (set r | r in roles :: r.id) + (set r | r in roles :: ctx.runtimeRole(r))
  }

  function Archetypes(roles: set<Role>): set<string> {
    set r | r in roles :: r.archetype
  }

  function HandoffsOutside(handoffs: seq<Handoff>, ids: set<string>): (r: seq<Handoff>)
    ensures forall h :: h in r <==> h in handoffs && h.sourceStep !in ids
  {
    if handoffs == [] then []
    else
      HandoffsOutside(handoffs[..|handoffs| - 1], ids) +
      if handoffs[|handoffs| - 1].sourceStep in ids then [] else [handoffs[|handoffs| - 1]]
  }

  predicate FromGroup(e: Evidence, iter: nat, ids: set<string>) {
    e.Entry? && e.iter == iter && e.stepId in ids
  }

  function EvidenceOutside(ledger: seq<Evidence>, iter: nat, ids: set<string>): (r: seq<Evidence>)
    ensures forall e :: e in r <==> e in ledger && !FromGroup(e, iter, ids)
  {
    if ledger == [] then []
    else
      EvidenceOutside(ledger[..|ledger| - 1], iter, ids) +
      if FromGroup(ledger[|ledger| - 1], iter, ids) then [] else [ledger[|ledger| - 1]]
  }

  function EntriesOnly(items: seq<Evidence>): (r: seq<Evidence>)
    ensures forall e :: e in r <==> e in items && e.Entry?
  {
    if items == [] then []
    else EntriesOnly(items[..|items| - 1]) + if items[|items| - 1].Entry? then [items[|items| - 1]] else []
  }

  function Afresh(ctx: Context, live: Live, start: nat, end: nat): Snapshot
    requires start < end <= |ctx.steps| && Rooted(ctx)
  {
    var ids := IdSet(ctx.steps, start, end);
    var roles := GroupRoles(ctx, start, end);
    Snapshot(
      live.iter, ctx.steps[start].group, start, end, Ids(ctx.steps[start..end]),
      live.byStep - ids,
      live.byRole - RoleNames(ctx, roles),
      live.byArchetype - Archetypes(roles),
      HandoffsOutside(live.handoffs, ids),
      EvidenceOutside(live.ledger, live.iter, ids))
  }

  function Handed(s: Snapshot): Inputs {
    Inputs(s.byStep, s.byRole, s.byArchetype, s.handoffs, Some(EntriesOnly(s.evidence)))
  }

  /** What a claim of `step` reads when nothing is cached. */
  function InputsNow(ctx: Context, live: Live, step: Step, order: nat): Inputs
    requires Rooted(ctx) && (step.group != "" ==> order < |ctx.steps|)
  {
    if step.group == "" then Inputs(live.byStep, live.byRole, live.byArchetype, live.handoffs, None)
    else Handed(Afresh(ctx, live, RunStart(ctx.steps, order), RunEnd(ctx.steps, order)))
  }

  /** A snapshot holds nothing that a step of the group filed: no output under a name one of them
      uses, no handoff of theirs, no evidence of theirs from this iteration. */
  lemma NothingFromSiblings(ctx: Context, live: Live, order: nat, sibling: nat)
    requires Rooted(ctx) && order < |ctx.steps| && ctx.steps[order].group != ""
    requires RunStart(ctx.steps, order) <= sibling < RunEnd(ctx.steps, order)
    ensures var inputs, step := InputsNow(ctx, live, ctx.steps[order], order), ctx.steps[sibling];
      var role := ctx.roles[step.roleId];
      && step.id !in inputs.byStep
      && role.id !in inputs.byRole && ctx.runtimeRole(role) !in inputs.byRole
      && role.archetype !in inputs.byArchetype
      && (forall h :: h in inputs.handoffs ==> h.sourceStep != step.id)
      && (forall e :: e in inputs.evidence.value ==> e.Entry? && !(e.iter == live.iter && e.stepId == step.id))
  {
    var start, end := RunStart(ctx.steps, order), RunEnd(ctx.steps, order);
    assert ctx.steps[sibling].id in IdSet(ctx.steps, start, end);
    assert ctx.roles[ctx.steps[sibling].roleId] in GroupRoles(ctx, start, end);
  }

  // ----- The run as a machine -----

  /** The claimed step; a control step has no place among the strategy steps. */
  datatype Active = Active(step: Step, order: nat, control: bool)

  datatype Machine = Machine(live: Live, cache: Option<Snapshot>, active: Option<Active>, next: nat)

  datatype Op =
    | Claim(order: nat)
    | ClaimControl(step: Step, at: nat)
    | Submit(output: Output, handoff: string, evidence: string)
    | DropStale
    | NextIteration

  predicate Legal(ctx: Context, m: Machine, op: Op) {
    match op
    case Claim(order) => m.active.None? && order < |ctx.steps|
    case ClaimControl(step, _) => m.active.None? && step.group == "" && step.roleId in ctx.roles
    case Submit(_, _, _) => m.active.Some? && m.active.value.step.roleId in ctx.roles
    case DropStale => m.active.Some?
    case NextIteration => m.active.None?
  }

  predicate CacheHit(cache: Option<Snapshot>, iter: nat, group: string, start: nat, end: nat) {
    cache.Some? && cache.value.iter == iter && cache.value.group == group
    && cache.value.start == start && cache.value.end == end
  }

  function SnapshotFor(ctx: Context, m: Machine, order: nat): Snapshot
    requires Rooted(ctx) && order < |ctx.steps|
  {
    var start, end := RunStart(ctx.steps, order), RunEnd(ctx.steps, order);
    if CacheHit(m.cache, m.live.iter, ctx.steps[order].group, start, end) then m.cache.value
    else Afresh(ctx, m.live, start, end)
  }

  /** The inputs handed to a claim, read through the cache. */
  function Served(ctx: Context, m: Machine, step: Step, order: nat): Inputs
    requires Rooted(ctx) && (step.group != "" ==> order < |ctx.steps| && ctx.steps[order] == step)
  {
    if step.group == "" then Inputs(m.live.byStep, m.live.byRole, m.live.byArchetype, m.live.handoffs, None)
    else Handed(SnapshotFor(ctx, m, order))
  }

  function Claimed(ctx: Context, m: Machine, step: Step, order: nat, control: bool): Machine
    requires Rooted(ctx) && (step.group != "" ==> order < |ctx.steps| && ctx.steps[order] == step)
  {
    m.(cache := if step.group == "" then None else Some(SnapshotFor(ctx, m, order)),
       active := Some(Active(step, order, control)))
  }

  function Filed(ctx: Context, live: Live, step: Step, op: Op): Live
    requires op.Submit? && step.roleId in ctx.roles
  {
    var role := ctx.roles[step.roleId];
    Live(
      live.iter,
      live.byStep[step.id := op.output],
      live.byRole[role.id := op.output][ctx.runtimeRole(role) := op.output],
      live.byArchetype[role.archetype := op.output],
      live.handoffs + [Handoff(step.id, op.handoff)],
      live.ledger + [Entry(live.iter, step.id, op.evidence)])
  }

  function CacheAfterSubmit(ctx: Context, cache: Option<Snapshot>, step: Step, order: nat): Option<Snapshot> {
    if step.group != "" && order + 1 < |ctx.steps| && ctx.steps[order + 1].group == step.group then cache else None
  }

  function Apply(ctx: Context, m: Machine, op: Op): Machine
    requires Rooted(ctx) && Legal(ctx, m, op)
  {
    match op
    case Claim(order) => Claimed(ctx, m, ctx.steps[order], order, false)
    case ClaimControl(step, at) => Claimed(ctx, m, step, at, true)
    case Submit(_, _, _) =>
      var a := m.active.value;
      Machine(
        Filed(ctx, m.live, a.step, op),
        if a.control then m.cache else CacheAfterSubmit(ctx, m.cache, a.step, a.order),
        None,
        if a.control then |ctx.steps| else a.order + 1)
    case DropStale => m.(active := None)
    case NextIteration => Machine(Live(m.live.iter + 1, map[], map[], map[], [], m.live.ledger), None, None, 0)
  }

  ghost predicate Step(ctx: Context, m: Machine, op: Op, m': Machine)
    requires Rooted(ctx)
  {
    Legal(ctx, m, op) && m' == Apply(ctx, m, op)
  }

  /** ms are the machine states before, between and after the operations. */
  ghost predicate Run(ctx: Context, ms: seq<Machine>, ops: seq<Op>)
    requires Rooted(ctx)
  {
    && |ms| == |ops| + 1
    && (forall k {:trigger ops[k]} :: 0 <= k < |ops| ==> Step(ctx, ms[k], ops[k], ms[k + 1]))
  }

  // ----- The cache agrees with the live state -----

  ghost predicate CacheCoherent(ctx: Context, m: Machine)
    requires Rooted(ctx)
  {
    m.cache.Some? ==>
      var c := m.cache.value;
      && c.group != "" && IsRun(ctx.steps, c.group, c.start, c.end)
      && c == Afresh(ctx, m.live, c.start, c.end)
  }

  /** While a step is claimed, the cache is the one its claim left. */
  ghost predicate ActiveCoherent(ctx: Context, m: Machine) {
    m.active.Some? ==>
      var a := m.active.value;
      if a.step.group == "" then m.cache.None?
      else
        && !a.control && m.cache.Some?
        && m.cache.value.start <= a.order < m.cache.value.end <= |ctx.steps|
        && ctx.steps[a.order] == a.step
  }

  ghost predicate Coherent(ctx: Context, m: Machine)
    requires Rooted(ctx)
  {
    CacheCoherent(ctx, m) && ActiveCoherent(ctx, m)
  }

  lemma HandoffsUnseen(handoffs: seq<Handoff>, ids: set<string>, h: Handoff)
    requires h.sourceStep in ids
    ensures HandoffsOutside(handoffs + [h], ids) == HandoffsOutside(handoffs, ids)
  {
    assert (handoffs + [h])[..|handoffs|] == handoffs;
  }

  lemma EvidenceUnseen(ledger: seq<Evidence>, iter: nat, ids: set<string>, e: Evidence)
    requires FromGroup(e, iter, ids)
    ensures EvidenceOutside(ledger + [e], iter, ids) == EvidenceOutside(ledger, iter, ids)
  {
    assert (ledger + [e])[..|ledger|] == ledger;
  }

  lemma KeyUnseen(m: map<string, Output>, keys: set<string>, k: string, v: Output)
    requires k in keys
    ensures m[k := v] - keys == m - keys
  {
  }

  lemma NamesUnseen(ctx: Context, live: Live, start: nat, end: nat, k: nat, op: Op)
    requires Rooted(ctx) && start <= k < end <= |ctx.steps| && op.Submit?
    ensures var t, ids, roles :=
        Filed(ctx, live, ctx.steps[k], op), IdSet(ctx.steps, start, end), GroupRoles(ctx, start, end);
      && t.byStep - ids == live.byStep - ids
      && t.byRole - RoleNames(ctx, roles) == live.byRole - RoleNames(ctx, roles)
      && t.byArchetype - Archetypes(roles) == live.byArchetype - Archetypes(roles)
  {
    var ids, roles := IdSet(ctx.steps, start, end), GroupRoles(ctx, start, end);
    var step := ctx.steps[k];
    var role := ctx.roles[step.roleId];
    assert role in roles;
    KeyUnseen(live.byStep, ids, step.id, op.output);
    KeyUnseen(live.byRole, RoleNames(ctx, roles), role.id, op.output);
    KeyUnseen(live.byRole[role.id := op.output], RoleNames(ctx, roles), ctx.runtimeRole(role), op.output);
    KeyUnseen(live.byArchetype, Archetypes(roles), role.archetype, op.output);
  }

  /** A submit of a step of the group does not show in the group's snapshot. */
  lemma SubmitUnseen(ctx: Context, live: Live, start: nat, end: nat, k: nat, op: Op)
    requires Rooted(ctx) && start <= k < end <= |ctx.steps| && op.Submit?
    ensures Afresh(ctx, Filed(ctx, live, ctx.steps[k], op), start, end) == Afresh(ctx, live, start, end)
  {
    var ids, step := IdSet(ctx.steps, start, end), ctx.steps[k];
    NamesUnseen(ctx, live, start, end, k, op);
    HandoffsUnseen(live.handoffs, ids, Handoff(step.id, op.handoff));
    EvidenceUnseen(live.ledger, live.iter, ids, Entry(live.iter, step.id, op.evidence));
  }

  lemma ServedIsLive(ctx: Context, m: Machine, order: nat)
    requires Rooted(ctx) && CacheCoherent(ctx, m) && order < |ctx.steps|
    ensures SnapshotFor(ctx, m, order) == Afresh(ctx, m.live, RunStart(ctx.steps, order), RunEnd(ctx.steps, order))
  {
  }

  lemma ClaimCoherent(ctx: Context, m: Machine, order: nat)
    requires Rooted(ctx) && CacheCoherent(ctx, m) && order < |ctx.steps|
    ensures Coherent(ctx, Claimed(ctx, m, ctx.steps[order], order, false))
  {
    ServedIsLive(ctx, m, order);
    RunIsMaximal(ctx.steps, order);
  }

  lemma ApplyCoherent(ctx: Context, m: Machine, op: Op)
    requires Rooted(ctx) && Coherent(ctx, m) && Legal(ctx, m, op)
    ensures Coherent(ctx, Apply(ctx, m, op))
  {
    match op
    case Claim(order) => ClaimCoherent(ctx, m, order);
    case Submit(_, _, _) =>
      var a := m.active.value;
      if a.step.group != "" {
        SubmitUnseen(ctx, m.live, m.cache.value.start, m.cache.value.end, a.order, op);
      }
    case _ =>
  }

  /** Over every run, in whatever order steps are claimed, the cached snapshot is the one that would
      be computed from the live state. */
  lemma {:induction false} RunCoherent(ctx: Context, ms: seq<Machine>, ops: seq<Op>, n: nat)
    requires Rooted(ctx) && Run(ctx, ms, ops) && Coherent(ctx, ms[0]) && n <= |ops|
    ensures Coherent(ctx, ms[n])
  {
    if n > 0 {
      RunCoherent(ctx, ms, ops, n - 1);
      assert Step(ctx, ms[n - 1], ops[n - 1], ms[n]);
      ApplyCoherent(ctx, ms[n - 1], ops[n - 1]);
    }
  }

  /** What the claim at position n of the run is handed. */
  ghost function ServedAt(ctx: Context, ms: seq<Machine>, ops: seq<Op>, n: nat): Inputs
    requires Rooted(ctx) && Run(ctx, ms, ops) && n < |ops| && ops[n].Claim? && ops[n].order < |ctx.steps|
  {
    Served(ctx, ms[n], ctx.steps[ops[n].order], ops[n].order)
  }

  /** So a claim reads through the cache exactly what it would read without one: never the snapshot
      of another iteration or of another run of the same group name. */
  lemma CachedClaimIsLive(ctx: Context, ms: seq<Machine>, ops: seq<Op>, n: nat)
    requires Rooted(ctx) && Run(ctx, ms, ops) && Coherent(ctx, ms[0])
    requires n < |ops| && ops[n].Claim? && ops[n].order < |ctx.steps|
    ensures ServedAt(ctx, ms, ops, n) == InputsNow(ctx, ms[n].live, ctx.steps[ops[n].order], ops[n].order)
  {
    RunCoherent(ctx, ms, ops, n);
    ServedIsLive(ctx, ms[n], ops[n].order);
  }

  // ----- What members of a group read, in any order of claims -----

  /** The claimed step is one of start..end. */
  ghost predicate FromStretch(ctx: Context, m: Machine, start: nat, end: nat)
    requires end <= |ctx.steps|
  {
    m.active.Some? && exists s :: start <= s < end && ctx.steps[s] == m.active.value.step
  }

  /** The claimed step has an id that none of start..end has. */
  ghost predicate Foreign(ctx: Context, m: Machine, start: nat, end: nat)
    requires start <= end <= |ctx.steps|
  {
    m.active.Some? && m.active.value.step.id !in IdSet(ctx.steps, start, end)
  }

  ghost predicate SameIteration(ops: seq<Op>, i: nat, n: nat) {
    i <= n <= |ops| && forall k :: i <= k < n ==> !ops[k].NextIteration?
  }

  /** While only steps of a stretch submit, the snapshot taken for it stays what it was. */
  lemma {:induction false} GroupSnapshotStands(
      ctx: Context, ms: seq<Machine>, ops: seq<Op>, i: nat, n: nat, start: nat, end: nat)
    requires Rooted(ctx) && Run(ctx, ms, ops) && SameIteration(ops, i, n) && start < end <= |ctx.steps|
    requires forall k :: i <= k < n && ops[k].Submit? ==> FromStretch(ctx, ms[k], start, end)
    ensures Afresh(ctx, ms[n].live, start, end) == Afresh(ctx, ms[i].live, start, end)
    decreases n - i
  {
    hide Afresh;
    if i < n {
      assert Step(ctx, ms[i], ops[i], ms[i + 1]);
      GroupSnapshotStands(ctx, ms, ops, i + 1, n, start, end);
      if ops[i].Submit? {
        var s :| start <= s < end && ctx.steps[s] == ms[i].active.value.step;
        SubmitUnseen(ctx, ms[i].live, start, end, s, ops[i]);
      }
    }
  }

  function HandoffsRead(ctx: Context, live: Live, start: nat, end: nat): nat
    requires start <= end <= |ctx.steps|
  {
    |HandoffsOutside(live.handoffs, IdSet(ctx.steps, start, end))|
  }

  lemma SubmitSeen(ctx: Context, m: Machine, op: Op, start: nat, end: nat)
    requires Rooted(ctx) && Legal(ctx, m, op) && !op.NextIteration? && start < end <= |ctx.steps|
    ensures HandoffsRead(ctx, Apply(ctx, m, op).live, start, end) ==
      HandoffsRead(ctx, m.live, start, end) + if op.Submit? && Foreign(ctx, m, start, end) then 1 else 0
  {
    if op.Submit? {
      var h := Handoff(m.active.value.step.id, op.handoff);
      assert (m.live.handoffs + [h])[..|m.live.handoffs|] == m.live.handoffs;
    }
  }

  /** The handoffs a stretch reads only become more, and do so with each foreign submit. */
  lemma {:induction false} HandoffsGrow(
      ctx: Context, ms: seq<Machine>, ops: seq<Op>, i: nat, n: nat, start: nat, end: nat)
    requires Rooted(ctx) && Run(ctx, ms, ops) && SameIteration(ops, i, n) && start < end <= |ctx.steps|
    ensures HandoffsRead(ctx, ms[i].live, start, end) <= HandoffsRead(ctx, ms[n].live, start, end)
    ensures (exists k :: i <= k < n && ops[k].Submit? && Foreign(ctx, ms[k], start, end)) ==>
      HandoffsRead(ctx, ms[i].live, start, end) < HandoffsRead(ctx, ms[n].live, start, end)
    decreases n - i
  {
    hide HandoffsRead, Apply, Foreign, Legal;
    if i < n {
      assert Step(ctx, ms[i], ops[i], ms[i + 1]);
      SubmitSeen(ctx, ms[i], ops[i], start, end);
      HandoffsGrow(ctx, ms, ops, i + 1, n, start, end);
    }
  }

  /** Step ids are unique, and no control step borrows one. */
  ghost predicate Identified(ctx: Context, ops: seq<Op>) {
    && (forall i, j :: 0 <= i < j < |ctx.steps| ==> ctx.steps[i].id != ctx.steps[j].id)
    && (forall k, s :: 0 <= k < |ops| && ops[k].ClaimControl? && 0 <= s < |ctx.steps| ==>
        ops[k].step.id != ctx.steps[s].id)
  }

  /** The claimed step is a strategy step, or has none of their ids. */
  ghost predicate KnownActive(ctx: Context, m: Machine) {
    m.active.Some? ==>
      || (exists s :: 0 <= s < |ctx.steps| && ctx.steps[s] == m.active.value.step)
      || (forall s :: 0 <= s < |ctx.steps| ==> ctx.steps[s].id != m.active.value.step.id)
  }

  lemma {:induction false} RunKnowsActive(ctx: Context, ms: seq<Machine>, ops: seq<Op>, n: nat)
    requires Rooted(ctx) && Run(ctx, ms, ops) && Identified(ctx, ops) && KnownActive(ctx, ms[0]) && n <= |ops|
    ensures KnownActive(ctx, ms[n])
  {
    if n > 0 {
      RunKnowsActive(ctx, ms, ops, n - 1);
      assert Step(ctx, ms[n - 1], ops[n - 1], ms[n]);
    }
  }

  /** Then a step with an id of the stretch is a step of the stretch. */
  lemma IdsTellSteps(ctx: Context, m: Machine, ops: seq<Op>, start: nat, end: nat)
    requires Identified(ctx, ops) && KnownActive(ctx, m) && start <= end <= |ctx.steps|
    requires m.active.Some? && !Foreign(ctx, m, start, end)
    ensures FromStretch(ctx, m, start, end)
  {
    var step := m.active.value.step;
    var i :| start <= i < end && ctx.steps[i].id == step.id;
    var s :| 0 <= s < |ctx.steps| && ctx.steps[s] == step;
    assert s == i;
  }

  lemma ClaimsReadSnapshots(ctx: Context, ms: seq<Machine>, ops: seq<Op>, i: nat, group: string, start: nat, end: nat)
    requires Rooted(ctx) && Run(ctx, ms, ops) && Coherent(ctx, ms[0])
    requires IsRun(ctx.steps, group, start, end) && group != ""
    requires i < |ops| && ops[i].Claim? && start <= ops[i].order < end
    ensures ServedAt(ctx, ms, ops, i) == Handed(Afresh(ctx, ms[i].live, start, end))
  {
    hide Coherent, Afresh, Handed;
    CachedClaimIsLive(ctx, ms, ops, i);
    RunIsUnique(ctx.steps, group, start, end, ops[i].order);
  }

  /** Over any run: members of a group that are claimed in one iteration read the same inputs if only members
      submitted between the two claims. */
  lemma MembersOnlyReadTheSame(
      ctx: Context, ms: seq<Machine>, ops: seq<Op>, i: nat, j: nat, group: string, start: nat, end: nat)
    requires Rooted(ctx) && Run(ctx, ms, ops) && Coherent(ctx, ms[0])
    requires IsRun(ctx.steps, group, start, end) && group != ""
    requires SameIteration(ops, i, j) && j < |ops| && ops[i].Claim? && ops[j].Claim?
    requires start <= ops[i].order < end && start <= ops[j].order < end
    requires forall k :: i <= k < j && ops[k].Submit? ==> FromStretch(ctx, ms[k], start, end)
    ensures ServedAt(ctx, ms, ops, i) == ServedAt(ctx, ms, ops, j)
  {
    hide Coherent, Afresh, Handed, ServedAt;
    ClaimsReadSnapshots(ctx, ms, ops, i, group, start, end);
    ClaimsReadSnapshots(ctx, ms, ops, j, group, start, end);
    GroupSnapshotStands(ctx, ms, ops, i, j, start, end);
  }

  /** Over any run with unique step ids, they read the same inputs exactly when no step with an id from outside the
      stretch submitted between the two claims. */
  lemma MembersReadTheSame(
      ctx: Context, ms: seq<Machine>, ops: seq<Op>, i: nat, j: nat, group: string, start: nat, end: nat)
    requires Rooted(ctx) && Run(ctx, ms, ops) && Coherent(ctx, ms[0])
    requires Identified(ctx, ops) && KnownActive(ctx, ms[0])
    requires IsRun(ctx.steps, group, start, end) && group != ""
    requires SameIteration(ops, i, j) && j < |ops| && ops[i].Claim? && ops[j].Claim?
    requires start <= ops[i].order < end && start <= ops[j].order < end
    ensures ServedAt(ctx, ms, ops, i) == ServedAt(ctx, ms, ops, j) <==>
      forall k :: i <= k < j && ops[k].Submit? ==> !Foreign(ctx, ms[k], start, end)
  {
    hide Coherent, ServedAt, Foreign, FromStretch, Identified, KnownActive;
    if forall k :: i <= k < j && ops[k].Submit? ==> !Foreign(ctx, ms[k], start, end) {
      forall k | i <= k < j && ops[k].Submit? ensures FromStretch(ctx, ms[k], start, end) {
        RunKnowsActive(ctx, ms, ops, k);
        assert Step(ctx, ms[k], ops[k], ms[k + 1]);
        IdsTellSteps(ctx, ms[k], ops, start, end);
      }
      MembersOnlyReadTheSame(ctx, ms, ops, i, j, group, start, end);
    } else {
      ClaimsReadSnapshots(ctx, ms, ops, i, group, start, end);
      ClaimsReadSnapshots(ctx, ms, ops, j, group, start, end);
      HandoffsGrow(ctx, ms, ops, i, j, start, end);
      assert |Handed(Afresh(ctx, ms[i].live, start, end)).handoffs| == HandoffsRead(ctx, ms[i].live, start, end);
      assert |Handed(Afresh(ctx, ms[j].live, start, end)).handoffs| == HandoffsRead(ctx, ms[j].live, start, end);
    }
  }

  // ----- Claims in workflow order -----

  /** Steps are claimed at the step index; control steps and the next iteration follow the last step. */
  predicate InOrder(ctx: Context, m: Machine, op: Op) {
    match op
    case Claim(order) => order == m.next
    case ClaimControl(_, _) => m.next == |ctx.steps|
    case NextIteration => m.next == |ctx.steps|
    case _ => true
  }

  ghost predicate InOrderRun(ctx: Context, ms: seq<Machine>, ops: seq<Op>)
    requires Rooted(ctx)
  {
    && Run(ctx, ms, ops)
    && AtIndex(ctx, ms[0])
    && (forall k {:trigger ops[k]} :: 0 <= k < |ops| ==> InOrder(ctx, ms[k], ops[k]))
  }

  /** The claimed step is the one at the step index. */
  ghost predicate AtIndex(ctx: Context, m: Machine) {
    && m.next <= |ctx.steps|
    && (m.active.Some? ==>
          var a := m.active.value;
          if a.control then m.next == |ctx.steps|
          else a.order == m.next < |ctx.steps| && ctx.steps[a.order] == a.step)
  }

  lemma {:induction false} RunAtIndex(ctx: Context, ms: seq<Machine>, ops: seq<Op>, n: nat)
    requires Rooted(ctx) && InOrderRun(ctx, ms, ops) && n <= |ops|
    ensures AtIndex(ctx, ms[n])
  {
    if n > 0 {
      RunAtIndex(ctx, ms, ops, n - 1);
      assert Step(ctx, ms[n - 1], ops[n - 1], ms[n]);
    }
  }

  lemma {:induction false} IndexClimbs(ctx: Context, ms: seq<Machine>, ops: seq<Op>, i: nat, n: nat)
    requires Rooted(ctx) && InOrderRun(ctx, ms, ops) && SameIteration(ops, i, n)
    ensures ms[i].next <= ms[n].next
    decreases n - i
  {
    if i < n {
      RunAtIndex(ctx, ms, ops, i);
      assert Step(ctx, ms[i], ops[i], ms[i + 1]);
      IndexClimbs(ctx, ms, ops, i + 1, n);
    }
  }

  /** In workflow order only members submit between the claims of two members, so all of them read the same. */
  lemma MembersReadTheSameInOrder(
      ctx: Context, ms: seq<Machine>, ops: seq<Op>, i: nat, j: nat, group: string, start: nat, end: nat)
    requires Rooted(ctx) && InOrderRun(ctx, ms, ops) && Coherent(ctx, ms[0])
    requires IsRun(ctx.steps, group, start, end) && group != ""
    requires SameIteration(ops, i, j) && j < |ops| && ops[i].Claim? && ops[j].Claim?
    requires start <= ops[i].order < end && start <= ops[j].order < end
    ensures ServedAt(ctx, ms, ops, i) == ServedAt(ctx, ms, ops, j)
  {
    hide Coherent, ServedAt;
    forall k | i <= k < j && ops[k].Submit? ensures FromStretch(ctx, ms[k], start, end) {
      assert Step(ctx, ms[k], ops[k], ms[k + 1]);
      RunAtIndex(ctx, ms, ops, k);
      IndexClimbs(ctx, ms, ops, i, k);
      IndexClimbs(ctx, ms, ops, k, j);
      assert ctx.steps[ms[k].next] == ms[k].active.value.step;
    }
    MembersOnlyReadTheSame(ctx, ms, ops, i, j, group, start, end);
  }
}

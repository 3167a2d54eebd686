/** The run state, field by field, as claims and submits update it. */
module ClaimState {
  import opened Options
  import opened ParallelGroups
  import opened GroupSnapshots
  import opened ClaimInputs

  class RunState {
    const ctx: Context
    var iter: nat
    var byStep: map<string, Output>
    var byRole: map<string, Output>
    var byArchetype: map<string, Output>
    var handoffs: seq<Handoff>
    var ledger: seq<Evidence>
    var snapshot: Option<Snapshot>
    var active: Option<Active>
    var stepIndex: nat

    ghost function View(): Machine
      reads this
    {
      Machine(Live(iter, byStep, byRole, byArchetype, handoffs, ledger), snapshot, active, stepIndex)
    }

    constructor (ctx: Context)
      requires Rooted(ctx)
      ensures this.ctx == ctx && View() == Machine(Live(0, map[], map[], map[], [], []), None, None, 0)
      ensures Coherent(ctx, View()) && AtIndex(ctx, View())
    {
      this.ctx := ctx;
      iter, byStep, byRole, byArchetype, handoffs, ledger := 0, map[], map[], map[], [], [];
      snapshot, active, stepIndex := None, None, 0;
    }

    /** The cached snapshot if it is this iteration's and this run's, else a new one, which is cached. */
    method GroupSnapshot(order: nat, group: string) returns (s: Snapshot)
      requires Rooted(ctx) && order < |ctx.steps| && ctx.steps[order].group == group
      modifies this`snapshot
      ensures s == SnapshotFor(ctx, old(View()), order) && snapshot == Some(s)
      ensures Coherent(ctx, old(View())) ==> ReadsAround(ctx, old(View()).live, order, Handed(s))
    {
      if Coherent(ctx, View()) {
        ServedAround(ctx, View(), order);
      }
      hide Coherent, ReadsAround;
      var start, end, ids := Bounds(ctx.steps, order, group);
      RunIsMaximal(ctx.steps, order);
      if CacheHit(snapshot, iter, group, start, end) {
        return snapshot.value;
      }
      var idSet := IdSet(ctx.steps, start, end);
      var roles := GroupRoles(ctx, start, end);
      s := Snapshot(
        iter, group, start, end, ids,
        byStep - idSet,
        byRole - RoleNames(ctx, roles),
        byArchetype - Archetypes(roles),
        HandoffsOutside(handoffs, idSet),
        EvidenceOutside(ledger, iter, idSet));
      snapshot := Some(s);
    }

    method ClaimInputs(step: Step, order: nat) returns (inputs: Inputs)
      requires Rooted(ctx) && (step.group != "" ==> order < |ctx.steps| && ctx.steps[order] == step)
      modifies this`snapshot
      ensures inputs == Served(ctx, old(View()), step, order)
      ensures View() == Claimed(ctx, old(View()), step, order, false).(active := old(active))
      ensures step.group == "" ==> ReadsLive(old(View()).live, inputs)
      ensures step.group != "" && Coherent(ctx, old(View())) ==> ReadsAround(ctx, old(View()).live, order, inputs)
    {
      hide Coherent, ReadsAround;
      if step.group == "" {
        snapshot := None;
        return Inputs(byStep, byRole, byArchetype, handoffs, None);
      }
      var s := GroupSnapshot(order, step.group);
      inputs := Handed(s);
    }

    /** A strategy step is claimed, or a control step after the last one. */
    method Claim(step: Step, order: nat, control: bool) returns (inputs: Inputs)
      requires Rooted(ctx) && (step.group != "" ==> order < |ctx.steps| && ctx.steps[order] == step)
      modifies this`snapshot, this`active
      ensures inputs == Served(ctx, old(View()), step, order)
      ensures View() == Claimed(ctx, old(View()), step, order, control)
      ensures step.group == "" ==> ReadsLive(old(View()).live, inputs)
      ensures step.group != "" && Coherent(ctx, old(View())) ==> ReadsAround(ctx, old(View()).live, order, inputs)
    {
      hide Coherent, ReadsAround;
      inputs := ClaimInputs(step, order);
      active := Some(Active(step, order, control));
    }

    method UpdateSnapshotAfterSubmit(step: Step, order: nat)
      modifies this`snapshot
      ensures snapshot == CacheAfterSubmit(ctx, old(snapshot), step, order)
    {
      if step.group == "" {
        snapshot := None;
        return;
      }
      if order + 1 < |ctx.steps| && ctx.steps[order + 1].group == step.group {
        return;
      }
      snapshot := None;
    }

    /** Files the submitted output under the step, its role, runtime role and archetype. */
    method Submit(output: Output, handoff: string, evidence: string)
      requires Rooted(ctx) && active.Some? && active.value.step.roleId in ctx.roles
      modifies this
      ensures View() == Apply(ctx, old(View()), Op.Submit(output, handoff, evidence))
    {
      var a := active.value;
      var role := ctx.roles[a.step.roleId];
      var runtimeRole := ctx.runtimeRole(role);
      ledger := ledger + [Entry(iter, a.step.id, evidence)];
      byStep := byStep[a.step.id := output];
      byRole := byRole[role.id := output];
      if runtimeRole != role.id {
        byRole := byRole[runtimeRole := output];
      }
      assert byRole == old(byRole)[role.id := output][runtimeRole := output];
      byArchetype := byArchetype[role.archetype := output];
      handoffs := handoffs + [Handoff(a.step.id, handoff)];
      active := None;
      if a.control {
        stepIndex := |ctx.steps|;
      } else {
        stepIndex := a.order + 1;
        UpdateSnapshotAfterSubmit(a.step, a.order);
      }
    }

    method NextIteration()
      requires Rooted(ctx) && active.None?
      modifies this
      ensures View() == Apply(ctx, old(View()), Op.NextIteration)
    {
      iter := iter + 1;
      byStep, byRole, byArchetype, handoffs := map[], map[], map[], [];
      snapshot, active, stepIndex := None, None, 0;
    }
  }
}

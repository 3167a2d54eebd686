/** Contiguous runs of steps that share a parallel group, and the events that open and close them. */
module ParallelGroups {
  import opened Options

  /** A strategy step; `group` is the trimmed group name, empty when there is none. */
  datatype Step = Step(id: string, roleId: string, group: string)

  /** start..end is the longest stretch of steps of `group` around `order`. */
  ghost predicate IsRun(steps: seq<Step>, group: string, start: nat, end: nat) {
    && start < end <= |steps|
    && (forall i :: start <= i < end ==> steps[i].group == group)
    && (start > 0 ==> steps[start - 1].group != group)
    && (end < |steps| ==> steps[end].group != group)
  }

  /** The first of the steps of `group` that lie directly before `order`, or `order` itself. */
  function StartOf(steps: seq<Step>, order: nat, group: string): (s: nat)
    requires order < |steps|
    ensures s <= order
  {
    if order > 0 && steps[order - 1].group == group then StartOf(steps, order - 1, group) else order
  }

  /** The end of the steps of `group` that begin at `end`. */
  function EndOf(steps: seq<Step>, end: nat, group: string): (e: nat)
    requires end <= |steps|
    ensures end <= e <= |steps|
    decreases |steps| - end
  {
    if end < |steps| && steps[end].group == group then EndOf(steps, end + 1, group) else end
  }

  function RunStart(steps: seq<Step>, order: nat): (s: nat)
    requires order < |steps|
    ensures s <= order
  {
    StartOf(steps, order, steps[order].group)
  }

  function RunEnd(steps: seq<Step>, order: nat): (e: nat)
    requires order < |steps|
    ensures order < e <= |steps|
  {
    EndOf(steps, order + 1, steps[order].group)
  }

  function Ids(steps: seq<Step>): (ids: seq<string>)
    ensures |ids| == |steps| && forall i :: 0 <= i < |ids| ==> ids[i] == steps[i].id
  {
    seq(|steps|, i requires 0 <= i < |steps| => steps[i].id)
  }

  lemma {:induction false} StartOfFacts(steps: seq<Step>, order: nat, group: string)
    requires order < |steps|
    ensures var s := StartOf(steps, order, group);
      && (forall i :: s <= i < order ==> steps[i].group == group)
      && (s > 0 ==> steps[s - 1].group != group)
  {
    if order > 0 && steps[order - 1].group == group {
      StartOfFacts(steps, order - 1, group);
    }
  }

  lemma {:induction false} EndOfFacts(steps: seq<Step>, end: nat, group: string)
    requires end <= |steps|
    ensures var e := EndOf(steps, end, group);
      && (forall i :: end <= i < e ==> steps[i].group == group)
      && (e < |steps| ==> steps[e].group != group)
    decreases |steps| - end
  {
    if end < |steps| && steps[end].group == group {
      EndOfFacts(steps, end + 1, group);
    }
  }

  lemma RunIsMaximal(steps: seq<Step>, order: nat)
    requires order < |steps|
    ensures IsRun(steps, steps[order].group, RunStart(steps, order), RunEnd(steps, order))
  {
    StartOfFacts(steps, order, steps[order].group);
    EndOfFacts(steps, order + 1, steps[order].group);
  }

  /** A maximal run is the one computed from any of its members, so all members see the same bounds. */
  lemma RunIsUnique(steps: seq<Step>, group: string, start: nat, end: nat, order: nat)
    requires IsRun(steps, group, start, end) && start <= order < end
    ensures RunStart(steps, order) == start && RunEnd(steps, order) == end
  {
    RunIsMaximal(steps, order);
    var s, e := RunStart(steps, order), RunEnd(steps, order);
    assert !(s < start <= order) && !(start < s) && !(order < e < end) && !(end < e);
  }

  /** Looks for `group` on both sides of `order`, whatever group the step at `order` has. */
  method Bounds(steps: seq<Step>, order: nat, group: string) returns (start: nat, end: nat, ids: seq<string>)
    requires order < |steps|
    ensures start == StartOf(steps, order, group) && end == EndOf(steps, order + 1, group)
    ensures ids == Ids(steps[start..end])
  {
    start := order;
    while start > 0 && steps[start - 1].group == group
      invariant start <= order && StartOf(steps, start, group) == StartOf(steps, order, group)
    {
      start := start - 1;
    }
    end := order + 1;
    while end < |steps| && steps[end].group == group
      invariant order < end <= |steps| && EndOf(steps, end, group) == EndOf(steps, order + 1, group)
    {
      end := end + 1;
    }
    ids := Ids(steps[start..end]);
  }

  // ----- Started and finished events -----

  datatype Payload = Payload(iter: nat, group: string, orders: seq<nat>, ids: seq<string>)

  function RunPayload(steps: seq<Step>, iter: nat, group: string, start: nat, end: nat): Payload
    requires start < end <= |steps|
  {
    Payload(iter, group, seq(end - start, i requires 0 <= i => start + i), Ids(steps[start..end]))
  }

  method EventPayload(steps: seq<Step>, iter: nat, order: nat, group: string) returns (p: Payload)
    requires order < |steps|
    ensures p == RunPayload(steps, iter, group, StartOf(steps, order, group), EndOf(steps, order + 1, group))
  {
    var start, end, ids := Bounds(steps, order, group);
    p := Payload(iter, group, seq(|ids|, i requires 0 <= i => start + i), ids);
  }

  function StartedAt(steps: seq<Step>, iter: nat, order: nat): Option<Payload>
    requires order < |steps|
  {
    if steps[order].group != "" && order == RunStart(steps, order)
    then Some(RunPayload(steps, iter, steps[order].group, order, RunEnd(steps, order)))
    else None
  }

  function FinishedAt(steps: seq<Step>, iter: nat, order: nat): Option<Payload>
    requires order < |steps|
  {
    if steps[order].group != "" && order + 1 == RunEnd(steps, order)
    then Some(RunPayload(steps, iter, steps[order].group, RunStart(steps, order), order + 1))
    else None
  }

  method StartedPayload(steps: seq<Step>, iter: nat, step: Step, order: nat) returns (p: Option<Payload>)
    requires order < |steps| && steps[order] == step
    ensures p == StartedAt(steps, iter, order)
  {
    if step.group == "" {
      return None;
    }
    var start, _, _ := Bounds(steps, order, step.group);
    if order != start {
      return None;
    }
    var payload := EventPayload(steps, iter, order, step.group);
    p := Some(payload);
  }

  method FinishedPayload(steps: seq<Step>, iter: nat, step: Step, order: nat) returns (p: Option<Payload>)
    requires order < |steps| && steps[order] == step
    ensures p == FinishedAt(steps, iter, order)
  {
    if step.group == "" {
      return None;
    }
    if order + 1 < |steps| && steps[order + 1].group == step.group {
      return None;
    }
    var payload := EventPayload(steps, iter, order, step.group);
    p := Some(payload);
  }

  /** A step announces a start exactly when it has a group that the step before it has not, and an end exactly when
      it has one that the step after it has not; a step without group announces nothing. */
  lemma AnnouncedWhen(steps: seq<Step>, iter: nat, order: nat)
    requires order < |steps|
    ensures StartedAt(steps, iter, order).Some? <==>
      steps[order].group != "" && (order > 0 ==> steps[order - 1].group != steps[order].group)
    ensures FinishedAt(steps, iter, order).Some? <==>
      steps[order].group != "" && (order + 1 < |steps| ==> steps[order + 1].group != steps[order].group)
  {
    RunIsMaximal(steps, order);
  }

  /** Of all the steps of a run only the first announces its start and only the last its end, with
      one and the same payload: the positions and ids of the whole run. */
  lemma OneStartOneFinish(steps: seq<Step>, iter: nat, group: string, start: nat, end: nat)
    requires IsRun(steps, group, start, end) && group != ""
    ensures forall k :: start <= k < end ==> (StartedAt(steps, iter, k).Some? <==> k == start)
    ensures forall k :: start <= k < end ==> (FinishedAt(steps, iter, k).Some? <==> k == end - 1)
    ensures StartedAt(steps, iter, start) == FinishedAt(steps, iter, end - 1)
    ensures var p := StartedAt(steps, iter, start).value;
      p.iter == iter && p.group == group && |p.orders| == |p.ids| == end - start
      && forall i :: 0 <= i < end - start ==> p.orders[i] == start + i && p.ids[i] == steps[start + i].id
  {
    forall k | start <= k < end ensures RunStart(steps, k) == start && RunEnd(steps, k) == end {
      RunIsUnique(steps, group, start, end, k);
    }
  }
}

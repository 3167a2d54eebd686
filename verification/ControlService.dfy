/** What becomes of triggered controls: each is served and completed, in order, before its iteration ends. */
module ControlService {
  import opened Options
  import opened ControlQueue

  /** A control and the iteration it was triggered in. */
  datatype Call = Call(iter: nat, id: string)

  function TriggeredCalls(events: seq<Event>): seq<Call> {
    if events == [] then []
    else
      var last := events[|events| - 1];
      TriggeredCalls(events[..|events| - 1]) + if last.kind == Triggered then [Call(last.iter, last.id)] else []
  }

  function Calls(entries: seq<Entry>): (r: seq<Call>)
    ensures |r| == |entries| && forall k :: 0 <= k < |r| ==> r[k] == Call(entries[k].iter, entries[k].control.id)
  {
    seq(|entries|, k requires 0 <= k < |entries| => Call(entries[k].iter, entries[k].control.id))
  }

  /** The entries of the slots from `index` on. */
  function Waiting(queue: seq<Option<Entry>>, index: nat): seq<Entry>
    decreases |queue| - index
  {
    if index >= |queue| then []
    else if queue[index].None? then Waiting(queue, index + 1)
    else [queue[index].value] + Waiting(queue, index + 1)
  }

  /** What was triggered so far has been completed, or waits in the queue, in the order of triggering. */
  ghost predicate Conserved(s: RunState) {
    && TriggeredCalls(s.events) == Calls(s.completed + Waiting(s.queue, s.index))
    && (s.active.Some? ==> s.index < |s.queue| && s.queue[s.index] == s.active)
  }

  lemma {:induction false} SkipKeepsWaiting(queue: seq<Option<Entry>>, index: nat)
    ensures var k := Skip(queue, index);
      && Waiting(queue, k) == Waiting(queue, index)
      && (k < |queue| ==> queue[k].Some?)
      && (k >= |queue| ==> Waiting(queue, index) == [])
    decreases |queue| - index
  {
    if index < |queue| && queue[index].None? {
      SkipKeepsWaiting(queue, index + 1);
    }
  }

  lemma {:induction false} SkipIs(queue: seq<Option<Entry>>, index: nat)
    ensures var k := Skip(queue, index);
      && (index <= |queue| ==> k <= |queue|)
      && (forall i :: index <= i < k && i < |queue| ==> queue[i].None?)
      && (k < |queue| ==> queue[k].Some?)
    decreases |queue| - index
  {
    if index < |queue| && queue[index].None? {
      SkipIs(queue, index + 1);
    }
  }

  /** A claim takes the first well-formed entry at or after the index, of the queue that is there or of a new one when
      the iteration has none; if there is no such entry it takes nothing. */
  lemma ClaimsNext(input: Input, s: RunState)
    requires input.controls != []
    ensures var t := if s.queueIter == Some(s.iter) then s else Prepared(input, s);
      var after := Pending(input, s);
      && after.queue == t.queue && after.counts == t.counts && after.events == t.events
      && (after.active.Some? <==> exists k: nat :: t.index <= k < |t.queue| && t.queue[k].Some?)
      && (after.active.Some? ==>
            && t.index <= after.index < |t.queue| && after.active == t.queue[after.index]
            && forall k :: t.index <= k < after.index ==> t.queue[k].None?)
  {
    hide Built, Skip;
    var t := Prepared(input, s);
    SkipIs(t.queue, t.index);
  }

  lemma {:induction false} SlotsWait(entries: seq<Entry>, index: nat)
    requires index <= |entries|
    ensures Waiting(Slots(entries), index) == entries[index..]
    decreases |entries| - index
  {
    if index < |entries| {
      SlotsWait(entries, index + 1);
    }
  }

  lemma ConsiderCalls(o: Occasion, setting: Setting, f: Firing)
    ensures var g := Consider(o, setting, f);
      var fired := if Outcome(o, setting, f.counts) == Triggered then [Call(setting.iter, o.control.id)] else [];
      TriggeredCalls(g.events) == TriggeredCalls(f.events) + fired && Calls(g.queue) == Calls(f.queue) + fired
  {
    hide Outcome;
    var g := Consider(o, setting, f);
    assert g.events[..|f.events|] == f.events && |g.events| == |f.events| + 1;
  }

  lemma {:induction false} BuildCalls(os: seq<Occasion>, setting: Setting, f: Firing)
    requires f.queue == []
    ensures var g := ConsiderAll(os, setting, f); TriggeredCalls(g.events) == TriggeredCalls(f.events) + Calls(g.queue)
  {
    hide Consider, Outcome, TriggeredCalls;
    if os != [] {
      BuildCalls(os[..|os| - 1], setting, f);
      ConsiderCalls(os[|os| - 1], setting, ConsiderAll(os[..|os| - 1], setting, f));
    }
  }

  lemma CallsAppend(a: seq<Entry>, b: seq<Entry>)
    ensures Calls(a + b) == Calls(a) + Calls(b)
  {
  }

  /** Nothing waits when an iteration without a queue begins. */
  ghost predicate Empty(s: RunState) {
    s.queueIter != Some(s.iter) ==> s.queue == []
  }

  lemma PreparedConserves(input: Input, s: RunState)
    requires Conserved(s) && Empty(s) && s.active.None?
    ensures Conserved(Prepared(input, s)) && Empty(Prepared(input, s))
  {
    hide ConsiderAll, Occasions, TriggeredCalls;
    if s.queueIter != Some(s.iter) {
      var f := Built(input, s);
      BuildCalls(
        Occasions(input.controls, Signals(input.rejected, input.stalled), input.clock),
        Setting(s.iter, input.stepCount, input.existing, input.roles), Firing(s.counts, [], s.events));
      SlotsWait(f.queue, 0);
      assert f.queue[0..] == f.queue && s.completed + [] == s.completed;
      CallsAppend(s.completed, f.queue);
    }
  }

  /** A queue is only there for a strategy that has controls. */
  ghost predicate Fitting(controls: seq<Control>, s: RunState) {
    Conserved(s) && Empty(s) && (controls == [] ==> s.queue == [])
  }

  lemma AdvanceConserves(input: Input, s: RunState)
    requires Fitting(input.controls, s)
    ensures Fitting(input.controls, Apply(Advance(input), s))
    ensures var r := Apply(Advance(input), s); r.iter != s.iter ==> TriggeredCalls(r.events) == Calls(r.completed)
  {
    hide TriggeredCalls, Prepared, Waiting;
    if s.active.None? {
      WaitingNothing();
      if input.controls != [] {
        PreparedConserves(input, s);
        var t := Prepared(input, s);
        SkipKeepsWaiting(t.queue, t.index);
        PreparedKeeps(input, s);
        assert t.completed + [] == t.completed;
      }
      assert s.completed + [] == s.completed;
    }
  }

  lemma WaitingNothing()
    ensures forall index: nat :: Waiting([], index) == []
  {
  }

  lemma PreparedKeeps(input: Input, s: RunState)
    ensures var t := Prepared(input, s);
      t.iter == s.iter && t.completed == s.completed && t.active == s.active && t.queueIter == Some(s.iter)
  {
  }

  lemma SubmitConserves(controls: seq<Control>, s: RunState)
    requires Fitting(controls, s)
    ensures Fitting(controls, Apply(SubmitControl, s))
  {
    hide TriggeredCalls;
    if s.active.Some? {
      var rest := Waiting(s.queue, s.index + 1);
      assert Waiting(s.queue, s.index) == [s.active.value] + rest;
      assert s.completed + ([s.active.value] + rest) == s.completed + [s.active.value] + rest;
    }
  }

  /** The strategy's controls do not change during the run. */
  ghost predicate Fixed(ops: seq<Op>, controls: seq<Control>) {
    forall k :: 0 <= k < |ops| && ops[k].Advance? ==> ops[k].input.controls == controls
  }

  lemma {:induction false} RunConserves(ops: seq<Op>, controls: seq<Control>)
    requires Fixed(ops, controls)
    ensures Fitting(controls, Run(ops, FRESH))
  {
    hide Apply, Fitting;
    if ops == [] {
      FreshFits(controls);
    } else {
      var before, last := ops[..|ops| - 1], ops[|ops| - 1];
      RunConserves(before, controls);
      match last
      case Advance(input) => AdvanceConserves(input, Run(before, FRESH));
      case SubmitControl => SubmitConserves(controls, Run(before, FRESH));
    }
  }

  lemma FreshFits(controls: seq<Control>)
    ensures Fitting(controls, FRESH)
  {
    WaitingNothing();
  }

  /** Over every run of claims and submits, whatever was triggered has been completed or still waits, in the order of
      triggering; and when an iteration ends, all of it has been completed, each trigger once. */
  lemma EverythingServed(ops: seq<Op>, controls: seq<Control>, input: Input)
    requires Fixed(ops, controls) && input.controls == controls
    ensures var s := Run(ops, FRESH);
      TriggeredCalls(s.events) == Calls(s.completed) + Calls(Waiting(s.queue, s.index))
    ensures var s, r := Run(ops, FRESH), Apply(Advance(input), Run(ops, FRESH));
      r.iter != s.iter ==> r.iter == s.iter + 1 && TriggeredCalls(r.events) == Calls(r.completed)
  {
    hide TriggeredCalls, Waiting;
    RunConserves(ops, controls);
    var s := Run(ops, FRESH);
    AdvanceConserves(input, s);
    CallsAppend(s.completed, Waiting(s.queue, s.index));
    PreparedKeeps(input, s);
  }
}

/** Controls that fire on iteration signals, how often they may fire, and the queue they are served from. */
module ControlQueue {
  import opened Options

  /** A control with its trimmed ids; `maxFires` is 0 for an explicit zero and 1 when the limit is missing or
      malformed. */
  datatype Control = Control(id: string, signal: string, roleId: string, maxFires: nat, after: real)

  /** A fire count as it may be stored; a stored null counts as missing. */
  datatype Stored = Count(n: int) | Malformed

  datatype Kind = Triggered | SkippedMaxFires | SkippedNotElapsed | Failed

  datatype Event = Event(kind: Kind, iter: nat, id: string, signal: string, roleId: string)

  /** A queued control step, with the iteration its payload names. */
  datatype Entry = Entry(control: Control, signal: string, iter: nat, order: nat)

  /** What stays fixed while one queue is built. */
  datatype Setting = Setting(iter: nat, stepCount: nat, existing: nat, roles: set<string>)

  /** The counts of the run context, the queue under construction, and the run's event log. */
  datatype Firing = Firing(counts: map<string, Stored>, queue: seq<Entry>, events: seq<Event>)

  /** One control considered for one signal, with the time elapsed when it is considered. */
  datatype Occasion = Occasion(control: Control, signal: string, elapsed: real)

  function Limit(control: Control): nat {
    if control.maxFires == 0 then 1 else control.maxFires
  }

  function FireCount(counts: map<string, Stored>, id: string, limit: nat): nat {
    if id !in counts then 0
    else if counts[id].Count? && counts[id].n >= 0 then counts[id].n
    else limit
  }

  // ----- Which controls are considered -----

  const REJECTED := "gatekeeper_rejected"
  const NO_PROGRESS := "no_evidence_progress"

  function Signals(rejected: bool, stalled: bool): seq<string> {
    (if rejected then [REJECTED] else []) + (if stalled then [NO_PROGRESS] else [])
  }

  function Matching(controls: seq<Control>, signal: string): seq<Control> {
    if controls == [] then []
    else
      var last := controls[|controls| - 1];
      Matching(controls[..|controls| - 1], signal) + if last.signal == signal then [last] else []
  }

  /** `clock` gives the elapsed time at the k-th consideration of the build. */
  function OccasionsFor(controls: seq<Control>, signal: string, clock: nat -> real, start: nat): (r: seq<Occasion>)
    ensures |r| == |controls|
    ensures forall k :: 0 <= k < |r| ==> r[k] == Occasion(controls[k], signal, clock(start + k))
  {
    seq(|controls|, k requires 0 <= k < |controls| => Occasion(controls[k], signal, clock(start + k)))
  }

  function Occasions(controls: seq<Control>, signals: seq<string>, clock: nat -> real): seq<Occasion> {
    if signals == [] then []
    else
      var before, last := Occasions(controls, signals[..|signals| - 1], clock), signals[|signals| - 1];
      before + OccasionsFor(Matching(controls, last), last, clock, |before|)
  }

  // ----- What one consideration does -----

  function Outcome(o: Occasion, setting: Setting, counts: map<string, Stored>): Kind {
    if FireCount(counts, o.control.id, Limit(o.control)) >= Limit(o.control) then SkippedMaxFires
    else if o.elapsed < o.control.after then SkippedNotElapsed
    else if o.control.roleId !in setting.roles then Failed
    else Triggered
  }

  function Consider(o: Occasion, setting: Setting, f: Firing): Firing {
    var kind := Outcome(o, setting, f.counts);
    var event := Event(kind, setting.iter, o.control.id, o.signal, o.control.roleId);
    if kind == Triggered then
      Firing(
        f.counts[o.control.id := Count(FireCount(f.counts, o.control.id, Limit(o.control)) + 1)],
        f.queue + [Entry(o.control, o.signal, setting.iter, setting.stepCount + 100 + setting.existing + |f.queue|)],
        f.events + [event])
    else f.(events := f.events + [event])
  }

  function ConsiderAll(os: seq<Occasion>, setting: Setting, f: Firing): Firing {
    if os == [] then f
    else Consider(os[|os| - 1], setting, ConsiderAll(os[..|os| - 1], setting, f))
  }

  lemma {:induction false} ConsiderAppend(a: seq<Occasion>, b: seq<Occasion>, setting: Setting, f: Firing)
    ensures ConsiderAll(a + b, setting, f) == ConsiderAll(b, setting, ConsiderAll(a, setting, f))
  {
    hide Consider;
    if b == [] {
      assert a + b == a;
    } else {
      ConsiderAppend(a, b[..|b| - 1], setting, f);
      assert (a + b)[..|a + b| - 1] == a + b[..|b| - 1];
    }
  }

  // ----- The run state -----

  /** The controls and the clock as one claim finds them. */
  datatype Input = Input(
    controls: seq<Control>,
    stepCount: nat,
    existing: nat,
    roles: set<string>,
    rejected: bool,
    stalled: bool,
    clock: nat -> real)

  /** A slot of the stored queue is None when its step or its order is malformed. `active` is the control step that is
      claimed and not yet submitted; `completed` lists the submitted ones. */
  datatype RunState = RunState(
    iter: nat,
    counts: map<string, Stored>,
    queue: seq<Option<Entry>>,
    index: nat,
    queueIter: Option<nat>,
    active: Option<Entry>,
    completed: seq<Entry>,
    events: seq<Event>)

  const FRESH := RunState(0, map[], [], 0, None, None, [], [])

  function Built(input: Input, s: RunState): Firing {
    ConsiderAll(
      Occasions(input.controls, Signals(input.rejected, input.stalled), input.clock),
      Setting(s.iter, input.stepCount, input.existing, input.roles),
      Firing(s.counts, [], s.events))
  }

  function Slots(queue: seq<Entry>): (r: seq<Option<Entry>>)
    ensures |r| == |queue| && forall k :: 0 <= k < |r| ==> r[k] == Some(queue[k])
  {
    seq(|queue|, k requires 0 <= k < |queue| => Some(queue[k]))
  }

  /** The first slot from `index` on that is not malformed. */
  function Skip(queue: seq<Option<Entry>>, index: nat): (r: nat)
    ensures index <= r
    decreases |queue| - index
  {
    if index < |queue| && queue[index].None? then Skip(queue, index + 1) else index
  }

  /** The state once the iteration's queue is there. */
  function Prepared(input: Input, s: RunState): RunState {
    if s.queueIter == Some(s.iter) then s
    else
      var f := Built(input, s);
      s.(counts := f.counts, queue := Slots(f.queue), index := 0, queueIter := Some(s.iter), events := f.events)
  }

  /** The pending control step is claimed, if there is one. */
  function Pending(input: Input, s: RunState): RunState {
    if input.controls == [] then s
    else
      var t := Prepared(input, s);
      var index := Skip(t.queue, t.index);
      t.(index := index, active := if index < |t.queue| then t.queue[index] else None)
  }

  function NextIteration(s: RunState): RunState {
    s.(iter := s.iter + 1, queue := [], index := 0, queueIter := None, active := None)
  }

  /** After the last strategy step a claim serves the pending control step or moves to the next iteration; while a
      control step is claimed it is served again. */
  datatype Op = Advance(input: Input) | SubmitControl

  function Apply(op: Op, s: RunState): RunState {
    match op
    case Advance(input) =>
      if s.active.Some? then s
      else
        var t := Pending(input, s);
        if t.active.Some? then t else NextIteration(t)
    case SubmitControl =>
      if s.active.None? then s
      else s.(index := s.index + 1, completed := s.completed + [s.active.value], active := None)
  }

  function Run(ops: seq<Op>, s: RunState): RunState {
    if ops == [] then s else Apply(ops[|ops| - 1], Run(ops[..|ops| - 1], s))
  }

  // ----- The same in place -----

  class ControlRun {
    var iter: nat
    /** The counts of the run context; the state file's copy is `savedCounts`. */
    var counts: map<string, Stored>
    var savedCounts: map<string, Stored>
    var queue: seq<Option<Entry>>
    var index: nat
    var queueIter: Option<nat>
    var active: Option<Entry>
    var completed: seq<Entry>
    var events: seq<Event>

    constructor ()
      ensures State() == FRESH
    {
      iter, savedCounts, queue, index, queueIter, active, completed, events := 0, map[], [], 0, None, None, [], [];
    }

    /** What is on disk between two calls. */
    ghost function State(): RunState
      reads this
    {
      RunState(iter, savedCounts, queue, index, queueIter, active, completed, events)
    }

    method AppendControls(
      matching: seq<Control>, signal: string, setting: Setting, clock: nat -> real, start: nat, queued: seq<Entry>)
      returns (longer: seq<Entry>)
      modifies this`counts, this`events
      ensures Firing(counts, longer, events) ==
        ConsiderAll(OccasionsFor(matching, signal, clock, start), setting, old(Firing(counts, queued, events)))
    {
      longer := queued;
      ghost var os := OccasionsFor(matching, signal, clock, start);
      for k := 0 to |matching|
        invariant Firing(counts, longer, events) == ConsiderAll(os[..k], setting, old(Firing(counts, queued, events)))
      {
        assert os[..k + 1][..k] == os[..k];
        var control, elapsed := matching[k], clock(start + k);
        var fired := FireCount(counts, control.id, Limit(control));
        if fired >= Limit(control) {
          events := events + [Event(SkippedMaxFires, setting.iter, control.id, signal, control.roleId)];
        } else if elapsed < control.after {
          events := events + [Event(SkippedNotElapsed, setting.iter, control.id, signal, control.roleId)];
        } else if control.roleId !in setting.roles {
          events := events + [Event(Failed, setting.iter, control.id, signal, control.roleId)];
        } else {
          counts := counts[control.id := Count(fired + 1)];
          var existing := setting.existing + |longer|;
          events := events + [Event(Triggered, setting.iter, control.id, signal, control.roleId)];
          longer := longer + [Entry(control, signal, setting.iter, setting.stepCount + 100 + existing)];
        }
      }
      assert os[..|matching|] == os;
    }

    method BuildQueue(input: Input) returns (built: seq<Entry>)
      modifies this`counts, this`savedCounts, this`events
      ensures Firing(counts, built, events) ==
        ConsiderAll(
          Occasions(input.controls, Signals(input.rejected, input.stalled), input.clock),
          Setting(iter, input.stepCount, input.existing, input.roles),
          old(Firing(counts, [], events)))
      ensures savedCounts == counts
    {
      var signals := Signals(input.rejected, input.stalled);
      var setting := Setting(iter, input.stepCount, input.existing, input.roles);
      built := [];
      var considered := 0;
      for k := 0 to |signals|
        invariant considered == |Occasions(input.controls, signals[..k], input.clock)|
        invariant Firing(counts, built, events) ==
          ConsiderAll(Occasions(input.controls, signals[..k], input.clock), setting, old(Firing(counts, [], events)))
      {
        assert signals[..k + 1][..k] == signals[..k];
        var matching := Matching(input.controls, signals[k]);
        ConsiderAppend(
          Occasions(input.controls, signals[..k], input.clock),
          OccasionsFor(matching, signals[k], input.clock, considered), setting, old(Firing(counts, [], events)));
        built := AppendControls(matching, signals[k], setting, input.clock, considered, built);
        considered := considered + |matching|;
      }
      assert signals[..|signals|] == signals;
      savedCounts := counts;
    }

    /** Builds the queue once per iteration and claims its next well-formed entry. */
    method ClaimPending(input: Input) returns (entry: Option<Entry>)
      requires active.None?
      modifies this
      ensures State() == Pending(input, old(State())) && entry == active
    {
      counts := savedCounts;
      if input.controls == [] {
        return None;
      }
      if queueIter != Some(iter) {
        var built := BuildQueue(input);
        queue := Slots(built);
        index := 0;
        queueIter := Some(iter);
      }
      ghost var start := index;
      while index < |queue| && queue[index].None?
        invariant Skip(queue, index) == Skip(queue, start)
        invariant queue == Prepared(input, old(State())).queue && start == Prepared(input, old(State())).index
        invariant State() == Prepared(input, old(State())).(index := index)
      {
        index := index + 1;
      }
      if index < |queue| {
        active := queue[index];
      }
      entry := active;
    }

    method FinishIterationOrAdvance(input: Input) returns (entry: Option<Entry>)
      modifies this
      ensures State() == Apply(Advance(input), old(State())) && entry == active
    {
      if active.Some? {
        return active;
      }
      entry := ClaimPending(input);
      if entry.None? {
        iter, queue, index, queueIter := iter + 1, [], 0, None;
      }
    }

    method CompleteControl()
      modifies this
      ensures State() == Apply(SubmitControl, old(State()))
    {
      if active.Some? {
        completed := completed + [active.value];
        active := None;
        index := index + 1;
      }
    }
  }
}

/** Bounds on control firing over whole runs, and what each build of the queue reports and orders. */
module ControlLimits {
  import opened Options
  import opened ControlQueue

  // ----- One build: events and queue -----

  /** The event is about the occasion, and its kind is true of it: only a control whose delay has passed and whose role
      is known triggers, one with an unknown role fails, and one before its delay is skipped. */
  predicate Reports(e: Event, o: Occasion, setting: Setting) {
    && e.iter == setting.iter && e.id == o.control.id && e.signal == o.signal && e.roleId == o.control.roleId
    && (e.kind == Triggered ==> o.elapsed >= o.control.after && o.control.roleId in setting.roles)
    && (e.kind == Failed ==> o.elapsed >= o.control.after && o.control.roleId !in setting.roles)
    && (e.kind == SkippedNotElapsed ==> o.elapsed < o.control.after)
  }

  /** Each consideration is reported by one event, in order, after the events there were. */
  lemma {:induction false} OneEventEach(os: seq<Occasion>, setting: Setting, f: Firing)
    ensures var g := ConsiderAll(os, setting, f);
      && |g.events| == |f.events| + |os|
      && g.events[..|f.events|] == f.events
      && forall k :: 0 <= k < |os| ==> Reports(g.events[|f.events| + k], os[k], setting)
  {
    hide Outcome, Reports;
    if os != [] {
      var n := |os| - 1;
      OneEventEach(os[..n], setting, f);
      var g, h := ConsiderAll(os[..n], setting, f), ConsiderAll(os, setting, f);
      ConsiderReports(os[n], setting, g);
      forall k | 0 <= k < n ensures Reports(h.events[|f.events| + k], os[k], setting) {
        assert os[..n][k] == os[k];
      }
    }
  }

  lemma ConsiderReports(o: Occasion, setting: Setting, f: Firing)
    ensures var g := Consider(o, setting, f);
      |g.events| == |f.events| + 1 && g.events[..|f.events|] == f.events && Reports(g.events[|f.events|], o, setting)
  {
  }

  function TriggeredIds(events: seq<Event>): seq<string> {
    if events == [] then []
    else
      var last := events[|events| - 1];
      TriggeredIds(events[..|events| - 1]) + if last.kind == Triggered then [last.id] else []
  }

  function QueuedIds(queue: seq<Entry>): seq<string> {
    if queue == [] then [] else QueuedIds(queue[..|queue| - 1]) + [queue[|queue| - 1].control.id]
  }

  function QueueEntry(o: Occasion, setting: Setting, length: nat): Entry {
    Entry(o.control, o.signal, setting.iter, setting.stepCount + 100 + setting.existing + length)
  }

  lemma ConsiderQueues(o: Occasion, setting: Setting, f: Firing)
    ensures var g := Consider(o, setting, f);
      var fired := if Outcome(o, setting, f.counts) == Triggered then [o.control.id] else [];
      && TriggeredIds(g.events) == TriggeredIds(f.events) + fired
      && QueuedIds(g.queue) == QueuedIds(f.queue) + fired
      && (g.queue == f.queue || g.queue == f.queue + [QueueEntry(o, setting, |f.queue|)])
  {
    var g := Consider(o, setting, f);
    assert g.events[..|f.events|] == f.events && |g.events| == |f.events| + 1;
    assert g.queue != f.queue ==> g.queue[..|f.queue|] == f.queue && |g.queue| == |f.queue| + 1;
  }

  /** Entries are of the iteration, and their order numbers count up by one from a hundred past the strategy steps. */
  ghost predicate Numbered(queue: seq<Entry>, setting: Setting) {
    forall k :: 0 <= k < |queue| ==>
      queue[k].order == setting.stepCount + 100 + setting.existing + k && queue[k].iter == setting.iter
  }

  lemma NoneNumbered(setting: Setting)
    ensures Numbered([], setting)
  {
  }

  lemma NumberedNext(queue: seq<Entry>, o: Occasion, setting: Setting)
    requires Numbered(queue, setting)
    ensures Numbered(queue + [QueueEntry(o, setting, |queue|)], setting)
  {
  }

  /** What was triggered in a build, and nothing else, is in the queue, in order. */
  lemma {:induction false} QueueHoldsTriggered(os: seq<Occasion>, setting: Setting, f: Firing)
    requires f.queue == []
    ensures var g := ConsiderAll(os, setting, f);
      && TriggeredIds(g.events) == TriggeredIds(f.events) + QueuedIds(g.queue)
      && Numbered(g.queue, setting)
  {
    hide Consider, Outcome, TriggeredIds, Numbered;
    if os == [] {
      NoneNumbered(setting);
    } else {
      var n := |os| - 1;
      QueueHoldsTriggered(os[..n], setting, f);
      var g := ConsiderAll(os[..n], setting, f);
      ConsiderQueues(os[n], setting, g);
      NumberedNext(g.queue, os[n], setting);
    }
  }

  // ----- Counting -----

  function Triggers(events: seq<Event>, id: string): nat {
    if events == [] then 0
    else
      var last := events[|events| - 1];
      Triggers(events[..|events| - 1], id) + if last.kind == Triggered && last.id == id then 1 else 0
  }

  function Max(a: int, b: int): int { if a < b then b else a }

  function Min(a: int, b: int): int { if a < b then a else b }

  /** Never falls, and does not grow past the limit. */
  predicate Climbs(before: int, after: int, limit: int) {
    before <= after <= Max(limit, before)
  }

  ghost predicate LimitIs(controls: seq<Control>, id: string, m: nat) {
    forall k :: 0 <= k < |controls| && controls[k].id == id ==> controls[k].maxFires == m
  }

  ghost predicate LimitsAre(os: seq<Occasion>, id: string, m: nat) {
    forall k :: 0 <= k < |os| && os[k].control.id == id ==> os[k].control.maxFires == m
  }

  lemma ConsiderCounts(o: Occasion, setting: Setting, f: Firing, id: string, m: nat)
    requires o.control.id == id ==> o.control.maxFires == m
    ensures var g := Consider(o, setting, f);
      && FireCount(g.counts, id, Max(1, m)) - FireCount(f.counts, id, Max(1, m))
         == Triggers(g.events, id) - Triggers(f.events, id)
      && Climbs(FireCount(f.counts, id, Max(1, m)), FireCount(g.counts, id, Max(1, m)), Max(1, m))
  {
    var g := Consider(o, setting, f);
    assert g.events[..|f.events|] == f.events && |g.events| == |f.events| + 1;
  }

  lemma {:induction false} BuildCounts(os: seq<Occasion>, setting: Setting, f: Firing, id: string, m: nat)
    requires LimitsAre(os, id, m)
    ensures var g := ConsiderAll(os, setting, f);
      && FireCount(g.counts, id, Max(1, m)) - FireCount(f.counts, id, Max(1, m))
         == Triggers(g.events, id) - Triggers(f.events, id)
      && Climbs(FireCount(f.counts, id, Max(1, m)), FireCount(g.counts, id, Max(1, m)), Max(1, m))
  {
    hide Consider, Triggers, FireCount;
    if os != [] {
      var n := |os| - 1;
      BuildCounts(os[..n], setting, f, id, m);
      ConsiderCounts(os[n], setting, ConsiderAll(os[..n], setting, f), id, m);
    }
  }

  // ----- Which occasions a build has -----

  lemma {:induction false} MatchingAre(controls: seq<Control>, signal: string, c: Control)
    ensures c in Matching(controls, signal) <==> c in controls && c.signal == signal
  {
    if controls != [] {
      MatchingAre(controls[..|controls| - 1], signal, c);
      assert controls == controls[..|controls| - 1] + [controls[|controls| - 1]];
    }
  }

  ghost predicate Considered(os: seq<Occasion>, c: Control, signal: string) {
    exists k :: 0 <= k < |os| && os[k].control == c && os[k].signal == signal
  }

  lemma ConsideredAppend(a: seq<Occasion>, b: seq<Occasion>, c: Control, signal: string)
    ensures Considered(a + b, c, signal) <==> Considered(a, c, signal) || Considered(b, c, signal)
  {
    if k :| 0 <= k < |a| && a[k].control == c && a[k].signal == signal {
      assert (a + b)[k] == a[k];
    }
    if k :| 0 <= k < |b| && b[k].control == c && b[k].signal == signal {
      assert (a + b)[|a| + k] == b[k];
    }
  }

  /** A control is considered for its own signal, when that signal is raised. */
  lemma {:induction false} OccasionsAre(
      controls: seq<Control>, signals: seq<string>, clock: nat -> real, c: Control, signal: string)
    ensures Considered(Occasions(controls, signals, clock), c, signal) <==>
      c in controls && c.signal == signal && signal in signals
  {
    if signals != [] {
      var before, last := signals[..|signals| - 1], signals[|signals| - 1];
      OccasionsAre(controls, before, clock, c, signal);
      var a := Occasions(controls, before, clock);
      var matching := Matching(controls, last);
      var b := OccasionsFor(matching, last, clock, |a|);
      ConsideredAppend(a, b, c, signal);
      MatchingAre(controls, last, c);
      assert signals == before + [last];
      if c in matching && signal == last {
        var k :| 0 <= k < |matching| && matching[k] == c;
        assert b[k].control == c && b[k].signal == signal;
      }
    }
  }

  lemma {:induction false} MatchingPlace(controls: seq<Control>, signal: string, j: nat, k: nat)
    returns (a: nat, b: nat)
    requires j < k < |Matching(controls, signal)|
    ensures a < b < |controls|
    ensures Matching(controls, signal)[j] == controls[a] && Matching(controls, signal)[k] == controls[b]
  {
    var before := controls[..|controls| - 1];
    if k < |Matching(before, signal)| {
      a, b := MatchingPlace(before, signal, j, k);
    } else {
      var m := Matching(before, signal);
      MatchingAre(before, signal, m[j]);
      a :| 0 <= a < |before| && before[a] == m[j];
      b := |controls| - 1;
    }
  }

  lemma MatchingAt(controls: seq<Control>, signal: string, k: nat) returns (a: nat)
    requires k < |Matching(controls, signal)|
    ensures a < |controls| && Matching(controls, signal)[k] == controls[a]
  {
    var c := Matching(controls, signal)[k];
    MatchingAre(controls, signal, c);
    a :| 0 <= a < |controls| && controls[a] == c;
  }

  lemma {:induction false} OccasionAt(
      controls: seq<Control>, signals: seq<string>, clock: nat -> real, k: nat)
    returns (a: nat, p: nat)
    requires k < |Occasions(controls, signals, clock)|
    ensures a < |controls| && p < |signals|
    ensures Occasions(controls, signals, clock)[k] == Occasion(controls[a], signals[p], clock(k))
  {
    hide Matching;
    var n := |signals| - 1;
    var before := Occasions(controls, signals[..n], clock);
    if k < |before| {
      a, p := OccasionAt(controls, signals[..n], clock, k);
    } else {
      p := n;
      a := MatchingAt(controls, signals[n], k - |before|);
    }
  }

  lemma {:induction false} OccasionPlaces(
      controls: seq<Control>, signals: seq<string>, clock: nat -> real, j: nat, k: nat)
    returns (a: nat, p: nat, b: nat, q: nat)
    requires j < k < |Occasions(controls, signals, clock)|
    ensures a < |controls| && b < |controls| && p <= q < |signals| && (p == q ==> a < b)
    ensures Occasions(controls, signals, clock)[j] == Occasion(controls[a], signals[p], clock(j))
    ensures Occasions(controls, signals, clock)[k] == Occasion(controls[b], signals[q], clock(k))
  {
    hide Matching;
    var n := |signals| - 1;
    var before := Occasions(controls, signals[..n], clock);
    if k < |before| {
      a, p, b, q := OccasionPlaces(controls, signals[..n], clock, j, k);
    } else if j < |before| {
      a, p := OccasionAt(controls, signals[..n], clock, j);
      q := n;
      b := MatchingAt(controls, signals[n], k - |before|);
    } else {
      a, b := MatchingPlace(controls, signals[n], j - |before|, k - |before|);
      p, q := n, n;
    }
  }

  /** Controls are considered signal by signal, a rejection first, and within a signal in the order they are listed; the
      k-th is considered at the k-th reading of the clock. */
  lemma OccasionOrder(input: Input, j: nat, k: nat) returns (a: nat, b: nat)
    requires j < k < |Occasions(input.controls, Signals(input.rejected, input.stalled), input.clock)|
    ensures var os := Occasions(input.controls, Signals(input.rejected, input.stalled), input.clock);
      && os[k].elapsed == input.clock(k)
      && a < |input.controls| && b < |input.controls|
      && os[j].control == input.controls[a] && os[k].control == input.controls[b]
      && ((os[j].signal == os[k].signal && a < b)
          || (os[j].signal == "gatekeeper_rejected" && os[k].signal == "no_evidence_progress"))
  {
    hide Occasions;
    var p, q;
    a, p, b, q := OccasionPlaces(input.controls, Signals(input.rejected, input.stalled), input.clock, j, k);
  }

  lemma OccasionLimits(controls: seq<Control>, signals: seq<string>, clock: nat -> real, id: string, m: nat)
    requires LimitIs(controls, id, m)
    ensures LimitsAre(Occasions(controls, signals, clock), id, m)
  {
    var os := Occasions(controls, signals, clock);
    forall k | 0 <= k < |os| && os[k].control.id == id ensures os[k].control.maxFires == m {
      assert Considered(os, os[k].control, os[k].signal);
      OccasionsAre(controls, signals, clock, os[k].control, os[k].signal);
    }
  }

  // ----- Whole runs -----

  ghost predicate RunLimit(ops: seq<Op>, id: string, m: nat) {
    forall k :: 0 <= k < |ops| && ops[k].Advance? ==> LimitIs(ops[k].input.controls, id, m)
  }

  /** An operation leaves counts and log alone, or it builds the queue of an iteration that has none. */
  lemma ApplyFires(op: Op, s: RunState)
    ensures var r := Apply(op, s);
      || (r.counts == s.counts && r.events == s.events)
      || (op.Advance? && s.queueIter != Some(s.iter)
          && r.counts == Built(op.input, s).counts && r.events == Built(op.input, s).events)
  {
    hide Built, Skip;
  }

  lemma BuiltCounts(input: Input, s: RunState, id: string, m: nat)
    requires LimitIs(input.controls, id, m)
    ensures var g := Built(input, s);
      && FireCount(g.counts, id, Max(1, m)) - FireCount(s.counts, id, Max(1, m))
         == Triggers(g.events, id) - Triggers(s.events, id)
      && Climbs(FireCount(s.counts, id, Max(1, m)), FireCount(g.counts, id, Max(1, m)), Max(1, m))
  {
    hide Triggers, FireCount, Occasions;
    var signals := Signals(input.rejected, input.stalled);
    OccasionLimits(input.controls, signals, input.clock, id, m);
    BuildCounts(
      Occasions(input.controls, signals, input.clock), Setting(s.iter, input.stepCount, input.existing, input.roles),
      Firing(s.counts, [], s.events), id, m);
  }

  /** Over any run, the stored count grows by one with each trigger, and stops at the control's limit. */
  lemma {:induction false} RunCounts(ops: seq<Op>, s: RunState, id: string, m: nat)
    requires RunLimit(ops, id, m)
    ensures var r := Run(ops, s);
      && FireCount(r.counts, id, Max(1, m)) - FireCount(s.counts, id, Max(1, m))
         == Triggers(r.events, id) - Triggers(s.events, id)
      && Climbs(FireCount(s.counts, id, Max(1, m)), FireCount(r.counts, id, Max(1, m)), Max(1, m))
  {
    hide Triggers, FireCount, Built, Apply;
    if ops != [] {
      var before, last := ops[..|ops| - 1], ops[|ops| - 1];
      RunCounts(before, s, id, m);
      ApplyFires(last, Run(before, s));
      if last.Advance? {
        BuiltCounts(last.input, Run(before, s), id, m);
      }
    }
  }

  /** From a fresh run, a control whose limit is m triggers at most m times, or once when m is zero, and the stored
      count is the number of times. */
  lemma BoundedFiring(ops: seq<Op>, id: string, m: nat)
    requires RunLimit(ops, id, m)
    ensures var r := Run(ops, FRESH);
      && (m > 0 ==> Triggers(r.events, id) <= m)
      && (m == 0 ==> Triggers(r.events, id) <= 1)
      && (Triggers(r.events, id) == 0 <==> id !in r.counts)
      && (id in r.counts ==> r.counts[id] == Count(Triggers(r.events, id)))
  {
    RunCounts(ops, FRESH, id, m);
    CountsStaySound(ops);
  }

  /** Every stored count is a positive integer. */
  ghost predicate Sound(counts: map<string, Stored>) {
    forall id :: id in counts ==> counts[id].Count? && counts[id].n > 0
  }

  lemma {:induction false} BuildSound(os: seq<Occasion>, setting: Setting, f: Firing)
    requires Sound(f.counts)
    ensures Sound(ConsiderAll(os, setting, f).counts)
  {
    if os != [] {
      BuildSound(os[..|os| - 1], setting, f);
    }
  }

  lemma {:induction false} CountsStaySound(ops: seq<Op>)
    ensures Sound(Run(ops, FRESH).counts)
  {
    hide Apply, Occasions;
    if ops != [] {
      var before, last := Run(ops[..|ops| - 1], FRESH), ops[|ops| - 1];
      CountsStaySound(ops[..|ops| - 1]);
      ApplyFires(last, before);
      if last.Advance? {
        var input := last.input;
        BuildSound(
          Occasions(input.controls, Signals(input.rejected, input.stalled), input.clock),
          Setting(before.iter, input.stepCount, input.existing, input.roles), Firing(before.counts, [], before.events));
      }
    }
  }

  /** From a state with whatever is stored, a run adds no more triggers than the limit leaves: none at all when what is
      stored is malformed or negative. */
  lemma StoredCountBounds(ops: seq<Op>, s: RunState, id: string, m: nat)
    requires RunLimit(ops, id, m)
    ensures var added := Triggers(Run(ops, s).events, id) - Triggers(s.events, id);
      && 0 <= added <= Max(1, m)
      && (id in s.counts && s.counts[id].Malformed? ==> added == 0)
      && (id in s.counts && s.counts[id].Count? && s.counts[id].n < 0 ==> added == 0)
      && (id in s.counts && s.counts[id].Count? && s.counts[id].n >= 0 ==> added <= Max(0, Max(1, m) - s.counts[id].n))
  {
    RunCounts(ops, s, id, m);
  }

  /** The log calls an event a skip for the limit exactly when the control had by then triggered that often. */
  ghost predicate SkipsTrue(events: seq<Event>, id: string, m: nat) {
    forall k :: 0 <= k < |events| && events[k].id == id ==>
      (events[k].kind == SkippedMaxFires <==> Triggers(events[..k], id) >= Max(1, m))
  }

  ghost predicate Accounted(counts: map<string, Stored>, events: seq<Event>, id: string, m: nat) {
    FireCount(counts, id, Max(1, m)) == Triggers(events, id) && SkipsTrue(events, id, m)
  }

  lemma ConsiderSkips(o: Occasion, setting: Setting, f: Firing, id: string, m: nat)
    requires o.control.id == id ==> o.control.maxFires == m
    requires Accounted(f.counts, f.events, id, m)
    ensures var g := Consider(o, setting, f); Accounted(g.counts, g.events, id, m)
  {
    hide Triggers;
    ConsiderCounts(o, setting, f, id, m);
    var g, n := Consider(o, setting, f), |f.events|;
    assert g.events[..n] == f.events;
    forall k | 0 <= k < n ensures g.events[..k] == f.events[..k] {
    }
  }

  lemma {:induction false} BuildSkips(os: seq<Occasion>, setting: Setting, f: Firing, id: string, m: nat)
    requires LimitsAre(os, id, m) && Accounted(f.counts, f.events, id, m)
    ensures var g := ConsiderAll(os, setting, f); Accounted(g.counts, g.events, id, m)
  {
    hide Consider, Accounted;
    if os != [] {
      var n := |os| - 1;
      BuildSkips(os[..n], setting, f, id, m);
      ConsiderSkips(os[n], setting, ConsiderAll(os[..n], setting, f), id, m);
    }
  }

  lemma BuiltSkips(input: Input, s: RunState, id: string, m: nat)
    requires LimitIs(input.controls, id, m) && Accounted(s.counts, s.events, id, m)
    ensures Accounted(Built(input, s).counts, Built(input, s).events, id, m)
  {
    hide Accounted, Occasions;
    var signals := Signals(input.rejected, input.stalled);
    OccasionLimits(input.controls, signals, input.clock, id, m);
    BuildSkips(
      Occasions(input.controls, signals, input.clock), Setting(s.iter, input.stepCount, input.existing, input.roles),
      Firing(s.counts, [], s.events), id, m);
  }

  lemma {:induction false} RunAccounted(ops: seq<Op>, id: string, m: nat)
    requires RunLimit(ops, id, m)
    ensures var r := Run(ops, FRESH); Accounted(r.counts, r.events, id, m)
  {
    hide Built, Apply;
    if ops == [] {
      RunCounts(ops, FRESH, id, m);
    } else {
      hide Accounted;
      var before, last := ops[..|ops| - 1], ops[|ops| - 1];
      RunAccounted(before, id, m);
      ApplyFires(last, Run(before, FRESH));
      if last.Advance? {
        BuiltSkips(last.input, Run(before, FRESH), id, m);
      }
    }
  }

  /** From a fresh run, the log calls an event a skip for the limit m exactly when the control had by then triggered m
      times, or once when m is zero. */
  lemma SkipsAreTrue(ops: seq<Op>, id: string, m: nat, k: nat)
    requires RunLimit(ops, id, m)
    requires k < |Run(ops, FRESH).events| && Run(ops, FRESH).events[k].id == id
    ensures var events := Run(ops, FRESH).events;
      events[k].kind == SkippedMaxFires <==> Triggers(events[..k], id) >= if m > 0 then m else 1
  {
    RunAccounted(ops, id, m);
  }

  // ----- No control is considered twice for a signal in an iteration -----

  ghost predicate DistinctIds(controls: seq<Control>) {
    forall j, k :: 0 <= j < k < |controls| ==> controls[j].id != controls[k].id
  }

  lemma {:induction false} MatchingDistinct(controls: seq<Control>, signal: string)
    requires DistinctIds(controls)
    ensures DistinctIds(Matching(controls, signal))
  {
    if controls != [] {
      var before, last := controls[..|controls| - 1], controls[|controls| - 1];
      MatchingDistinct(before, signal);
      var m := Matching(before, signal);
      forall k | 0 <= k < |m| ensures m[k].id != last.id {
        MatchingAre(before, signal, m[k]);
      }
    }
  }

  ghost predicate SameCause(a: Event, b: Event) {
    a.iter == b.iter && a.id == b.id && a.signal == b.signal
  }

  ghost predicate Unrepeated(events: seq<Event>) {
    forall j, k :: 0 <= j < k < |events| ==> !SameCause(events[j], events[k])
  }

  ghost predicate DistinctOccasions(os: seq<Occasion>) {
    forall j, k :: 0 <= j < k < |os| ==> os[j].control.id != os[k].control.id || os[j].signal != os[k].signal
  }

  ghost predicate DistinctSignals(signals: seq<string>) {
    forall j, k :: 0 <= j < k < |signals| ==> signals[j] != signals[k]
  }

  lemma {:induction false} OccasionsDistinct(controls: seq<Control>, signals: seq<string>, clock: nat -> real)
    requires DistinctIds(controls) && DistinctSignals(signals)
    ensures DistinctOccasions(Occasions(controls, signals, clock))
  {
    if signals != [] {
      var before, last := signals[..|signals| - 1], signals[|signals| - 1];
      OccasionsDistinct(controls, before, clock);
      MatchingDistinct(controls, last);
      var a := Occasions(controls, before, clock);
      forall k | 0 <= k < |a| ensures a[k].signal != last {
        assert Considered(a, a[k].control, a[k].signal);
        OccasionsAre(controls, before, clock, a[k].control, a[k].signal);
      }
    }
  }

  /** Events are of iterations up to the current one, whose events were all written when its queue was built. */
  ghost predicate Logged(s: RunState) {
    && Unrepeated(s.events)
    && (s.queueIter.None? || s.queueIter == Some(s.iter))
    && forall k :: 0 <= k < |s.events| ==>
        s.events[k].iter < s.iter || (s.events[k].iter == s.iter && s.queueIter == Some(s.iter))
  }

  lemma BuildUnrepeated(os: seq<Occasion>, setting: Setting, f: Firing)
    requires DistinctOccasions(os) && Unrepeated(f.events)
    requires forall k :: 0 <= k < |f.events| ==> f.events[k].iter < setting.iter
    ensures var g := ConsiderAll(os, setting, f);
      Unrepeated(g.events) && forall k :: 0 <= k < |g.events| ==> g.events[k].iter <= setting.iter
  {
    hide ConsiderAll;
    OneEventEach(os, setting, f);
    var g, n := ConsiderAll(os, setting, f), |f.events|;
    assert forall k :: 0 <= k < n ==> g.events[k] == f.events[k];
    forall k | n <= k < |g.events| ensures Reports(g.events[k], os[k - n], setting) {
      assert k == n + (k - n);
    }
  }

  lemma PreparedLogged(input: Input, s: RunState)
    requires Logged(s) && DistinctIds(input.controls)
    ensures Logged(Prepared(input, s)) && Prepared(input, s).iter == s.iter
  {
    hide ConsiderAll, Occasions;
    if s.queueIter != Some(s.iter) {
      var signals := Signals(input.rejected, input.stalled);
      assert |REJECTED| != |NO_PROGRESS|;
      OccasionsDistinct(input.controls, signals, input.clock);
      BuildUnrepeated(
        Occasions(input.controls, signals, input.clock), Setting(s.iter, input.stepCount, input.existing, input.roles),
        Firing(s.counts, [], s.events));
    }
  }

  lemma ApplyLogged(op: Op, s: RunState)
    requires Logged(s) && (op.Advance? ==> DistinctIds(op.input.controls))
    ensures Logged(Apply(op, s))
  {
    hide Prepared, Skip, Unrepeated, DistinctIds;
    if op.Advance? {
      PreparedLogged(op.input, s);
    }
  }

  /** However often steps are claimed, no control is reported twice for one signal in one iteration. */
  lemma {:induction false} ConsideredOnce(ops: seq<Op>)
    requires forall k :: 0 <= k < |ops| && ops[k].Advance? ==> DistinctIds(ops[k].input.controls)
    ensures Logged(Run(ops, FRESH))
  {
    hide Apply, Logged;
    if ops == [] {
      FreshLogged();
    } else {
      ConsideredOnce(ops[..|ops| - 1]);
      ApplyLogged(ops[|ops| - 1], Run(ops[..|ops| - 1], FRESH));
    }
  }

  lemma FreshLogged()
    ensures Logged(FRESH)
  {
  }

  /** A rejecting GateKeeper and a stalled iteration each raise a signal of their own. */
  predicate Raised(input: Input, signal: string) {
    || (signal == "gatekeeper_rejected" && input.rejected)
    || (signal == "no_evidence_progress" && input.stalled)
  }

  lemma SignalsAre(input: Input, signal: string)
    ensures signal in Signals(input.rejected, input.stalled) <==> Raised(input, signal)
    ensures input.rejected && input.stalled ==>
      Signals(input.rejected, input.stalled) == ["gatekeeper_rejected", "no_evidence_progress"]
  {
  }

  /** Every event that building a queue adds is about a control of that signal, and the signal is raised. */
  lemma EventsHaveCause(input: Input, s: RunState, k: nat) returns (c: Control)
    requires |s.events| <= k < |Built(input, s).events|
    ensures var e := Built(input, s).events[k];
      && c in input.controls && c.id == e.id && c.roleId == e.roleId && c.signal == e.signal
      && e.iter == s.iter && Raised(input, e.signal)
      && (e.kind == Triggered ==> c.roleId in input.roles)
      && (e.kind == Failed ==> c.roleId !in input.roles)
  {
    hide ConsiderAll, Occasions;
    var signals := Signals(input.rejected, input.stalled);
    var os := Occasions(input.controls, signals, input.clock);
    var setting := Setting(s.iter, input.stepCount, input.existing, input.roles);
    OneEventEach(os, setting, Firing(s.counts, [], s.events));
    var o := os[k - |s.events|];
    assert Reports(Built(input, s).events[|s.events| + (k - |s.events|)], o, setting);
    assert Considered(os, o.control, o.signal);
    OccasionsAre(input.controls, signals, input.clock, o.control, o.signal);
    SignalsAre(input, o.signal);
    c := o.control;
  }

  /** Building a queue reports every control whose signal is raised, exactly once. */
  lemma EventPerControl(input: Input, s: RunState, c: Control) returns (k: nat)
    requires DistinctIds(input.controls) && c in input.controls && Raised(input, c.signal)
    ensures var events := Built(input, s).events;
      && |s.events| <= k < |events|
      && events[k].iter == s.iter && events[k].id == c.id && events[k].signal == c.signal
      && forall j :: |s.events| <= j < |events| && events[j].id == c.id && events[j].signal == c.signal ==> j == k
  {
    hide ConsiderAll, Occasions;
    var signals := Signals(input.rejected, input.stalled);
    var os := Occasions(input.controls, signals, input.clock);
    var setting := Setting(s.iter, input.stepCount, input.existing, input.roles);
    var n := |s.events|;
    assert |REJECTED| != |NO_PROGRESS|;
    SignalsAre(input, c.signal);
    OccasionsDistinct(input.controls, signals, input.clock);
    OccasionsAre(input.controls, signals, input.clock, c, c.signal);
    OneEventEach(os, setting, Firing(s.counts, [], s.events));
    var i :| 0 <= i < |os| && os[i].control == c && os[i].signal == c.signal;
    k := n + i;
    var events := Built(input, s).events;
    forall j | n <= j < |events| && events[j].id == c.id && events[j].signal == c.signal ensures j == k {
      assert Reports(events[n + (j - n)], os[j - n], setting);
    }
  }

  // ----- A control that is always ready -----

  ghost predicate Ready(os: seq<Occasion>, setting: Setting, id: string) {
    forall k :: 0 <= k < |os| && os[k].control.id == id ==>
      os[k].elapsed >= os[k].control.after && os[k].control.roleId in setting.roles
  }

  function OccasionsOf(os: seq<Occasion>, id: string): nat {
    if os == [] then 0 else OccasionsOf(os[..|os| - 1], id) + if os[|os| - 1].control.id == id then 1 else 0
  }

  lemma {:induction false} ReadyCounts(os: seq<Occasion>, setting: Setting, f: Firing, id: string, m: nat)
    requires LimitsAre(os, id, m) && Ready(os, setting, id)
    ensures var g, fired := ConsiderAll(os, setting, f), FireCount(f.counts, id, Max(1, m));
      FireCount(g.counts, id, Max(1, m)) == Max(fired, Min(Max(1, m), fired + OccasionsOf(os, id)))
  {
    if os != [] {
      var n := |os| - 1;
      ReadyCounts(os[..n], setting, f, id, m);
      assert os[n].control.id == id ==> os[n].control.maxFires == m;
    }
  }

  /** A control whose role exists and whose delay has passed fires on every occasion until its limit is used up, what
      is stored counting as used: a missing count as nothing, a malformed or negative one as the whole limit. */
  lemma ReadyFires(os: seq<Occasion>, setting: Setting, f: Firing, id: string, m: nat)
    requires LimitsAre(os, id, m) && Ready(os, setting, id)
    ensures var added := Triggers(ConsiderAll(os, setting, f).events, id) - Triggers(f.events, id);
      && (id !in f.counts ==> added == Min(Max(1, m), OccasionsOf(os, id)))
      && (id in f.counts && f.counts[id].Count? && f.counts[id].n >= 0 ==>
          added == Min(Max(0, Max(1, m) - f.counts[id].n), OccasionsOf(os, id)))
      && (id in f.counts && (f.counts[id].Malformed? || f.counts[id].n < 0) ==> added == 0)
  {
    hide ConsiderAll, Triggers;
    BuildCounts(os, setting, f, id, m);
    ReadyCounts(os, setting, f, id, m);
  }
}

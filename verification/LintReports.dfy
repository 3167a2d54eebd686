/** Exactly which issues the evidence-flow lints report, told by the positions of steps in the workflow. */
module LintReports {
  import opened WorkflowLints
  import opened WorkflowFlow
  import opened WorkflowHandoffs

  lemma Archetypes(step: Step)
    ensures IsBuilder(step) <==> step.archetype == "builder"
    ensures IsGuide(step) <==> step.archetype == "guide"
    ensures IsReview(step) <==> step.archetype == "inspector" || step.archetype == "custom"
    ensures IsFinisher(step) <==> step.archetype == "gatekeeper" && step.finishes
  {
  }

  // ----- One step -----

  /** A review that follows some Builder. */
  ghost predicate ReviewAfterBuilder(steps: seq<Step>, i: nat)
    requires i < |steps|
  {
    IsReview(steps[i]) && AfterBuilder(steps, i)
  }

  /** A Builder that follows a review, but no Guide, since the Builder before. */
  ghost predicate RepairsReview(steps: seq<Step>, i: nat)
    requires i < |steps|
  {
    IsBuilder(steps[i]) && HasReview(steps, i) && !HasGuide(steps, i, true)
  }

  /** What an issue says of step i, if the lint is right to report it there. */
  ghost predicate Told(lint: Lint, steps: seq<Step>, i: nat, issue: Issue)
    requires i < |steps|
  {
    var step := steps[i];
    match (lint, issue)
    case (ReviewBuilder, NamesNoBuilder(id)) =>
      id == step.id && ReviewAfterBuilder(steps, i) && !NamesBuilder(steps, i)
    case (ReviewBuilder, QueriesNoBuilder(id)) =>
      id == step.id && ReviewAfterBuilder(steps, i) && "builder" !in step.query
    case (GuideReview, LacksReviews(id)) => id == step.id && IsGuide(step) && !NamesCounted(steps, i, false)
    case (GuideReview, LacksQuery(archetypes)) =>
      IsGuide(step) && archetypes != [] && Unqueried(steps, i, false, archetypes)
    case (ReviewGateKeeper, LacksHandoffs(ids)) =>
      IsFinisher(step) && !NamesCounted(steps, i, true) && ids == Unnamed(steps, i)
    case (ReviewGateKeeper, LacksQuery(archetypes)) =>
      IsFinisher(step) && archetypes != [] && Unqueried(steps, i, true, archetypes)
    case (BuilderReview, LacksReviews(id)) =>
      id == step.id && RepairsReview(steps, i) && !NamesReviews(steps, i, true)
    case (BuilderGuide, LacksGuide(id)) =>
      id == step.id && IsBuilder(step) && HasGuide(steps, i, false) && !NamesGuide(steps, i)
    case (BuilderGuide, LacksReviewsBesideGuide(id)) =>
      id == step.id && IsBuilder(step) && HasGuide(steps, i, false) && !NamesReviews(steps, i, false)
    case (BuilderReviewMemory, LacksMemory(id)) => id == step.id && RepairsReview(steps, i) && step.memory == ""
    case (BuilderReviewMemory, LacksSummary(id)) =>
      id == step.id && RepairsReview(steps, i) && step.memory != "" && step.memory != "summary_only"
    case (BuilderGuideMemory, LacksMemory(id)) =>
      id == step.id && IsBuilder(step) && HasGuide(steps, i, true) && step.memory == ""
    case (BuilderGuideMemory, LacksSummary(id)) =>
      && id == step.id && IsBuilder(step) && HasGuide(steps, i, true)
      && step.memory != "" && step.memory != "summary_only"
    case _ => false
  }

  /** Some review, or Guide if Guides count, since the latest Builder has an id and that archetype. */
  ghost predicate Reviewed(steps: seq<Step>, i: nat, guides: bool, archetype: string) {
    exists k: nat :: Before(steps, k, i) && steps[k].id != "" && steps[k].archetype == archetype &&
      (IsReview(steps[k]) || (guides && IsGuide(steps[k])))
  }

  /** The archetypes of those that step i does not query, in alphabetical order. */
  ghost predicate Unqueried(steps: seq<Step>, i: nat, guides: bool, archetypes: seq<string>)
    requires i < |steps|
  {
    var query := steps[i].query;
    archetypes ==
      (if Reviewed(steps, i, guides, "custom") && "custom" !in query then ["custom"] else []) +
      (if Reviewed(steps, i, guides, "guide") && "guide" !in query then ["guide"] else []) +
      (if Reviewed(steps, i, guides, "inspector") && "inspector" !in query then ["inspector"] else [])
  }

  /** The ids, in workflow order, of the reviews and Guides since the latest Builder that step i does not name. */
  ghost function Unnamed(steps: seq<Step>, i: nat): seq<string>
    requires i < |steps|
  {
    UnnamedUpTo(steps, i, i)
  }

  ghost function UnnamedUpTo(steps: seq<Step>, i: nat, n: nat): seq<string>
    requires n <= i < |steps|
  {
    if n == 0 then []
    else
      var k := n - 1;
      UnnamedUpTo(steps, i, k) +
      if Before(steps, k, i) && (IsReview(steps[k]) || IsGuide(steps[k])) && steps[k].id != "" &&
          steps[k].id !in steps[i].handoffs
      then [steps[k].id] else []
  }

  lemma {:induction false} UnnamedPrefix(steps: seq<Step>, i: nat, n: nat)
    requires n <= i < |steps|
    ensures var since, start := Since(steps[..i]), i - |Since(steps[..i])|;
      && 0 <= start
      && UnnamedUpTo(steps, i, n) ==
        if n <= start then [] else Missing(Ids(Reviews(since[..n - start], true)), steps[i].handoffs)
  {
    hide Before, Since, Reviews, Missing;
    SinceIs(steps, i);
    var since := Since(steps[..i]);
    var start := i - |since|;
    if n > 0 {
      UnnamedPrefix(steps, i, n - 1);
      if n > start {
        var m := n - start;
        assert since[m - 1] == steps[n - 1] && Before(steps, n - 1, i);
        ReviewsNext(since, m, steps[i].handoffs);
        if m == 1 {
          assert since[..0] == [];
          MissingNone(steps[i].handoffs);
        }
      }
    }
  }

  lemma MissingNone(handoffs: set<string>)
    ensures Missing(Ids(Reviews([], true)), handoffs) == []
  {
    assert Ids([]) == [];
  }

  lemma ReviewsNext(since: seq<Step>, m: nat, handoffs: set<string>)
    requires 0 < m <= |since|
    ensures var last := since[m - 1];
      Missing(Ids(Reviews(since[..m], true)), handoffs) ==
      Missing(Ids(Reviews(since[..m - 1], true)), handoffs) +
        if (IsReview(last) || IsGuide(last)) && last.id != "" && last.id !in handoffs then [last.id] else []
  {
    var before, last := Reviews(since[..m - 1], true), since[m - 1];
    assert since[..m][..m - 1] == since[..m - 1];
    if Counts(last, true) {
      var all := Reviews(since[..m], true);
      assert all == before + [Review(last.id, last.archetype)];
      assert Ids(all) == Ids(before) + [last.id];
      assert (Ids(before) + [last.id])[..|Ids(before)|] == Ids(before);
    } else {
      assert Reviews(since[..m], true) == before;
      var missing := Missing(Ids(before), handoffs);
      assert missing + [] == missing;
    }
  }

  lemma UnnamedIs(steps: seq<Step>, i: nat)
    requires i < |steps|
    ensures Unnamed(steps, i) == Missing(Ids(Reviews(Since(steps[..i]), true)), steps[i].handoffs)
  {
    hide Before, Since, Reviews, Missing, UnnamedUpTo;
    UnnamedPrefix(steps, i, i);
    SinceIs(steps, i);
    var since := Since(steps[..i]);
    assert since[..|since|] == since;
    if since == [] {
      MissingNone(steps[i].handoffs);
    }
  }

  lemma UnqueriedIs(steps: seq<Step>, i: nat, guides: bool)
    requires i < |steps|
    ensures Unqueried(steps, i, guides, MissingArchetypes(Reviews(Since(steps[..i]), guides), steps[i].query))
  {
    hide Before, Since, Reviews, HasArchetype;
    forall a: string ensures Reviewed(steps, i, guides, a) <==> HasArchetype(Reviews(Since(steps[..i]), guides), a) {
      CountedArchetypes(steps, i, guides, a);
      forall k: nat | Before(steps, k, i)
        ensures Counts(steps[k], guides) <==>
          steps[k].id != "" && (IsReview(steps[k]) || (guides && IsGuide(steps[k])))
      {
      }
    }
  }

  /** At one step, a lint reports exactly what is to be told of it. */
  lemma ReportedAt(lint: Lint, steps: seq<Step>, i: nat, issue: Issue)
    requires i < |steps|
    ensures issue in IssuesAt(lint, steps[..i], steps[i]) <==> Told(lint, steps, i, issue)
  {
    match lint
    case ReviewBuilder => ReviewBuilderTold(steps, i, issue);
    case GuideReview => GuideReviewTold(steps, i, issue);
    case ReviewGateKeeper => GateKeeperTold(steps, i, issue);
    case BuilderReview => BuilderReviewTold(steps, i, issue);
    case BuilderGuide => BuilderGuideTold(steps, i, issue);
    case _ => MemoryTold(lint, steps, i, issue);
  }

  lemma ReviewBuilderTold(steps: seq<Step>, i: nat, issue: Issue)
    requires i < |steps|
    ensures issue in IssuesAt(ReviewBuilder, steps[..i], steps[i]) <==> Told(ReviewBuilder, steps, i, issue)
  {
    hide Since, BuilderIds, NamesOne, AfterBuilder, NamesBuilder;
    BuilderNames(steps, i);
  }

  lemma GuideReviewTold(steps: seq<Step>, i: nat, issue: Issue)
    requires i < |steps|
    ensures issue in IssuesAt(GuideReview, steps[..i], steps[i]) <==> Told(GuideReview, steps, i, issue)
  {
    hide Since, Reviews, Missing, MissingArchetypes, NamesCounted, Unqueried;
    NamesSilent(steps, i, false);
    UnqueriedIs(steps, i, false);
    OneUnqueried(steps, i, false);
    if Reviews(Since(steps[..i]), false) == [] {
      NoneCounted(steps, i, false);
      NoArchetypes(steps[i].query);
    }
  }

  lemma NoArchetypes(query: set<string>)
    ensures MissingArchetypes([], query) == []
  {
  }

  lemma OneUnqueried(steps: seq<Step>, i: nat, guides: bool)
    requires i < |steps|
    ensures forall a, b :: Unqueried(steps, i, guides, a) && Unqueried(steps, i, guides, b) ==> a == b
  {
    hide Reviewed;
  }

  lemma GateKeeperTold(steps: seq<Step>, i: nat, issue: Issue)
    requires i < |steps|
    ensures issue in IssuesAt(ReviewGateKeeper, steps[..i], steps[i]) <==> Told(ReviewGateKeeper, steps, i, issue)
  {
    hide Since, Reviews, Missing, MissingArchetypes, NamesCounted, Unqueried, Unnamed;
    NamesSilent(steps, i, true);
    UnnamedIs(steps, i);
    UnqueriedIs(steps, i, true);
    OneUnqueried(steps, i, true);
    if Reviews(Since(steps[..i]), true) == [] {
      NoneCounted(steps, i, true);
      NoArchetypes(steps[i].query);
    }
  }

  lemma BuilderReviewTold(steps: seq<Step>, i: nat, issue: Issue)
    requires i < |steps|
    ensures issue in IssuesAt(BuilderReview, steps[..i], steps[i]) <==> Told(BuilderReview, steps, i, issue)
  {
    hide Since, ReviewIds, GuideIds, Missing, NamesReviews, HasReview, HasGuide;
    if IsBuilder(steps[i]) {
      SomeBefore(steps, i);
      BuilderReviewSilentAt(steps, i);
      NothingMissing(steps[i].handoffs);
    }
  }

  lemma BuilderGuideTold(steps: seq<Step>, i: nat, issue: Issue)
    requires i < |steps|
    ensures issue in IssuesAt(BuilderGuide, steps[..i], steps[i]) <==> Told(BuilderGuide, steps, i, issue)
  {
    hide NamedGuides, NamedReviews, Missing, NamesOne, Since, NamesReviews, HasGuide, NamesGuide;
    NamedBefore(steps, i);
  }

  lemma MemoryTold(lint: Lint, steps: seq<Step>, i: nat, issue: Issue)
    requires i < |steps| && lint in {BuilderReviewMemory, BuilderGuideMemory}
    ensures issue in IssuesAt(lint, steps[..i], steps[i]) <==> Told(lint, steps, i, issue)
  {
    hide Since, ReviewIds, GuideIds, HasReview, HasGuide;
    SomeBefore(steps, i);
  }

  // ----- The whole workflow -----

  /** A lint reports exactly the issues to be told of some step. */
  lemma {:induction false} LintReportsAre(lint: Lint, steps: seq<Step>, issue: Issue)
    ensures issue in Issues(lint, steps) <==> exists i :: 0 <= i < |steps| && Told(lint, steps, i, issue)
  {
    hide Told, IssuesAt, Issues;
    IssueSource(lint, steps, issue);
    forall i | 0 <= i < |steps|
      ensures issue in IssuesAt(lint, steps[..i], steps[i]) <==> Told(lint, steps, i, issue)
    {
      ReportedAt(lint, steps, i, issue);
    }
  }

  lemma {:induction false} IssueSource(lint: Lint, steps: seq<Step>, issue: Issue)
    ensures issue in Issues(lint, steps) <==>
      exists i :: 0 <= i < |steps| && issue in IssuesAt(lint, steps[..i], steps[i])
  {
    hide IssuesAt;
    if steps != [] {
      var before, n := steps[..|steps| - 1], |steps| - 1;
      IssueSource(lint, before, issue);
      assert forall i :: 0 <= i < n ==> before[..i] == steps[..i] && before[i] == steps[i];
    }
  }
}

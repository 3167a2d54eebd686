/** The lints that make evidence flow explicit in a workflow: what each step must name, step by step. */
module WorkflowLints {

  /** A workflow step with trimmed ids, its role's archetype, and what its inputs name. */
  datatype Step = Step(
    id: string,
    archetype: string,
    handoffs: set<string>,
    query: set<string>,
    memory: string,
    finishes: bool)

  predicate IsBuilder(step: Step) { step.archetype == "builder" }

  predicate IsGuide(step: Step) { step.archetype == "guide" }

  predicate IsReview(step: Step) { step.archetype == "inspector" || step.archetype == "custom" }

  predicate IsFinisher(step: Step) { step.archetype == "gatekeeper" && step.finishes }

  // ----- The steps since the latest Builder -----

  /** -1 when there is no Builder. */
  function LatestBuilder(steps: seq<Step>): (r: int)
    ensures -1 <= r < |steps|
    ensures r >= 0 ==> IsBuilder(steps[r])
    ensures forall k :: r < k < |steps| ==> !IsBuilder(steps[k])
  {
    if steps == [] then -1
    else if IsBuilder(steps[|steps| - 1]) then |steps| - 1
    else LatestBuilder(steps[..|steps| - 1])
  }

  function Since(before: seq<Step>): seq<Step> {
    before[LatestBuilder(before) + 1..]
  }

  lemma SinceNext(before: seq<Step>, step: Step)
    ensures Since(before + [step]) == if IsBuilder(step) then [] else Since(before) + [step]
  {
    assert (before + [step])[..|before|] == before;
  }

  // ----- What the scanners collect -----

  function BuilderIds(steps: seq<Step>): seq<string> {
    if steps == [] then []
    else
      var last := steps[|steps| - 1];
      BuilderIds(steps[..|steps| - 1]) + if IsBuilder(last) then [last.id] else []
  }

  function ReviewIds(steps: seq<Step>): seq<string> {
    if steps == [] then []
    else
      var last := steps[|steps| - 1];
      ReviewIds(steps[..|steps| - 1]) + if IsReview(last) then [last.id] else []
  }

  function GuideIds(steps: seq<Step>): seq<string> {
    if steps == [] then []
    else
      var last := steps[|steps| - 1];
      GuideIds(steps[..|steps| - 1]) + if IsGuide(last) then [last.id] else []
  }

  function NonBlank(ids: seq<string>): seq<string> {
    if ids == [] then []
    else NonBlank(ids[..|ids| - 1]) + if ids[|ids| - 1] != "" then [ids[|ids| - 1]] else []
  }

  function Missing(ids: seq<string>, handoffs: set<string>): seq<string> {
    if ids == [] then []
    else Missing(ids[..|ids| - 1], handoffs) + if ids[|ids| - 1] !in handoffs then [ids[|ids| - 1]] else []
  }

  predicate NamesOne(handoffs: set<string>, ids: seq<string>) {
    exists k :: 0 <= k < |ids| && ids[k] in handoffs
  }

  /** A review step as the two-pass helper reports it. */
  datatype Review = Review(id: string, archetype: string)

  predicate Counts(step: Step, guides: bool) {
    step.id != "" && (IsReview(step) || (guides && IsGuide(step)))
  }

  function Reviews(steps: seq<Step>, guides: bool): seq<Review> {
    if steps == [] then []
    else
      var last := steps[|steps| - 1];
      Reviews(steps[..|steps| - 1], guides) + if Counts(last, guides) then [Review(last.id, last.archetype)] else []
  }

  function Ids(reviews: seq<Review>): (r: seq<string>)
    ensures |r| == |reviews| && forall k :: 0 <= k < |r| ==> r[k] == reviews[k].id
  {
    seq(|reviews|, k requires 0 <= k < |reviews| => reviews[k].id)
  }

  predicate HasArchetype(reviews: seq<Review>, archetype: string) {
    exists k :: 0 <= k < |reviews| && reviews[k].archetype == archetype
  }

  /** In alphabetical order. */
  function MissingArchetypes(reviews: seq<Review>, query: set<string>): seq<string> {
    (if HasArchetype(reviews, "custom") && "custom" !in query then ["custom"] else []) +
    (if HasArchetype(reviews, "guide") && "guide" !in query then ["guide"] else []) +
    (if HasArchetype(reviews, "inspector") && "inspector" !in query then ["inspector"] else [])
  }

  // ----- The issues -----

  datatype Lint =
    | ReviewBuilder
    | GuideReview
    | ReviewGateKeeper
    | BuilderReview
    | BuilderGuide
    | BuilderReviewMemory
    | BuilderGuideMemory

  datatype Issue =
    | NamesNoBuilder(id: string)
    | QueriesNoBuilder(id: string)
    | LacksReviews(id: string)
    | LacksGuide(id: string)
    | LacksReviewsBesideGuide(id: string)
    | LacksHandoffs(ids: seq<string>)
    | LacksQuery(archetypes: seq<string>)
    | LacksMemory(id: string)
    | LacksSummary(id: string)

  function MemoryIssues(step: Step): seq<Issue> {
    if step.memory == "" then [LacksMemory(step.id)]
    else if step.memory != "summary_only" then [LacksSummary(step.id)]
    else []
  }

  function QueryIssues(reviews: seq<Review>, step: Step): seq<Issue> {
    var missing := MissingArchetypes(reviews, step.query);
    if missing != [] then [LacksQuery(missing)] else []
  }

  /** What a lint has against one step, told from the steps before it. */
  function IssuesAt(lint: Lint, before: seq<Step>, step: Step): seq<Issue> {
    var since := Since(before);
    match lint
    case ReviewBuilder =>
      if !IsReview(step) || BuilderIds(before) == [] then []
      else
        (if NamesOne(step.handoffs, BuilderIds(before)) then [] else [NamesNoBuilder(step.id)]) +
        (if "builder" in step.query then [] else [QueriesNoBuilder(step.id)])
    case GuideReview =>
      var reviews := Reviews(since, false);
      if !IsGuide(step) || reviews == [] then []
      else
        (if Missing(Ids(reviews), step.handoffs) != [] then [LacksReviews(step.id)] else []) +
        QueryIssues(reviews, step)
    case ReviewGateKeeper =>
      var reviews := Reviews(since, true);
      if !IsFinisher(step) || reviews == [] then []
      else
        var missing := Missing(Ids(reviews), step.handoffs);
        (if missing != [] then [LacksHandoffs(missing)] else []) + QueryIssues(reviews, step)
    case BuilderReview =>
      if IsBuilder(step) && GuideIds(since) == [] && Missing(ReviewIds(since), step.handoffs) != []
      then [LacksReviews(step.id)] else []
    case BuilderGuide =>
      var guides, reviews := NamedGuides(before), NamedReviews(before);
      if !IsBuilder(step) || guides == [] then []
      else
        (if NamesOne(step.handoffs, guides) then [] else [LacksGuide(step.id)]) +
        (if Missing(reviews, step.handoffs) != [] then [LacksReviewsBesideGuide(step.id)] else [])
    case BuilderReviewMemory =>
      if IsBuilder(step) && ReviewIds(since) != [] && GuideIds(since) == [] then MemoryIssues(step) else []
    case BuilderGuideMemory =>
      if IsBuilder(step) && GuideIds(since) != [] then MemoryIssues(step) else []
  }

  function Issues(lint: Lint, steps: seq<Step>): seq<Issue> {
    if steps == [] then []
    else
      var before, last := steps[..|steps| - 1], steps[|steps| - 1];
      Issues(lint, before) + IssuesAt(lint, before, last)
  }

  lemma IssuesNext(lint: Lint, steps: seq<Step>, i: nat)
    requires i < |steps|
    ensures steps[..i + 1] == steps[..i] + [steps[i]]
    ensures Issues(lint, steps[..i + 1]) == Issues(lint, steps[..i]) + IssuesAt(lint, steps[..i], steps[i])
  {
    assert steps[..i + 1][..i] == steps[..i];
  }

  // ----- The two-pass helper -----

  method ReviewStepsSinceLatestBuilder(previous: seq<Step>, guides: bool) returns (reviews: seq<Review>)
    ensures reviews == Reviews(Since(previous), guides)
  {
    var latest := -1;
    for i := 0 to |previous|
      invariant latest == LatestBuilder(previous[..i])
    {
      assert previous[..i + 1][..i] == previous[..i];
      if IsBuilder(previous[i]) {
        latest := i;
      }
    }
    assert previous[..|previous|] == previous;
    var rest := previous[latest + 1..];
    reviews := [];
    for i := 0 to |rest|
      invariant reviews == Reviews(rest[..i], guides)
    {
      assert rest[..i + 1][..i] == rest[..i];
      if IsReview(rest[i]) || (guides && IsGuide(rest[i])) {
        if rest[i].id != "" {
          reviews := reviews + [Review(rest[i].id, rest[i].archetype)];
        }
      }
    }
    assert rest[..|rest|] == rest;
  }

  // ----- The lints -----

  lemma BuilderIdsNext(before: seq<Step>, step: Step)
    ensures BuilderIds(before + [step]) == BuilderIds(before) + if IsBuilder(step) then [step.id] else []
  {
    assert (before + [step])[..|before|] == before;
  }

  lemma NoIssues(lint: Lint)
    ensures Issues(lint, []) == [] && BuilderIds([]) == []
  {
  }

  method LintReviewBuilder(steps: seq<Step>) returns (issues: seq<Issue>)
    ensures issues == Issues(ReviewBuilder, steps)
  {
    hide NamesOne, Since, Issues, BuilderIds;
    issues := [];
    var builders := [];
    NoIssues(ReviewBuilder);
    for i := 0 to |steps|
      invariant builders == BuilderIds(steps[..i])
      invariant issues == Issues(ReviewBuilder, steps[..i])
    {
      IssuesNext(ReviewBuilder, steps, i);
      BuilderIdsNext(steps[..i], steps[i]);
      var step := steps[i];
      if IsBuilder(step) {
        builders := builders + [step.id];
      } else if IsReview(step) && builders != [] {
        var found := if NamesOne(step.handoffs, builders) then [] else [NamesNoBuilder(step.id)];
        if "builder" !in step.query {
          found := found + [QueriesNoBuilder(step.id)];
        }
        issues := issues + found;
      }
    }
    assert steps[..|steps|] == steps;
  }

  method LintGuideReview(steps: seq<Step>) returns (issues: seq<Issue>)
    ensures issues == Issues(GuideReview, steps)
  {
    hide Since, Reviews, Missing, QueryIssues;
    issues := [];
    for i := 0 to |steps|
      invariant issues == Issues(GuideReview, steps[..i])
    {
      IssuesNext(GuideReview, steps, i);
      var step := steps[i];
      if IsGuide(step) {
        var reviews := ReviewStepsSinceLatestBuilder(steps[..i], false);
        if reviews != [] {
          var found := if Missing(Ids(reviews), step.handoffs) != [] then [LacksReviews(step.id)] else [];
          issues := issues + (found + QueryIssues(reviews, step));
        }
      }
    }
    assert steps[..|steps|] == steps;
  }

  method LintReviewGateKeeper(steps: seq<Step>) returns (issues: seq<Issue>)
    ensures issues == Issues(ReviewGateKeeper, steps)
  {
    hide Since, Reviews, Missing, QueryIssues;
    issues := [];
    for i := 0 to |steps|
      invariant issues == Issues(ReviewGateKeeper, steps[..i])
    {
      IssuesNext(ReviewGateKeeper, steps, i);
      var step := steps[i];
      if IsFinisher(step) {
        var reviews := ReviewStepsSinceLatestBuilder(steps[..i], true);
        if reviews != [] {
          var missing := Missing(Ids(reviews), step.handoffs);
          var found := if missing != [] then [LacksHandoffs(missing)] else [];
          issues := issues + (found + QueryIssues(reviews, step));
        }
      }
    }
    assert steps[..|steps|] == steps;
  }

  /** What one more step does to the accumulators of the Builder scanners. */
  lemma CollectNext(before: seq<Step>, step: Step)
    ensures ReviewIds(Since(before + [step])) ==
      if IsBuilder(step) then []
      else if IsReview(step) then ReviewIds(Since(before)) + [step.id]
      else ReviewIds(Since(before))
    ensures GuideIds(Since(before + [step])) ==
      if IsBuilder(step) then []
      else if IsGuide(step) then GuideIds(Since(before)) + [step.id]
      else GuideIds(Since(before))
  {
    SinceNext(before, step);
    assert (Since(before) + [step])[..|Since(before)|] == Since(before);
  }

  lemma NonBlankNext(ids: seq<string>, id: string)
    ensures NonBlank(ids + [id]) == if id != "" then NonBlank(ids) + [id] else NonBlank(ids)
  {
    assert (ids + [id])[..|ids|] == ids;
  }

  function NamedReviews(before: seq<Step>): seq<string> { NonBlank(ReviewIds(Since(before))) }

  function NamedGuides(before: seq<Step>): seq<string> { NonBlank(GuideIds(Since(before))) }

  lemma CollectNamedNext(before: seq<Step>, step: Step)
    ensures NamedReviews(before + [step]) ==
      if IsBuilder(step) then []
      else if IsReview(step) && step.id != "" then NamedReviews(before) + [step.id]
      else NamedReviews(before)
    ensures NamedGuides(before + [step]) ==
      if IsBuilder(step) then []
      else if IsGuide(step) && step.id != "" then NamedGuides(before) + [step.id]
      else NamedGuides(before)
  {
    hide Since, ReviewIds, GuideIds;
    CollectNext(before, step);
    NonBlankNext(ReviewIds(Since(before)), step.id);
    NonBlankNext(GuideIds(Since(before)), step.id);
  }

  method LintBuilderReview(steps: seq<Step>) returns (issues: seq<Issue>)
    ensures issues == Issues(BuilderReview, steps)
  {
    hide Since, ReviewIds, GuideIds, Missing;
    issues := [];
    var reviews, guideSeen := [], false;
    CollectNone();
    for i := 0 to |steps|
      invariant reviews == ReviewIds(Since(steps[..i]))
      invariant guideSeen == (GuideIds(Since(steps[..i])) != [])
      invariant issues == Issues(BuilderReview, steps[..i])
    {
      IssuesNext(BuilderReview, steps, i);
      CollectNext(steps[..i], steps[i]);
      var step := steps[i];
      if IsReview(step) {
        reviews := reviews + [step.id];
      } else if IsGuide(step) {
        guideSeen := true;
      } else if IsBuilder(step) {
        if reviews != [] && !guideSeen {
          if Missing(reviews, step.handoffs) != [] {
            issues := issues + [LacksReviews(step.id)];
          }
        }
        NothingMissing(step.handoffs);
        reviews, guideSeen := [], false;
      }
    }
    assert steps[..|steps|] == steps;
  }

  lemma CollectNone()
    ensures ReviewIds(Since([])) == [] && GuideIds(Since([])) == [] && NamedReviews([]) == [] && NamedGuides([]) == []
  {
    assert LatestBuilder([]) == -1 && Since([]) == [];
  }

  lemma NothingMissing(handoffs: set<string>)
    ensures Missing([], handoffs) == []
  {
  }

  method LintBuilderGuide(steps: seq<Step>) returns (issues: seq<Issue>)
    ensures issues == Issues(BuilderGuide, steps)
  {
    hide Since, NamedReviews, NamedGuides, Missing, NamesOne;
    issues := [];
    var guides, reviews := [], [];
    CollectNone();
    for i := 0 to |steps|
      invariant guides == NamedGuides(steps[..i])
      invariant reviews == NamedReviews(steps[..i])
      invariant issues == Issues(BuilderGuide, steps[..i])
    {
      IssuesNext(BuilderGuide, steps, i);
      CollectNamedNext(steps[..i], steps[i]);
      var step := steps[i];
      if IsReview(step) {
        if step.id != "" {
          reviews := reviews + [step.id];
        }
      } else if IsGuide(step) {
        if step.id != "" {
          guides := guides + [step.id];
        }
      } else if IsBuilder(step) {
        if guides != [] {
          var found := if NamesOne(step.handoffs, guides) then [] else [LacksGuide(step.id)];
          if Missing(reviews, step.handoffs) != [] {
            found := found + [LacksReviewsBesideGuide(step.id)];
          }
          issues := issues + found;
        }
        guides, reviews := [], [];
      }
    }
    assert steps[..|steps|] == steps;
  }

  method LintBuilderReviewMemory(steps: seq<Step>) returns (issues: seq<Issue>)
    ensures issues == Issues(BuilderReviewMemory, steps)
  {
    hide Since, ReviewIds, GuideIds;
    issues := [];
    var reviews, guideSeen := [], false;
    CollectNone();
    for i := 0 to |steps|
      invariant reviews == ReviewIds(Since(steps[..i]))
      invariant guideSeen == (GuideIds(Since(steps[..i])) != [])
      invariant issues == Issues(BuilderReviewMemory, steps[..i])
    {
      IssuesNext(BuilderReviewMemory, steps, i);
      CollectNext(steps[..i], steps[i]);
      var step := steps[i];
      if IsReview(step) {
        reviews := reviews + [step.id];
      } else if IsGuide(step) {
        guideSeen := true;
      } else if IsBuilder(step) {
        if reviews != [] && !guideSeen && step.memory == "" {
          issues := issues + [LacksMemory(step.id)];
        } else if reviews != [] && !guideSeen && step.memory != "summary_only" {
          issues := issues + [LacksSummary(step.id)];
        }
        reviews, guideSeen := [], false;
      }
    }
    assert steps[..|steps|] == steps;
  }

  method LintBuilderGuideMemory(steps: seq<Step>) returns (issues: seq<Issue>)
    ensures issues == Issues(BuilderGuideMemory, steps)
  {
    hide Since, GuideIds;
    issues := [];
    var guideSeen := false;
    CollectNone();
    for i := 0 to |steps|
      invariant guideSeen == (GuideIds(Since(steps[..i])) != [])
      invariant issues == Issues(BuilderGuideMemory, steps[..i])
    {
      IssuesNext(BuilderGuideMemory, steps, i);
      CollectNext(steps[..i], steps[i]);
      var step := steps[i];
      if IsGuide(step) {
        guideSeen := true;
      } else if IsBuilder(step) {
        if guideSeen && step.memory == "" {
          issues := issues + [LacksMemory(step.id)];
        } else if guideSeen && step.memory != "summary_only" {
          issues := issues + [LacksSummary(step.id)];
        }
        guideSeen := false;
      }
    }
    assert steps[..|steps|] == steps;
  }
}

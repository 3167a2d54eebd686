/** Handoff paths: silent lints join the Builders, the reviews and the finishing GateKeepers of a workflow. */
module WorkflowHandoffs {
  import opened WorkflowLints
  import opened WorkflowFlow

  // ----- What each review lint asks -----

  ghost predicate QueriesReviews(steps: seq<Step>, i: nat, guides: bool)
    requires i < |steps|
  {
    forall k: nat :: Before(steps, k, i) && Counts(steps[k], guides) ==> steps[k].archetype in steps[i].query
  }

  ghost predicate NamesCounted(steps: seq<Step>, i: nat, guides: bool)
    requires i < |steps|
  {
    forall k: nat :: Before(steps, k, i) && Counts(steps[k], guides) ==> steps[k].id in steps[i].handoffs
  }

  lemma QuerySilent(steps: seq<Step>, i: nat, guides: bool)
    requires i < |steps|
    ensures QueryIssues(Reviews(Since(steps[..i]), guides), steps[i]) == [] <==> QueriesReviews(steps, i, guides)
  {
    hide Before, Since, Reviews, Counts, HasArchetype;
    var reviews := Reviews(Since(steps[..i]), guides);
    CountedArchetypes(steps, i, guides, "custom");
    CountedArchetypes(steps, i, guides, "guide");
    CountedArchetypes(steps, i, guides, "inspector");
    forall k: nat | Before(steps, k, i) && Counts(steps[k], guides)
      ensures HasArchetype(reviews, steps[k].archetype) && steps[k].archetype in {"inspector", "custom", "guide"}
    {
      CountedArchetypes(steps, i, guides, steps[k].archetype);
    }
  }

  lemma NamesSilent(steps: seq<Step>, i: nat, guides: bool)
    requires i < |steps|
    ensures Missing(Ids(Reviews(Since(steps[..i]), guides)), steps[i].handoffs) == [] <==>
        NamesCounted(steps, i, guides)
  {
    hide Before, Since, Reviews, Missing, Counts;
    var ids := Ids(Reviews(Since(steps[..i]), guides));
    NoneMissing(ids, steps[i].handoffs);
    forall id: string
      ensures id in ids <==> exists k: nat :: Before(steps, k, i) && Counts(steps[k], guides) && steps[k].id == id
    {
      CountedIds(steps, i, guides, id);
    }
  }

  /** The GateKeeper lint lists exactly the ids, and the archetypes, of the reviews and Guides that were left out. */
  lemma GateKeeperIssueNames(steps: seq<Step>, i: nat, issue: Issue)
    requires i < |steps| && issue in IssuesAt(ReviewGateKeeper, steps[..i], steps[i])
    ensures match issue
      case LacksHandoffs(ids) =>
        forall id :: id in ids <==>
          && id !in steps[i].handoffs
          && exists k: nat :: Before(steps, k, i) && Counts(steps[k], true) && steps[k].id == id
      case LacksQuery(archetypes) =>
        forall a :: a in archetypes <==>
          && a !in steps[i].query
          && exists k: nat :: Before(steps, k, i) && Counts(steps[k], true) && steps[k].archetype == a
      case _ => false
  {
    hide Before, Since, Reviews, Missing, Counts;
    var reviews := Reviews(Since(steps[..i]), true);
    forall id: string
      ensures id in Missing(Ids(reviews), steps[i].handoffs) <==>
        id !in steps[i].handoffs && exists k: nat :: Before(steps, k, i) && Counts(steps[k], true) && steps[k].id == id
    {
      MissingAre(Ids(reviews), steps[i].handoffs, id);
      CountedIds(steps, i, true, id);
    }
    forall a: string
      ensures a in MissingArchetypes(reviews, steps[i].query) <==>
        && a !in steps[i].query
        && exists k: nat :: Before(steps, k, i) && Counts(steps[k], true) && steps[k].archetype == a
    {
      CountedArchetypes(steps, i, true, a);
    }
  }

  lemma CountedIds(steps: seq<Step>, i: nat, guides: bool, id: string)
    requires i <= |steps|
    ensures id in Ids(Reviews(Since(steps[..i]), guides)) <==>
      exists k: nat :: Before(steps, k, i) && Counts(steps[k], guides) && steps[k].id == id
  {
    hide Before, Since, Reviews, Counts;
    var reviews := Reviews(Since(steps[..i]), guides);
    if id in Ids(reviews) {
      var n :| 0 <= n < |reviews| && reviews[n].id == id;
      ReviewsBefore(steps, i, guides, reviews[n]);
    }
    if k: nat :| Before(steps, k, i) && Counts(steps[k], guides) && steps[k].id == id {
      var review := Review(steps[k].id, steps[k].archetype);
      ReviewsBefore(steps, i, guides, review);
      var n :| 0 <= n < |reviews| && reviews[n] == review;
      assert Ids(reviews)[n] == id;
    }
  }

  lemma CountedArchetypes(steps: seq<Step>, i: nat, guides: bool, archetype: string)
    requires i <= |steps|
    ensures var reviews := Reviews(Since(steps[..i]), guides);
      var counted :=
        exists k: nat :: Before(steps, k, i) && Counts(steps[k], guides) && steps[k].archetype == archetype;
      && (HasArchetype(reviews, archetype) <==> counted)
      && (counted ==> archetype in {"inspector", "custom", "guide"})
  {
    hide Before, Since, Reviews;
    var reviews := Reviews(Since(steps[..i]), guides);
    if n :| 0 <= n < |reviews| && reviews[n].archetype == archetype {
      ReviewsBefore(steps, i, guides, reviews[n]);
    }
    if k: nat :| Before(steps, k, i) && Counts(steps[k], guides) && steps[k].archetype == archetype {
      var review := Review(steps[k].id, steps[k].archetype);
      ReviewsBefore(steps, i, guides, review);
      var n :| 0 <= n < |reviews| && reviews[n] == review;
    }
  }

  lemma NoneCounted(steps: seq<Step>, i: nat, guides: bool)
    requires i < |steps| && Reviews(Since(steps[..i]), guides) == []
    ensures NamesCounted(steps, i, guides) && QueriesReviews(steps, i, guides)
  {
    QuerySilent(steps, i, guides);
    NamesSilent(steps, i, guides);
  }

  lemma GuideReviewAt(steps: seq<Step>, i: nat)
    requires i < |steps|
    ensures IssuesAt(GuideReview, steps[..i], steps[i]) == [] <==>
      (IsGuide(steps[i]) ==> NamesCounted(steps, i, false) && QueriesReviews(steps, i, false))
  {
    hide Since, Reviews, Missing, QueryIssues, NamesCounted, QueriesReviews;
    QuerySilent(steps, i, false);
    NamesSilent(steps, i, false);
    if Reviews(Since(steps[..i]), false) == [] {
      NoneCounted(steps, i, false);
    }
  }

  lemma ReviewGateKeeperAt(steps: seq<Step>, i: nat)
    requires i < |steps|
    ensures IssuesAt(ReviewGateKeeper, steps[..i], steps[i]) == [] <==>
      (IsFinisher(steps[i]) ==> NamesCounted(steps, i, true) && QueriesReviews(steps, i, true))
  {
    hide Since, Reviews, Missing, QueryIssues, NamesCounted, QueriesReviews;
    QuerySilent(steps, i, true);
    NamesSilent(steps, i, true);
    if Reviews(Since(steps[..i]), true) == [] {
      NoneCounted(steps, i, true);
    }
  }

  /** The Guide lint is silent exactly when every Guide names, and queries, every earlier review of its segment. */
  lemma GuidesNameReviews(steps: seq<Step>)
    ensures Issues(GuideReview, steps) == [] <==>
      forall i: nat :: i < |steps| && IsGuide(steps[i]) ==>
          NamesCounted(steps, i, false) && QueriesReviews(steps, i, false)
  {
    hide IssuesAt, Issues, NamesCounted, QueriesReviews;
    SilentEverywhere(GuideReview, steps);
    forall i: nat | i < |steps|
      ensures IssuesAt(GuideReview, steps[..i], steps[i]) == [] <==>
        (IsGuide(steps[i]) ==> NamesCounted(steps, i, false) && QueriesReviews(steps, i, false))
    {
      GuideReviewAt(steps, i);
    }
  }

  /** The GateKeeper lint is silent exactly when every finishing GateKeeper names, and queries, every review and
      Guide since the latest Builder. */
  lemma GateKeepersNameReviews(steps: seq<Step>)
    ensures Issues(ReviewGateKeeper, steps) == [] <==>
      forall i: nat :: i < |steps| && IsFinisher(steps[i]) ==>
          NamesCounted(steps, i, true) && QueriesReviews(steps, i, true)
  {
    hide IssuesAt, Issues, NamesCounted, QueriesReviews;
    SilentEverywhere(ReviewGateKeeper, steps);
    forall i: nat | i < |steps|
      ensures IssuesAt(ReviewGateKeeper, steps[..i], steps[i]) == [] <==>
        (IsFinisher(steps[i]) ==> NamesCounted(steps, i, true) && QueriesReviews(steps, i, true))
    {
      ReviewGateKeeperAt(steps, i);
    }
  }

  // ----- Handoffs between steps -----

  /** Step b names step a. */
  predicate Hands(steps: seq<Step>, a: nat, b: nat) {
    a < b < |steps| && steps[a].id in steps[b].handoffs
  }

  ghost predicate AfterBuilder(steps: seq<Step>, i: nat)
    requires i <= |steps|
  {
    exists b: nat :: b < i && IsBuilder(steps[b])
  }

  ghost predicate NamesBuilder(steps: seq<Step>, i: nat)
    requires i < |steps|
  {
    exists b: nat :: b < i && IsBuilder(steps[b]) && Hands(steps, b, i)
  }

  lemma BuilderNames(steps: seq<Step>, i: nat)
    requires i < |steps|
    ensures BuilderIds(steps[..i]) != [] <==> AfterBuilder(steps, i)
    ensures NamesOne(steps[i].handoffs, BuilderIds(steps[..i])) <==> NamesBuilder(steps, i)
  {
    hide BuilderIds;
    var ids := BuilderIds(steps[..i]);
    forall id: string ensures id in ids <==> exists b: nat :: b < i && IsBuilder(steps[b]) && steps[b].id == id {
      BuilderIdsAre(steps[..i], id);
    }
    assert ids != [] ==> ids[0] in ids;
    if b: nat :| b < i && IsBuilder(steps[b]) {
      assert steps[b].id in ids;
    }
    if n :| 0 <= n < |ids| && ids[n] in steps[i].handoffs {
      assert ids[n] in ids;
    }
    if b: nat :| b < i && IsBuilder(steps[b]) && Hands(steps, b, i) {
      assert steps[b].id in ids;
    }
  }

  lemma ReviewBuilderAt(steps: seq<Step>, i: nat)
    requires i < |steps|
    ensures IssuesAt(ReviewBuilder, steps[..i], steps[i]) == [] <==>
      (IsReview(steps[i]) && AfterBuilder(steps, i) ==> NamesBuilder(steps, i) && "builder" in steps[i].query)
  {
    hide BuilderIds, Since, NamesOne, AfterBuilder, NamesBuilder;
    BuilderNames(steps, i);
  }

  /** The review lint is silent exactly when every review after a Builder names, and queries, an earlier Builder. */
  lemma ReviewsNameBuilders(steps: seq<Step>)
    ensures Issues(ReviewBuilder, steps) == [] <==>
      forall i: nat :: i < |steps| && IsReview(steps[i]) && AfterBuilder(steps, i) ==>
        NamesBuilder(steps, i) && "builder" in steps[i].query
  {
    hide IssuesAt, Issues, NamesBuilder, AfterBuilder;
    SilentEverywhere(ReviewBuilder, steps);
    forall i: nat | i < |steps|
      ensures IssuesAt(ReviewBuilder, steps[..i], steps[i]) == [] <==>
        (IsReview(steps[i]) && AfterBuilder(steps, i) ==> NamesBuilder(steps, i) && "builder" in steps[i].query)
    {
      ReviewBuilderAt(steps, i);
    }
  }

  ghost predicate ReviewLintsSilent(steps: seq<Step>) {
    Issues(ReviewBuilder, steps) == [] && Issues(GuideReview, steps) == [] && Issues(ReviewGateKeeper, steps) == []
  }

  /** A review with an id between a Builder and a finishing GateKeeper lies on a handoff path between them,
      and so does any Guide after it. */
  lemma ReviewJoinsBuilder(steps: seq<Step>, k: nat, j: nat) returns (b: nat)
    requires ReviewLintsSilent(steps) && j < |steps| && IsFinisher(steps[j])
    requires Before(steps, k, j) && IsReview(steps[k]) && steps[k].id != "" && AfterBuilder(steps, k)
    ensures b < k && IsBuilder(steps[b]) && Hands(steps, b, k) && Hands(steps, k, j)
    ensures forall g: nat :: k < g < j && IsGuide(steps[g]) && steps[g].id != "" ==>
        Hands(steps, k, g) && Hands(steps, g, j)
  {
    hide Issues;
    ReviewsNameBuilders(steps);
    GuidesNameReviews(steps);
    GateKeepersNameReviews(steps);
    b :| b < k && IsBuilder(steps[b]) && Hands(steps, b, k);
    forall g: nat | k < g < j && IsGuide(steps[g]) && steps[g].id != ""
      ensures Hands(steps, k, g) && Hands(steps, g, j)
    {
      assert Before(steps, g, j) && Before(steps, k, g);
    }
  }

  // ----- Whole workflows -----

  ghost predicate Reaches(steps: seq<Step>, a: nat, b: nat)
    decreases b
  {
    a == b || exists m: nat :: a <= m < b && Reaches(steps, a, m) && Hands(steps, m, b)
  }

  /** There is a review between any two Builders. */
  ghost predicate ReviewedRounds(steps: seq<Step>) {
    forall i: nat :: i < |steps| && IsBuilder(steps[i]) && AfterBuilder(steps, i) ==> HasReview(steps, i)
  }

  ghost predicate FirstBuilder(steps: seq<Step>, first: nat) {
    first < |steps| && IsBuilder(steps[first]) && !AfterBuilder(steps, first)
  }

  /** With ids everywhere and a review in every round, silent lints give a handoff path from the first Builder to
      every later Builder and review, and to every finishing GateKeeper that follows a review of the last round. */
  lemma {:induction false} FirstBuilderReaches(steps: seq<Step>, first: nat, i: nat)
    requires AllNamed(steps) && ReviewedRounds(steps) && FirstBuilder(steps, first)
    requires BuilderLintsSilent(steps) && ReviewLintsSilent(steps)
    requires first <= i < |steps|
    requires IsBuilder(steps[i]) || IsReview(steps[i]) || (IsFinisher(steps[i]) && HasReview(steps, i))
    ensures Reaches(steps, first, i)
    decreases i
  {
    hide Issues, BuilderClear, HasGuide, NamesGuide;
    if i != first {
      assert AfterBuilder(steps, i);
      if IsReview(steps[i]) {
        ReviewsNameBuilders(steps);
        var b: nat :| b < i && IsBuilder(steps[b]) && Hands(steps, b, i);
        FirstBuilderReaches(steps, first, b);
      } else {
        var k: nat :| Before(steps, k, i) && IsReview(steps[k]);
        FirstBuilderReaches(steps, first, k);
        if IsBuilder(steps[i]) {
          BuildersNameReviews(steps);
        } else {
          GateKeepersNameReviews(steps);
        }
        assert Hands(steps, k, i);
      }
    }
  }

  // ----- The latest Builder -----

  /** A handoff path from a to b whose inner steps are none of those the GateKeeper lint counts. */
  ghost predicate ReachesAside(steps: seq<Step>, a: nat, b: nat)
    decreases b
  {
    a == b ||
    exists m: nat ::
      && a <= m < b <= |steps| && ReachesAside(steps, a, m)
      && (m == a || !Counts(steps[m], true)) && Hands(steps, m, b)
  }

  lemma {:induction false} AsideReaches(steps: seq<Step>, a: nat, b: nat)
    requires ReachesAside(steps, a, b)
    ensures Reaches(steps, a, b)
    decreases b
  {
    hide Counts;
    if a != b {
      var m: nat :| a <= m < b && ReachesAside(steps, a, m) && Hands(steps, m, b);
      AsideReaches(steps, a, m);
    }
  }

  lemma {:induction false} FirstCounted(steps: seq<Step>, a: nat, b: nat) returns (k: nat)
    requires Reaches(steps, a, b) && a < b < |steps|
    ensures a < k <= b && ReachesAside(steps, a, k) && (k == b || Counts(steps[k], true))
    decreases b
  {
    hide Counts;
    var m: nat :| a <= m < b && Reaches(steps, a, m) && Hands(steps, m, b);
    k := b;
    if m != a {
      k := FirstCounted(steps, a, m);
      if !Counts(steps[k], true) {
        k := b;
      }
    }
  }

  /** Step b is the latest Builder before step j. */
  ghost predicate IsLatestBuilder(steps: seq<Step>, b: nat, j: nat) {
    b < j <= |steps| && IsBuilder(steps[b]) && forall m :: b < m < j ==> !IsBuilder(steps[m])
  }

  lemma CountedHands(steps: seq<Step>, b: nat, k: nat, j: nat)
    requires Issues(ReviewGateKeeper, steps) == []
    requires j < |steps| && IsFinisher(steps[j]) && IsLatestBuilder(steps, b, j)
    requires b < k < j && Counts(steps[k], true)
    ensures Hands(steps, k, j)
  {
    hide Issues, Counts, QueriesReviews;
    GateKeepersNameReviews(steps);
    assert Before(steps, k, j);
  }

  /** With the GateKeeper lint silent, the latest Builder is on a path to a finishing GateKeeper exactly when some
      review or Guide after it, or the GateKeeper itself, is handed its work, directly or through steps of other
      kinds. */
  lemma LatestBuilderOnPath(steps: seq<Step>, b: nat, j: nat)
    requires Issues(ReviewGateKeeper, steps) == []
    requires j < |steps| && IsFinisher(steps[j]) && IsLatestBuilder(steps, b, j)
    ensures Reaches(steps, b, j) <==>
      exists k: nat :: b < k <= j && ReachesAside(steps, b, k) && (k == j || Counts(steps[k], true))
  {
    hide Issues, Counts, ReachesAside;
    if Reaches(steps, b, j) {
      var k := FirstCounted(steps, b, j);
    }
    if k: nat :| b < k <= j && ReachesAside(steps, b, k) && (k == j || Counts(steps[k], true)) {
      AsideReaches(steps, b, k);
      if k < j {
        CountedHands(steps, b, k, j);
      }
    }
  }

  /** When only reviews and Guides with ids lie between, one of them, or the GateKeeper, must name the Builder. */
  lemma LatestBuilderNamed(steps: seq<Step>, b: nat, j: nat)
    requires Issues(ReviewGateKeeper, steps) == []
    requires j < |steps| && IsFinisher(steps[j]) && IsLatestBuilder(steps, b, j)
    requires forall k :: b < k < j ==> Counts(steps[k], true)
    ensures Reaches(steps, b, j) <==> exists k: nat :: b < k <= j && Hands(steps, b, k)
  {
    hide Issues, Counts;
    LatestBuilderOnPath(steps, b, j);
    if k: nat :| b < k <= j && Hands(steps, b, k) {
      assert ReachesAside(steps, b, k) by { assert ReachesAside(steps, b, b); }
    }
  }

  /** Two rounds; the second review names the first Builder. */
  function SecondLook(): seq<Step> {
    [Step("b1", "builder", {}, {}, "", false), Step("r1", "inspector", {"b1"}, {"builder"}, "", false),
     Step("b2", "builder", {"r1"}, {}, "", false), Step("r2", "inspector", {"b1"}, {"builder"}, "", false),
     Step("end", "gatekeeper", {"r2"}, {"inspector"}, "", true)]
  }

  lemma SecondLookBefore(i: nat, k: nat)
    requires i < 5
    ensures Before(SecondLook(), k, i) <==> (k, i) in {(1, 2), (3, 4)}
  {
    var steps := SecondLook();
    assert IsBuilder(steps[0]) && IsBuilder(steps[2]);
  }

  lemma SecondLookIsSilent()
    ensures BuilderLintsSilent(SecondLook()) && ReviewLintsSilent(SecondLook())
  {
    hide Before, Issues;
    var steps := SecondLook();
    forall i: nat, k: nat | i < 5 ensures Before(steps, k, i) <==> (k, i) in {(1, 2), (3, 4)} {
      SecondLookBefore(i, k);
    }
    BuilderLintsAre(steps);
    ReviewsNameBuilders(steps);
    GuidesNameReviews(steps);
    GateKeepersNameReviews(steps);
    assert Hands(steps, 0, 1) && Hands(steps, 0, 3);
  }

  /** The latest Builder need not be the one on the path: a review may name an older one. */
  lemma LatestBuilderLeftOut()
    ensures BuilderLintsSilent(SecondLook()) && ReviewLintsSilent(SecondLook()) && !Reaches(SecondLook(), 2, 4)
  {
    hide Issues, BuilderLintsSilent, ReviewLintsSilent;
    SecondLookIsSilent();
    assert !Hands(SecondLook(), 2, 3) && !Hands(SecondLook(), 2, 4);
  }
}

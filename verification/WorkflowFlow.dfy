/** What silent lints guarantee: which steps a step names, and how handoffs join Builders to GateKeepers. */
module WorkflowFlow {
  import opened WorkflowLints

  // ----- Silence, step by step -----

  lemma {:induction false} SilentEverywhere(lint: Lint, steps: seq<Step>)
    ensures Issues(lint, steps) == [] <==> forall i :: 0 <= i < |steps| ==> IssuesAt(lint, steps[..i], steps[i]) == []
  {
    hide IssuesAt;
    if steps != [] {
      var before, n := steps[..|steps| - 1], |steps| - 1;
      SilentEverywhere(lint, before);
      assert forall i :: 0 <= i < n ==> before[..i] == steps[..i] && before[i] == steps[i];
    }
  }

  // ----- Steps since the latest Builder, by position -----

  /** Step k comes before step i, with no Builder from k on. */
  ghost predicate Before(steps: seq<Step>, k: nat, i: nat): (r: bool)
    ensures r ==> k < i <= |steps|
  {
    k < i <= |steps| && forall m :: k <= m < i ==> !IsBuilder(steps[m])
  }

  lemma SinceIs(steps: seq<Step>, i: nat)
    requires i <= |steps|
    ensures |Since(steps[..i])| <= i
    ensures forall k :: 0 <= k < |Since(steps[..i])| ==> Since(steps[..i])[k] == steps[i - |Since(steps[..i])| + k]
    ensures forall k: nat :: Before(steps, k, i) <==> i - |Since(steps[..i])| <= k < i
  {
    var latest := LatestBuilder(steps[..i]);
    assert latest >= 0 ==> IsBuilder(steps[latest]);
    assert forall k :: latest < k < i ==> steps[..i][k] == steps[k];
  }

  lemma {:induction false} ReviewIdsAre(steps: seq<Step>, id: string)
    ensures id in ReviewIds(steps) <==> exists k :: 0 <= k < |steps| && IsReview(steps[k]) && steps[k].id == id
  {
    if steps != [] {
      ReviewIdsAre(steps[..|steps| - 1], id);
      assert forall k :: 0 <= k < |steps| - 1 ==> steps[..|steps| - 1][k] == steps[k];
    }
  }

  lemma {:induction false} GuideIdsAre(steps: seq<Step>, id: string)
    ensures id in GuideIds(steps) <==> exists k :: 0 <= k < |steps| && IsGuide(steps[k]) && steps[k].id == id
  {
    if steps != [] {
      GuideIdsAre(steps[..|steps| - 1], id);
      assert forall k :: 0 <= k < |steps| - 1 ==> steps[..|steps| - 1][k] == steps[k];
    }
  }

  lemma {:induction false} BuilderIdsAre(steps: seq<Step>, id: string)
    ensures id in BuilderIds(steps) <==> exists k :: 0 <= k < |steps| && IsBuilder(steps[k]) && steps[k].id == id
  {
    if steps != [] {
      BuilderIdsAre(steps[..|steps| - 1], id);
      assert forall k :: 0 <= k < |steps| - 1 ==> steps[..|steps| - 1][k] == steps[k];
    }
  }

  lemma {:induction false} NonBlankAre(ids: seq<string>, id: string)
    ensures id in NonBlank(ids) <==> id in ids && id != ""
  {
    if ids != [] {
      NonBlankAre(ids[..|ids| - 1], id);
      assert ids == ids[..|ids| - 1] + [ids[|ids| - 1]];
    }
  }

  lemma {:induction false} MissingAre(ids: seq<string>, handoffs: set<string>, id: string)
    ensures id in Missing(ids, handoffs) <==> id in ids && id !in handoffs
  {
    if ids != [] {
      MissingAre(ids[..|ids| - 1], handoffs, id);
      assert ids == ids[..|ids| - 1] + [ids[|ids| - 1]];
    }
  }

  lemma NoneMissing(ids: seq<string>, handoffs: set<string>)
    ensures Missing(ids, handoffs) == [] <==> forall id :: id in ids ==> id in handoffs
  {
    hide Missing;
    forall id: string ensures id in Missing(ids, handoffs) <==> id in ids && id !in handoffs {
      MissingAre(ids, handoffs, id);
    }
    assert Missing(ids, handoffs) != [] ==> Missing(ids, handoffs)[0] in Missing(ids, handoffs);
  }

  lemma {:induction false} ReviewsAre(steps: seq<Step>, guides: bool, review: Review)
    ensures review in Reviews(steps, guides) <==>
      exists k :: 0 <= k < |steps| && Counts(steps[k], guides) && review == Review(steps[k].id, steps[k].archetype)
  {
    if steps != [] {
      ReviewsAre(steps[..|steps| - 1], guides, review);
      assert forall k :: 0 <= k < |steps| - 1 ==> steps[..|steps| - 1][k] == steps[k];
    }
  }

  /** The one-pass scanner of the Builder lints has collected what the two-pass helper finds. */
  lemma {:induction false} ScannersAgree(steps: seq<Step>)
    ensures NonBlank(ReviewIds(steps)) == Ids(Reviews(steps, false))
  {
    if steps != [] {
      var before, last := steps[..|steps| - 1], steps[|steps| - 1];
      ScannersAgree(before);
      if IsReview(last) {
        NonBlankNext(ReviewIds(before), last.id);
      } else {
        assert ReviewIds(steps) == ReviewIds(before);
      }
    }
  }

  // ----- The same facts by position in the workflow -----

  ghost predicate NamesReviews(steps: seq<Step>, i: nat, blanks: bool)
    requires i < |steps|
  {
    forall k: nat :: Before(steps, k, i) && IsReview(steps[k]) && (blanks || steps[k].id != "") ==>
        steps[k].id in steps[i].handoffs
  }

  ghost predicate HasReview(steps: seq<Step>, i: nat)
    requires i <= |steps|
  {
    exists k: nat :: Before(steps, k, i) && IsReview(steps[k])
  }

  ghost predicate HasGuide(steps: seq<Step>, i: nat, blanks: bool)
    requires i <= |steps|
  {
    exists k: nat :: Before(steps, k, i) && IsGuide(steps[k]) && (blanks || steps[k].id != "")
  }

  ghost predicate NamesGuide(steps: seq<Step>, i: nat)
    requires i < |steps|
  {
    exists k: nat :: Before(steps, k, i) && IsGuide(steps[k]) && steps[k].id != "" && steps[k].id in steps[i].handoffs
  }

  lemma ReviewIdsBefore(steps: seq<Step>, i: nat, id: string)
    requires i <= |steps|
    ensures id in ReviewIds(Since(steps[..i])) <==>
      exists k: nat :: Before(steps, k, i) && IsReview(steps[k]) && steps[k].id == id
  {
    hide Before, Since, ReviewIds;
    SinceIs(steps, i);
    var since := Since(steps[..i]);
    ReviewIdsAre(since, id);
    forall k: nat | Before(steps, k, i) ensures since[k - (i - |since|)] == steps[k] {
    }
  }

  lemma GuideIdsBefore(steps: seq<Step>, i: nat, id: string)
    requires i <= |steps|
    ensures id in GuideIds(Since(steps[..i])) <==>
      exists k: nat :: Before(steps, k, i) && IsGuide(steps[k]) && steps[k].id == id
  {
    hide Before, Since, GuideIds;
    SinceIs(steps, i);
    var since := Since(steps[..i]);
    GuideIdsAre(since, id);
    forall k: nat | Before(steps, k, i) ensures since[k - (i - |since|)] == steps[k] {
    }
  }

  lemma ReviewsBefore(steps: seq<Step>, i: nat, guides: bool, review: Review)
    requires i <= |steps|
    ensures review in Reviews(Since(steps[..i]), guides) <==>
      exists k: nat :: Before(steps, k, i) && Counts(steps[k], guides) &&
        review == Review(steps[k].id, steps[k].archetype)
  {
    hide Before, Since, Reviews, Counts;
    SinceIs(steps, i);
    var since := Since(steps[..i]);
    ReviewsAre(since, guides, review);
    forall k: nat | Before(steps, k, i) ensures since[k - (i - |since|)] == steps[k] {
    }
  }

  // ----- The Builder lints -----

  lemma BuilderReviewSilentAt(steps: seq<Step>, i: nat)
    requires i < |steps| && IsBuilder(steps[i])
    ensures IssuesAt(BuilderReview, steps[..i], steps[i]) == [] <==>
        HasGuide(steps, i, true) || NamesReviews(steps, i, true)
  {
    hide Before, Since, ReviewIds, GuideIds, Missing;
    var since := Since(steps[..i]);
    NoneMissing(ReviewIds(since), steps[i].handoffs);
    forall id: string
      ensures id in ReviewIds(since) <==>
        exists k: nat :: Before(steps, k, i) && IsReview(steps[k]) && steps[k].id == id
    {
      ReviewIdsBefore(steps, i, id);
    }
    if GuideIds(since) != [] {
      GuideIdsBefore(steps, i, GuideIds(since)[0]);
    }
    if k: nat :| Before(steps, k, i) && IsGuide(steps[k]) {
      GuideIdsBefore(steps, i, steps[k].id);
    }
  }

  lemma NamedBefore(steps: seq<Step>, i: nat)
    requires i < |steps|
    ensures NamedGuides(steps[..i]) != [] <==> HasGuide(steps, i, false)
    ensures NamesOne(steps[i].handoffs, NamedGuides(steps[..i])) <==> NamesGuide(steps, i)
    ensures Missing(NamedReviews(steps[..i]), steps[i].handoffs) == [] <==> NamesReviews(steps, i, false)
  {
    hide Before, Since, ReviewIds, GuideIds, Missing, NonBlank;
    var guides, reviews := NamedGuides(steps[..i]), NamedReviews(steps[..i]);
    NoneMissing(reviews, steps[i].handoffs);
    forall id: string
      ensures id in reviews <==>
        id != "" && exists k: nat :: Before(steps, k, i) && IsReview(steps[k]) && steps[k].id == id
      ensures id in guides <==>
        id != "" && exists k: nat :: Before(steps, k, i) && IsGuide(steps[k]) && steps[k].id == id
    {
      ReviewIdsBefore(steps, i, id);
      GuideIdsBefore(steps, i, id);
      NonBlankAre(ReviewIds(Since(steps[..i])), id);
      NonBlankAre(GuideIds(Since(steps[..i])), id);
    }
    assert guides != [] ==> guides[0] in guides;
    if k: nat :| Before(steps, k, i) && IsGuide(steps[k]) && steps[k].id != "" {
      assert steps[k].id in guides;
    }
    if n :| 0 <= n < |guides| && guides[n] in steps[i].handoffs {
      assert guides[n] in guides;
    }
    if k: nat :| Before(steps, k, i) && IsGuide(steps[k]) && steps[k].id != "" && steps[k].id in steps[i].handoffs {
      assert steps[k].id in guides;
    }
  }

  lemma BuilderGuideSilentAt(steps: seq<Step>, i: nat)
    requires i < |steps| && IsBuilder(steps[i])
    ensures IssuesAt(BuilderGuide, steps[..i], steps[i]) == [] <==>
      (HasGuide(steps, i, false) ==> NamesGuide(steps, i) && NamesReviews(steps, i, false))
  {
    hide NamedGuides, NamedReviews, Missing, NamesOne, Since, NamesReviews, HasGuide, NamesGuide;
    NamedBefore(steps, i);
  }

  ghost predicate BuilderLintsSilent(steps: seq<Step>) {
    Issues(BuilderReview, steps) == [] && Issues(BuilderGuide, steps) == []
  }

  /** What the two Builder lints ask of one Builder together. */
  ghost predicate BuilderClear(steps: seq<Step>, i: nat)
    requires i < |steps|
  {
    && (HasGuide(steps, i, true) || NamesReviews(steps, i, true))
    && (HasGuide(steps, i, false) ==> NamesGuide(steps, i) && NamesReviews(steps, i, false))
  }

  lemma BuilderLintsAre(steps: seq<Step>)
    ensures BuilderLintsSilent(steps) <==>
      forall i: nat :: i < |steps| && IsBuilder(steps[i]) ==> BuilderClear(steps, i)
  {
    hide IssuesAt, Issues, BuilderClear;
    SilentEverywhere(BuilderReview, steps);
    SilentEverywhere(BuilderGuide, steps);
    forall i: nat | i < |steps|
      ensures
        && IssuesAt(BuilderReview, steps[..i], steps[i]) == []
        && IssuesAt(BuilderGuide, steps[..i], steps[i]) == []
        <==> (IsBuilder(steps[i]) ==> BuilderClear(steps, i))
    {
      BuilderClearAt(steps, i);
    }
  }

  lemma BuilderClearAt(steps: seq<Step>, i: nat)
    requires i < |steps|
    ensures
      && IssuesAt(BuilderReview, steps[..i], steps[i]) == []
      && IssuesAt(BuilderGuide, steps[..i], steps[i]) == []
      <==> (IsBuilder(steps[i]) ==> BuilderClear(steps, i))
  {
    hide HasGuide, NamesReviews, NamesGuide;
    if IsBuilder(steps[i]) {
      BuilderReviewSilentAt(steps, i);
      BuilderGuideSilentAt(steps, i);
    }
  }

  ghost predicate AllNamed(steps: seq<Step>) {
    forall k :: 0 <= k < |steps| ==> steps[k].id != ""
  }

  /** With ids everywhere, the two Builder lints are silent exactly when every Builder names every review since
      the previous Builder, and a Guide too when there was one. */
  lemma BuildersNameReviews(steps: seq<Step>)
    requires AllNamed(steps)
    ensures BuilderLintsSilent(steps) <==>
      forall i: nat :: i < |steps| && IsBuilder(steps[i]) ==>
        NamesReviews(steps, i, true) && (HasGuide(steps, i, true) ==> NamesGuide(steps, i))
  {
    hide HasGuide, NamesReviews, NamesGuide;
    BuilderLintsAre(steps);
    forall i: nat | i < |steps|
      ensures BuilderClear(steps, i) <==>
        NamesReviews(steps, i, true) && (HasGuide(steps, i, true) ==> NamesGuide(steps, i))
    {
      BlanksAside(steps, i);
    }
  }

  lemma BlanksAside(steps: seq<Step>, i: nat)
    requires AllNamed(steps) && i < |steps|
    ensures HasGuide(steps, i, true) <==> HasGuide(steps, i, false)
    ensures NamesReviews(steps, i, true) <==> NamesReviews(steps, i, false)
  {
    hide Before;
  }

  ghost predicate HasNamedReview(steps: seq<Step>, i: nat)
    requires i <= |steps|
  {
    exists k: nat :: Before(steps, k, i) && IsReview(steps[k]) && steps[k].id != ""
  }

  /** Without that, a Guide with a blank id silences one lint and is skipped by the other: whatever a Builder
      names, silence makes it name all reviews with an id exactly when its Guides, if any, include one with an id, or
      there is no such review. */
  lemma BlankGuideHidesReviews(steps: seq<Step>, i: nat)
    requires i < |steps| && IsBuilder(steps[i])
    ensures
      (forall h: set<string> :: BuilderClear(steps[i := steps[i].(handoffs := h)], i) ==>
         NamesReviews(steps[i := steps[i].(handoffs := h)], i, false))
      <==>
      (HasGuide(steps, i, true) ==> HasGuide(steps, i, false) || !HasNamedReview(steps, i))
  {
    hide NamesGuide;
    forall h: set<string>
      ensures var t := steps[i := steps[i].(handoffs := h)];
        && (forall k: nat :: Before(t, k, i) <==> Before(steps, k, i))
        && (HasGuide(t, i, true) <==> HasGuide(steps, i, true))
        && (HasGuide(t, i, false) <==> HasGuide(steps, i, false))
        && (!HasNamedReview(steps, i) ==> NamesReviews(t, i, false))
        && (NamesReviews(t, i, true) ==> NamesReviews(t, i, false))
    {
      SameBefore(steps, i, h);
    }
    var bare := steps[i := steps[i].(handoffs := {})];
    if HasGuide(steps, i, true) && !HasGuide(steps, i, false) && HasNamedReview(steps, i) {
      assert BuilderClear(bare, i);
      assert !NamesReviews(bare, i, false);
    }
  }

  /** A Guide without an id between a review and a Builder that names nothing: neither lint objects. */
  lemma BlankGuideExample()
    ensures var steps := [
        Step("build", "builder", {}, {}, "", false), Step("review", "inspector", {}, {}, "", false),
        Step("", "guide", {}, {}, "", false), Step("repair", "builder", {}, {}, "", false)];
      BuilderLintsSilent(steps) && !NamesReviews(steps, 3, false)
  {
    var steps := [
      Step("build", "builder", {}, {}, "", false), Step("review", "inspector", {}, {}, "", false),
      Step("", "guide", {}, {}, "", false), Step("repair", "builder", {}, {}, "", false)];
    BuilderLintsAre(steps);
    assert Before(steps, 1, 3) && Before(steps, 2, 3) && !Before(steps, 0, 3);
    assert forall k: nat :: !Before(steps, k, 0);
  }

  lemma SameBefore(steps: seq<Step>, i: nat, h: set<string>)
    requires i < |steps|
    ensures var t := steps[i := steps[i].(handoffs := h)];
      forall k: nat :: Before(t, k, i) <==> Before(steps, k, i)
  {
    var t := steps[i := steps[i].(handoffs := h)];
    assert forall m :: 0 <= m < i ==> t[m] == steps[m];
  }

  /** Both Builder memory lints are silent exactly when every Builder that follows a review or a Guide
      since the previous Builder carries the iteration summary. */
  lemma BuildersCarrySummary(steps: seq<Step>)
    ensures Issues(BuilderReviewMemory, steps) == [] && Issues(BuilderGuideMemory, steps) == [] <==>
      forall i: nat :: i < |steps| && IsBuilder(steps[i]) && (HasReview(steps, i) || HasGuide(steps, i, true)) ==>
        steps[i].memory == "summary_only"
  {
    hide HasReview, HasGuide, IssuesAt, Issues;
    SilentEverywhere(BuilderReviewMemory, steps);
    SilentEverywhere(BuilderGuideMemory, steps);
    forall i: nat | i < |steps|
      ensures
        && IssuesAt(BuilderReviewMemory, steps[..i], steps[i]) == []
        && IssuesAt(BuilderGuideMemory, steps[..i], steps[i]) == []
        <==> (IsBuilder(steps[i]) && (HasReview(steps, i) || HasGuide(steps, i, true)) ==>
                steps[i].memory == "summary_only")
    {
      BuilderMemoryAt(steps, i);
    }
  }

  lemma BuilderMemoryAt(steps: seq<Step>, i: nat)
    requires i < |steps|
    ensures
      && IssuesAt(BuilderReviewMemory, steps[..i], steps[i]) == []
      && IssuesAt(BuilderGuideMemory, steps[..i], steps[i]) == []
      <==> (IsBuilder(steps[i]) && (HasReview(steps, i) || HasGuide(steps, i, true)) ==>
              steps[i].memory == "summary_only")
  {
    hide HasReview, HasGuide, Since, ReviewIds, GuideIds;
    SomeBefore(steps, i);
  }

  lemma SomeBefore(steps: seq<Step>, i: nat)
    requires i < |steps|
    ensures ReviewIds(Since(steps[..i])) != [] <==> HasReview(steps, i)
    ensures GuideIds(Since(steps[..i])) != [] <==> HasGuide(steps, i, true)
  {
    hide Before, Since, ReviewIds, GuideIds;
    var since := Since(steps[..i]);
    if ReviewIds(since) != [] {
      ReviewIdsBefore(steps, i, ReviewIds(since)[0]);
    }
    if k: nat :| Before(steps, k, i) && IsReview(steps[k]) {
      ReviewIdsBefore(steps, i, steps[k].id);
    }
    if GuideIds(since) != [] {
      GuideIdsBefore(steps, i, GuideIds(since)[0]);
    }
    if k: nat :| Before(steps, k, i) && IsGuide(steps[k]) {
      GuideIdsBefore(steps, i, steps[k].id);
    }
  }
}

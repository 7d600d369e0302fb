/**
 * The admin submissions dashboard: the assignment filter and the four analytics cards
 * (total, average, highest and lowest score) computed over the filtered submissions.
 */
module SubmissionsDashboard {
  import opened Wrappers
  import opened Lists
  import opened SubmissionSchema

  /** The filter value that shows every submission; it is also the initial selection. */
  const AllAssignments := "All Assignments"

  function ForTitle(title: string): Submission -> bool {
    (s: Submission) => s.assignmentTitle == title
  }

  /** `filteredSubmissions`. */
  function FilteredSubmissions(subs: seq<Submission>, selected: string): (r: seq<Submission>)
    ensures selected == AllAssignments ==> r == subs
    ensures selected != AllAssignments ==>
              && (forall i :: 0 <= i < |r| ==> r[i].assignmentTitle == selected && r[i] in subs)
              && (forall i :: 0 <= i < |subs| && subs[i].assignmentTitle == selected ==> subs[i] in r)
  {
    if selected == AllAssignments then subs else Filter(subs, ForTitle(selected))
  }

  function IsGraded(s: Submission): bool {
    s.score.Some?
  }

  /** The scores of the graded submissions, in order: one score per graded submission. */
  function Scores(subs: seq<Submission>): (r: seq<int>)
    ensures |r| == |Filter(subs, IsGraded)|
    ensures forall i :: 0 <= i < |r| ==> Filter(subs, IsGraded)[i].score == Some(r[i])
    ensures forall i :: 0 <= i < |subs| && subs[i].score.Some? ==> subs[i].score.value in r
    ensures forall i :: 0 <= i < |r| ==> exists j :: 0 <= j < |subs| && subs[j].score == Some(r[i])
  {
    if subs == [] then []
    else
      var rest := Scores(subs[1..]);
      assert forall i :: 0 <= i < |rest| ==> exists j :: 0 <= j < |subs| && subs[j].score == Some(rest[i]) by {
        forall i | 0 <= i < |rest|
          ensures exists j :: 0 <= j < |subs| && subs[j].score == Some(rest[i])
        {
          var j :| 0 <= j < |subs[1..]| && subs[1..][j].score == Some(rest[i]);
          assert subs[j + 1].score == Some(rest[i]);
        }
      }
      (if subs[0].score.Some? then [subs[0].score.value] else []) + rest
  }

  function Sum(xs: seq<int>): int {
    if xs == [] then 0 else xs[0] + Sum(xs[1..])
  }

  /** `Math.max(...xs)` on a non-empty list. */
  function Max(xs: seq<int>): (m: int)
    requires xs != []
    ensures m in xs
    ensures forall i :: 0 <= i < |xs| ==> xs[i] <= m
  {
    if |xs| == 1 then xs[0]
    else
      var rest := Max(xs[1..]);
      assert forall i :: 1 <= i < |xs| ==> xs[i] == xs[1..][i - 1];
      if xs[0] >= rest then xs[0] else rest
  }

  /** `Math.min(...xs)` on a non-empty list. */
  function Min(xs: seq<int>): (m: int)
    requires xs != []
    ensures m in xs
    ensures forall i :: 0 <= i < |xs| ==> m <= xs[i]
  {
    if |xs| == 1 then xs[0]
    else
      var rest := Min(xs[1..]);
      assert forall i :: 1 <= i < |xs| ==> xs[i] == xs[1..][i - 1];
      if xs[0] <= rest then xs[0] else rest
  }

  /** The score statistics: the average is `sum / count`, shown to one decimal place. */
  datatype Stats = Stats(sum: int, count: nat, highest: int, lowest: int)

  /** The cards' values; `graded == None` is the "N/A" shown when no filtered submission has a score. */
  datatype Analytics = Analytics(total: nat, graded: Option<Stats>)

  function ScoreStats(scores: seq<int>): Option<Stats> {
    if scores == [] then None else Some(Stats(Sum(scores), |scores|, Max(scores), Min(scores)))
  }

  /** `analytics`, over the filtered list. */
  function ComputeAnalytics(filtered: seq<Submission>): (a: Analytics)
    ensures a.total == |filtered|
    ensures a.graded.None? <==> forall i :: 0 <= i < |filtered| ==> filtered[i].score.None?
    ensures a.graded.Some? ==> && a.graded.value.count == |Filter(filtered, IsGraded)|
                               && a.graded.value.sum == GradedSum(filtered)
                               && a.graded.value.lowest <= a.graded.value.highest
  {
    ScoresSum(filtered);
    var scores := Scores(filtered);
    assert scores != [] ==> Min(scores) <= scores[0] <= Max(scores);
    Analytics(|filtered|, ScoreStats(scores))
  }

  /** The sum of the graded scores, an ungraded submission adding nothing. */
  function GradedSum(subs: seq<Submission>): int {
    if subs == [] then 0
    else (if subs[0].score.Some? then subs[0].score.value else 0) + GradedSum(subs[1..])
  }

  lemma {:induction false} ScoresSum(subs: seq<Submission>)
    ensures Sum(Scores(subs)) == GradedSum(subs)
  {
    if subs != [] {
      var rest := Scores(subs[1..]);
      ScoresSum(subs[1..]);
      if subs[0].score.Some? {
        assert Scores(subs) == [subs[0].score.value] + rest;
        assert ([subs[0].score.value] + rest)[1..] == rest;
      } else {
        assert Scores(subs) == rest;
      }
    }
  }

  /**
   * What the cards show: the total counts every filtered submission; the average's sum and count,
   * the highest and the lowest come only from graded ones.
   */
  lemma AnalyticsMeaning(subs: seq<Submission>, selected: string)
    ensures var filtered := FilteredSubmissions(subs, selected);
            var a := ComputeAnalytics(filtered);
            && a.total == |filtered|
            && (a.graded.None? <==> forall i :: 0 <= i < |filtered| ==> filtered[i].score.None?)
            && (a.graded.Some? ==>
                  && a.graded.value.count == |Filter(filtered, IsGraded)|
                  && a.graded.value.sum == GradedSum(filtered)
                  && a.graded.value.lowest <= a.graded.value.highest
                  && 0 < a.graded.value.count <= a.total
                  && (forall i :: 0 <= i < |filtered| && filtered[i].score.Some? ==>
                        a.graded.value.lowest <= filtered[i].score.value <= a.graded.value.highest)
                  && (exists i :: 0 <= i < |filtered| && filtered[i].score == Some(a.graded.value.highest))
                  && (exists i :: 0 <= i < |filtered| && filtered[i].score == Some(a.graded.value.lowest)))
  {
    var filtered := FilteredSubmissions(subs, selected);
    var scores := Scores(filtered);
    ScoresSum(filtered);
    if scores != [] {
      var hi := Max(scores);
      var lo := Min(scores);
      var ih :| 0 <= ih < |scores| && scores[ih] == hi;
      var il :| 0 <= il < |scores| && scores[il] == lo;
      assert lo <= scores[0] <= hi;
    }
  }

  /** An ungraded submission adds to the total and leaves every score card as it was. */
  lemma {:induction false} UngradedLeavesScores(subs: seq<Submission>, s: Submission)
    requires s.score.None?
    ensures ComputeAnalytics(subs + [s]).total == ComputeAnalytics(subs).total + 1
    ensures ComputeAnalytics(subs + [s]).graded == ComputeAnalytics(subs).graded
  {
    ScoresAppendUngraded(subs, s);
  }

  lemma {:induction false} ScoresAppendUngraded(subs: seq<Submission>, s: Submission)
    requires s.score.None?
    ensures Scores(subs + [s]) == Scores(subs)
  {
    if subs == [] {
      assert Scores([s]) == [] + Scores([]);
    } else {
      assert (subs + [s])[1..] == subs[1..] + [s];
      ScoresAppendUngraded(subs[1..], s);
    }
  }

  /** With a single assignment selected, the total counts exactly that assignment's submissions. */
  lemma {:induction false} TotalsSplitByTitle(subs: seq<Submission>, title: string)
    requires title != AllAssignments
    ensures ComputeAnalytics(FilteredSubmissions(subs, title)).total
            + |Filter(subs, (s: Submission) => s.assignmentTitle != title)| == |subs|
  {
    FilterSplit(subs, (s: Submission) => s.assignmentTitle != title, ForTitle(title));
  }
}

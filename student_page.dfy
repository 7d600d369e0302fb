/**
 * The student's "My Assignments" page: once auth has settled and a user is present it fetches
 * the Published assignments and splits them by due date into active and past lists.
 */
module StudentPage {
  import opened Wrappers
  import opened Lists
  import opened AssignmentSchema
  import opened AssignmentData

  /**
   * `new Date(a.dueDate)` as an instant: `instantOf` stands for the date parser, and `None` for
   * an unparseable date (an Invalid Date, which compares false with every instant).
   */
  function DueInstant(instantOf: string -> Option<int>, a: Assignment): Option<int> {
    instantOf(a.dueDate)
  }

  /** `new Date(a.dueDate) >= now`: an assignment due exactly now is still active. */
  function IsActive(instantOf: string -> Option<int>, now: int): Assignment -> bool {
    (a: Assignment) => DueInstant(instantOf, a).Some? && DueInstant(instantOf, a).value >= now
  }

  /** `new Date(a.dueDate) < now`. */
  function IsPast(instantOf: string -> Option<int>, now: int): Assignment -> bool {
    (a: Assignment) => DueInstant(instantOf, a).Some? && DueInstant(instantOf, a).value < now
  }

  function Active(instantOf: string -> Option<int>, now: int, fetched: seq<Assignment>): seq<Assignment> {
    Filter(fetched, IsActive(instantOf, now))
  }

  function Past(instantOf: string -> Option<int>, now: int, fetched: seq<Assignment>): seq<Assignment> {
    Filter(fetched, IsPast(instantOf, now))
  }

  /**
   * A fetched assignment with a parseable due date is in exactly one of the lists, the active
   * one iff it is due at or after `now`; one whose date does not parse is in neither.
   */
  lemma PartitionPlacement(instantOf: string -> Option<int>, now: int, fetched: seq<Assignment>, i: int)
    requires 0 <= i < |fetched|
    ensures instantOf(fetched[i].dueDate).Some? ==>
              (fetched[i] in Active(instantOf, now, fetched) <==> instantOf(fetched[i].dueDate).value >= now)
              && (fetched[i] in Past(instantOf, now, fetched) <==> instantOf(fetched[i].dueDate).value < now)
    ensures instantOf(fetched[i].dueDate).None? ==>
              fetched[i] !in Active(instantOf, now, fetched) && fetched[i] !in Past(instantOf, now, fetched)
  {
    var a := fetched[i];
    var act := Active(instantOf, now, fetched);
    var past := Past(instantOf, now, fetched);
    if a in act {
      var j :| 0 <= j < |act| && act[j] == a;
    }
    if a in past {
      var j :| 0 <= j < |past| && past[j] == a;
    }
  }

  /** When every due date parses, the two lists together have as many entries as were fetched. */
  lemma PartitionCount(instantOf: string -> Option<int>, now: int, fetched: seq<Assignment>)
    requires forall i :: 0 <= i < |fetched| ==> instantOf(fetched[i].dueDate).Some?
    ensures |Active(instantOf, now, fetched)| + |Past(instantOf, now, fetched)| == |fetched|
  {
    FilterSplit(fetched, IsActive(instantOf, now), IsPast(instantOf, now));
  }

  /** Both lists keep the fetched order: splitting the fetched list splits each list the same way. */
  lemma PartitionKeepsOrder(instantOf: string -> Option<int>, now: int, front: seq<Assignment>, back: seq<Assignment>)
    ensures Active(instantOf, now, front + back) == Active(instantOf, now, front) + Active(instantOf, now, back)
    ensures Past(instantOf, now, front + back) == Past(instantOf, now, front) + Past(instantOf, now, back)
  {
    FilterAppend(front, back, IsActive(instantOf, now));
    FilterAppend(front, back, IsPast(instantOf, now));
  }

  /** Only Published assignments are shown, whichever list they land in. */
  lemma OnlyPublishedListed(instantOf: string -> Option<int>, now: int, rows: seq<Assignment>, i: int)
    requires 0 <= i < |Active(instantOf, now, Read(rows, true))| + |Past(instantOf, now, Read(rows, true))|
    ensures var act := Active(instantOf, now, Read(rows, true));
            var past := Past(instantOf, now, Read(rows, true));
            (if i < |act| then act[i] else past[i - |act|]).status == Published
  {
    var fetched := Read(rows, true);
    var act := Active(instantOf, now, fetched);
    var past := Past(instantOf, now, fetched);
    var a := if i < |act| then act[i] else past[i - |act|];
    assert a in fetched;
    var j :| 0 <= j < |fetched| && fetched[j] == a;
  }

  /** What the page renders. */
  datatype View = LoadingAssignments | LoginPrompt | Dashboard(active: seq<Assignment>, past: seq<Assignment>)

  class StudentPage {
    var active: seq<Assignment>
    var past: seq<Assignment>
    var pageLoading: bool

    /**
     * `pageLoading` starts true and only a fetch clears it: without a user the page keeps its
     * loading text, and the login prompt can appear only after a user was once present.
     */
    constructor ()
      ensures active == [] && past == [] && pageLoading
    {
      active := [];
      past := [];
      pageLoading := true;
    }

    /**
     * The effect run on a change of `user` or `loading`: it fetches only when auth is not loading
     * and a user is present; otherwise nothing changes, `pageLoading` included.
     */
    method Effect(table: AssignmentTable, loading: bool, hasUser: bool, now: int, instantOf: string -> Option<int>)
      requires table.Valid()
      modifies this
      ensures loading || !hasUser ==> active == old(active) && past == old(past) && pageLoading == old(pageLoading)
      ensures !loading && hasUser ==>
                && active == Active(instantOf, now, Read(table.rows, true))
                && past == Past(instantOf, now, Read(table.rows, true))
                && !pageLoading
    {
      if !loading && hasUser {
        pageLoading := true;
        var all := table.GetAssignments(true);
        active := Filter(all, IsActive(instantOf, now));
        past := Filter(all, IsPast(instantOf, now));
        pageLoading := false;
      }
    }

    /** The render: the loading text while either flag is set, then the login prompt or the dashboard. */
    function Render(loading: bool, hasUser: bool): (v: View)
      reads this
      ensures v == LoadingAssignments <==> loading || pageLoading
      ensures v == LoginPrompt <==> !loading && !pageLoading && !hasUser
      ensures v.Dashboard? ==> v.active == active && v.past == past
    {
      if loading || pageLoading then LoadingAssignments
      else if !hasUser then LoginPrompt
      else Dashboard(active, past)
    }
  }
}

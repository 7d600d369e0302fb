/**
 * The in-memory assignment table: a module-level list that the store functions change in
 * place, finding records by id with `findIndex`. The functions below say what each store
 * call leaves in the table; the class `AssignmentTable` holds the list and performs them.
 */
module AssignmentData {
  import opened Wrappers
  import opened Text
  import opened Lists
  import opened Zod
  import opened AssignmentSchema

  const Placeholder := "/placeholder.pdf"
  const NotFoundMessage := "Assignment not found"

  /** What a store call throws: the schema's `ZodError`, or `Error("Assignment not found")`. */
  datatype StoreError = Invalid(issues: seq<string>) | NotFound(message: string)

  /** The id given to a record added to a table of `count` records: "ASN" and `count + 1` padded to three digits. */
  function NewAssignmentId(count: nat): string {
    "ASN" + PadStart(Decimal(count + 1), 3, '0')
  }

  /** Tables of different lengths hand out different ids. */
  lemma NewAssignmentIdInjective(m: nat, n: nat)
    requires NewAssignmentId(m) == NewAssignmentId(n)
    ensures m == n
  {
    var pm, pn := PadStart(Decimal(m + 1), 3, '0'), PadStart(Decimal(n + 1), 3, '0');
    assert pm == ("ASN" + pm)[3..];
    assert pn == ("ASN" + pn)[3..];
    PaddedDecimalInjective(m + 1, n + 1, 3);
  }

  /** The plain object a stored record is when it is handed back to `assignmentSchema.parse`. */
  function ToInput(a: Assignment): AssignmentInput {
    AssignmentInput(Str(a.id), Str(a.title), Str(a.description), Str(a.dueDate),
                    if a.fileUrl.Some? then Str(a.fileUrl.value) else Missing,
                    Str(StatusName(a.status)), Num(a.submissions))
  }

  predicate FileUrlAccepted(isUrl: string -> bool, u: Option<string>) {
    u.None? || isUrl(u.value) || StartsWith(u.value, "/")
  }

  /** A typed record re-parses to itself exactly when its lengths and its file reference pass. */
  lemma {:induction false} Reparse(isUrl: string -> bool, a: Assignment)
    ensures ParseAssignment(isUrl, ToInput(a)).Ok? <==>
            |a.title| >= 3 && |a.description| >= 10 && FileUrlAccepted(isUrl, a.fileUrl)
    ensures ParseAssignment(isUrl, ToInput(a)).Ok? ==> ParseAssignment(isUrl, ToInput(a)).value == a
  {
    var r := ParseAssignment(isUrl, ToInput(a));
    if r.Ok? {
      assert StatusName(r.value.status) == StatusName(a.status);
      assert r.value.status == a.status by {
        match a.status
        case Draft =>
        case Published => assert StatusName(r.value.status) == "Published";
      }
    }
  }

  /** What every record in the table satisfies: it passed the schema, and its file is a site path. */
  predicate Stored(a: Assignment) {
    |a.title| >= 3 && |a.description| >= 10 && (a.fileUrl.None? || StartsWith(a.fileUrl.value, "/"))
  }

  function HasId(id: string): Assignment -> bool {
    (a: Assignment) => a.id == id
  }

  const IsPublished: Assignment -> bool := (a: Assignment) => a.status == Published

  /** `getAssignments`: every record in table order, or with `publishedOnly` the Published ones in table order. */
  function Read(rows: seq<Assignment>, publishedOnly: bool): (r: seq<Assignment>)
    ensures !publishedOnly ==> r == rows
    ensures publishedOnly ==> forall i :: 0 <= i < |r| ==> r[i] in rows && r[i].status == Published
    ensures publishedOnly ==> forall i :: 0 <= i < |rows| && rows[i].status == Published ==> rows[i] in r
  {
    if publishedOnly then Filter(rows, IsPublished) else rows
  }

  /** The record `addMockAssignment` builds before validating it. */
  function NewRecord(count: nat, d: AssignmentDraft): Assignment {
    Assignment(NewAssignmentId(count), d.title, d.description, d.dueDate, Some(Placeholder), d.status, 0)
  }

  /**
   * `addMockAssignment`: validate the new record, then put it in front. It fails, leaving the
   * table as it was, exactly when the title or the description is too short.
   */
  function AfterAdd(isUrl: string -> bool, rows: seq<Assignment>, d: AssignmentDraft): (r: Result<seq<Assignment>, StoreError>)
    ensures r.Ok? <==> |d.title| >= 3 && |d.description| >= 10
    ensures r.Ok? ==> |r.value| == |rows| + 1 && r.value[1..] == rows
    ensures r.Ok? ==> && r.value[0].id == NewAssignmentId(|rows|) && r.value[0].submissions == 0
                      && r.value[0].fileUrl == Some(Placeholder)
                      && r.value[0].title == d.title && r.value[0].description == d.description
                      && r.value[0].dueDate == d.dueDate && r.value[0].status == d.status
    ensures r.Err? ==> r.error.Invalid? && (|d.title| < 3 ==> TitleMessage in r.error.issues)
  {
    var record := NewRecord(|rows|, d);
    Reparse(isUrl, record);
    match ParseAssignment(isUrl, ToInput(record))
    case Err(issues) =>
      assert |d.title| < 3 ==> TitleMessage in issues by {
        if |d.title| < 3 { ShortTitleMessage(isUrl, ToInput(record)); }
      }
      Err(Invalid(issues))
    case Ok(v) => Ok([v] + rows)
  }

  /** `{ ...existing, ...updatedData }`: the update's fields over the old record, which keeps its count and file. */
  function Merge(existing: Assignment, e: AssignmentEdit): Assignment {
    existing.(id := e.id, title := e.title, description := e.description, dueDate := e.dueDate, status := e.status)
  }

  /**
   * `updateMockAssignment`: the first record with the id is replaced by the merge, once the
   * merge passes the schema; no other index changes. An unknown id fails with "Assignment not found".
   */
  function AfterUpdate(isUrl: string -> bool, rows: seq<Assignment>, id: string, e: AssignmentEdit): (r: Result<seq<Assignment>, StoreError>)
    ensures FirstIndex(rows, HasId(id)) == -1 ==> r == Err(NotFound(NotFoundMessage))
    ensures r.Ok? <==> && FirstIndex(rows, HasId(id)) >= 0 && |e.title| >= 3 && |e.description| >= 10
                       && FileUrlAccepted(isUrl, rows[FirstIndex(rows, HasId(id))].fileUrl)
    ensures r.Ok? ==> var k := FirstIndex(rows, HasId(id));
                      && |r.value| == |rows|
                      && (forall j :: 0 <= j < |rows| && j != k ==> r.value[j] == rows[j])
                      && r.value[k].id == e.id && r.value[k].title == e.title
                      && r.value[k].description == e.description && r.value[k].dueDate == e.dueDate
                      && r.value[k].status == e.status
                      && r.value[k].submissions == rows[k].submissions && r.value[k].fileUrl == rows[k].fileUrl
  {
    var k := FirstIndex(rows, HasId(id));
    if k == -1 then Err(NotFound(NotFoundMessage))
    else
      var merged := Merge(rows[k], e);
      Reparse(isUrl, merged);
      match ParseAssignment(isUrl, ToInput(merged))
      case Err(issues) => Err(Invalid(issues))
      case Ok(v) => Ok(rows[k := v])
  }

  /** `updateMockAssignmentStatus`: only the status of the first record with the id changes. */
  function AfterSetStatus(rows: seq<Assignment>, id: string, status: Status): (r: Result<seq<Assignment>, StoreError>)
    ensures r.Ok? <==> FirstIndex(rows, HasId(id)) >= 0
    ensures r.Err? ==> r.error == NotFound(NotFoundMessage)
    ensures r.Ok? ==> var k := FirstIndex(rows, HasId(id));
                      && |r.value| == |rows| && r.value[k] == rows[k].(status := status)
                      && forall j :: 0 <= j < |rows| && j != k ==> r.value[j] == rows[j]
  {
    var k := FirstIndex(rows, HasId(id));
    if k == -1 then Err(NotFound(NotFoundMessage))
    else Ok(rows[k := rows[k].(status := status)])
  }

  /** `deleteMockAssignment`: the first record with the id is spliced out. */
  function AfterDelete(rows: seq<Assignment>, id: string): (r: Result<seq<Assignment>, StoreError>)
    ensures r.Ok? <==> FirstIndex(rows, HasId(id)) >= 0
    ensures r.Err? ==> r.error == NotFound(NotFoundMessage)
    ensures r.Ok? ==> r.value == RemoveAt(rows, FirstIndex(rows, HasId(id)))
  {
    var k := FirstIndex(rows, HasId(id));
    if k == -1 then Err(NotFound(NotFoundMessage)) else Ok(RemoveAt(rows, k))
  }

  /** Setting a status twice is the same as setting it once; setting the current one changes nothing. */
  lemma SetStatusIdempotent(rows: seq<Assignment>, id: string, status: Status)
    requires AfterSetStatus(rows, id, status).Ok?
    ensures AfterSetStatus(AfterSetStatus(rows, id, status).value, id, status) == AfterSetStatus(rows, id, status)
    ensures rows[FirstIndex(rows, HasId(id))].status == status ==> AfterSetStatus(rows, id, status) == Ok(rows)
  {
    var k := FirstIndex(rows, HasId(id));
    var once := AfterSetStatus(rows, id, status).value;
    FirstIndexUpdate(rows, HasId(id), k, rows[k].(status := status));
    assert once[k := once[k].(status := status)] == once;
    if rows[k].status == status {
      assert rows[k := rows[k].(status := status)] == rows;
    }
  }

  /** Publishing a Draft record adds one to the published read; unpublishing a Published one takes one away. */
  lemma SetStatusPublishedCount(rows: seq<Assignment>, id: string, status: Status)
    requires AfterSetStatus(rows, id, status).Ok?
    ensures var k := FirstIndex(rows, HasId(id));
            |Read(AfterSetStatus(rows, id, status).value, true)| ==
            |Read(rows, true)| - (if rows[k].status == Published then 1 else 0)
                               + (if status == Published then 1 else 0)
    ensures status == Published ==>
            rows[FirstIndex(rows, HasId(id))].(status := Published) in Read(AfterSetStatus(rows, id, status).value, true)
  {
    var k := FirstIndex(rows, HasId(id));
    var after := AfterSetStatus(rows, id, status).value;
    assert after == rows[k := rows[k].(status := status)];
    FilterReplaceLength(rows, k, rows[k].(status := status), IsPublished);
  }

  /** A new Published record shows first in the published read; a new Draft does not show. */
  lemma AddPublishedRead(isUrl: string -> bool, rows: seq<Assignment>, d: AssignmentDraft)
    requires AfterAdd(isUrl, rows, d).Ok?
    ensures var after := AfterAdd(isUrl, rows, d).value;
            Read(after, true) == (if d.status == Published then [after[0]] else []) + Read(rows, true)
  {
    var after := AfterAdd(isUrl, rows, d).value;
    assert after[1..] == rows;
  }

  /** Deleting a record takes it out of the published read count exactly when it was Published. */
  lemma DeletePublishedCount(rows: seq<Assignment>, id: string)
    requires AfterDelete(rows, id).Ok?
    ensures |Read(AfterDelete(rows, id).value, true)| ==
            |Read(rows, true)| - (if rows[FirstIndex(rows, HasId(id))].status == Published then 1 else 0)
  {
    FilterRemoveLength(rows, FirstIndex(rows, HasId(id)), IsPublished);
  }

  /** When every record is Published, the published read is the whole table. */
  lemma AllPublishedReadsAll(rows: seq<Assignment>)
    requires forall i :: 0 <= i < |rows| ==> rows[i].status == Published
    ensures Read(rows, true) == rows
  {
    FilterKeepsAll(rows, IsPublished);
  }

  /** Deleting right after adding removes the added record and gives back the old table. */
  lemma AddThenDeleteRestores(isUrl: string -> bool, rows: seq<Assignment>, d: AssignmentDraft)
    requires AfterAdd(isUrl, rows, d).Ok?
    ensures AfterDelete(AfterAdd(isUrl, rows, d).value, NewAssignmentId(|rows|)) == Ok(rows)
  {
    var added := AfterAdd(isUrl, rows, d).value;
    assert HasId(NewAssignmentId(|rows|))(added[0]);
    assert FirstIndex(added, HasId(NewAssignmentId(|rows|))) == 0;
    assert RemoveAt(added, 0) == added[1..];
  }

  /**
   * The id depends on the length only, so after a delete an add can hand out an id already in
   * the table: deleting ASN001 from [ASN002, ASN001] leaves one record, and the next add is given ASN002 again.
   */
  lemma IdRepeatsAfterDelete(isUrl: string -> bool, a: Assignment, b: Assignment, d: AssignmentDraft)
    requires a.id == "ASN002" && b.id == "ASN001"
    requires |d.title| >= 3 && |d.description| >= 10
    ensures AfterDelete([a, b], "ASN001") == Ok([a])
    ensures AfterAdd(isUrl, [a], d).Ok? && AfterAdd(isUrl, [a], d).value[0].id == a.id
    ensures AfterAdd(isUrl, [a], d).value == [AfterAdd(isUrl, [a], d).value[0], a]
  {
    assert !HasId("ASN001")([a, b][0]);
    assert FirstIndex([a, b], HasId("ASN001")) == 1;
    assert RemoveAt([a, b], 1) == [a];
    assert Decimal(2) == "2";
    assert PadStart("2", 3, '0') == "002";
    assert NewAssignmentId(1) == "ASN002";
  }

  /** The four records the table starts with. */
  const Seed: seq<Assignment> := [
    Assignment("ASN001", "Calculus Homework 3",
               "Complete exercises 1-10 on page 50 of the textbook. Show all your work for full credit. The topics covered include derivatives and integration.",
               "2024-09-01T23:59", Some(Placeholder), Published, 15),
    Assignment("ASN002", "History Essay: The Roman Empire",
               "Write a 5-page essay on the fall of the Roman Empire. Your essay should have a clear thesis statement, supporting arguments, and a conclusion. Please cite your sources using MLA format.",
               "2024-09-10T23:59", Some(Placeholder), Published, 8),
    Assignment("ASN003", "Physics Lab Report",
               "Submit the lab report for the 'Gravity and Motion' experiment. Include your hypothesis, methodology, data, analysis, and conclusion. The report should be no more than 10 pages.",
               "2024-08-25T23:59", Some(Placeholder), Published, 20),
    Assignment("ASN004", "Python Programming Challenge",
               "Write a Python script that sorts a list of 1 million integers using the Merge Sort algorithm. Your script will be tested for correctness and performance. Submit your .py file.",
               "2024-09-15T23:59", Some(Placeholder), Draft, 0)
  ]

  class AssignmentTable {
    var rows: seq<Assignment>

    ghost predicate Valid()
      reads this
    {
      forall i :: 0 <= i < |rows| ==> Stored(rows[i])
    }

    constructor ()
      ensures Valid() && rows == Seed
    {
      rows := Seed;
    }

    /**
     * `getAssignments`: the deep copy is parsed again by the schema, which every stored record
     * passes unchanged (`Reparse`), then filtered when only Published records are asked for.
     */
    method GetAssignments(publishedOnly: bool) returns (data: seq<Assignment>)
      requires Valid()
      ensures data == Read(rows, publishedOnly)
    {
      data := rows;
      if publishedOnly {
        data := Filter(data, IsPublished);
      }
    }

    method AddMockAssignment(isUrl: string -> bool, d: AssignmentDraft) returns (r: Result<Assignment, StoreError>)
      requires Valid()
      modifies this
      ensures Valid()
      ensures AfterAdd(isUrl, old(rows), d).Ok? ==> rows == AfterAdd(isUrl, old(rows), d).value && r == Ok(rows[0])
      ensures AfterAdd(isUrl, old(rows), d).Err? ==> rows == old(rows) && r == Err(AfterAdd(isUrl, old(rows), d).error)
    {
      var record := NewRecord(|rows|, d);
      Reparse(isUrl, record);
      var parsed := ParseAssignment(isUrl, ToInput(record));
      if parsed.Err? {
        return Err(Invalid(parsed.error));
      }
      rows := [parsed.value] + rows;
      r := Ok(parsed.value);
    }

    method UpdateMockAssignment(isUrl: string -> bool, id: string, e: AssignmentEdit) returns (r: Result<Assignment, StoreError>)
      requires Valid()
      modifies this
      ensures Valid()
      ensures AfterUpdate(isUrl, old(rows), id, e).Ok? ==>
                rows == AfterUpdate(isUrl, old(rows), id, e).value && r == Ok(rows[FirstIndex(old(rows), HasId(id))])
      ensures AfterUpdate(isUrl, old(rows), id, e).Err? ==>
                rows == old(rows) && r == Err(AfterUpdate(isUrl, old(rows), id, e).error)
    {
      var index := FindIndex(rows, HasId(id));
      if index == -1 {
        return Err(NotFound(NotFoundMessage));
      }
      var merged := Merge(rows[index], e);
      Reparse(isUrl, merged);
      var parsed := ParseAssignment(isUrl, ToInput(merged));
      if parsed.Err? {
        return Err(Invalid(parsed.error));
      }
      rows := rows[index := parsed.value];
      r := Ok(parsed.value);
    }

    method UpdateMockAssignmentStatus(id: string, status: Status) returns (r: Result<Assignment, StoreError>)
      requires Valid()
      modifies this
      ensures Valid()
      ensures AfterSetStatus(old(rows), id, status).Ok? ==>
                rows == AfterSetStatus(old(rows), id, status).value && r == Ok(rows[FirstIndex(old(rows), HasId(id))])
      ensures AfterSetStatus(old(rows), id, status).Err? ==>
                rows == old(rows) && r == Err(NotFound(NotFoundMessage))
    {
      var index := FindIndex(rows, HasId(id));
      if index == -1 {
        return Err(NotFound(NotFoundMessage));
      }
      rows := rows[index := rows[index].(status := status)];
      r := Ok(rows[index]);
    }

    method DeleteMockAssignment(id: string) returns (r: Result<(), StoreError>)
      requires Valid()
      modifies this
      ensures Valid()
      ensures AfterDelete(old(rows), id).Ok? ==> rows == AfterDelete(old(rows), id).value && r == Ok(())
      ensures AfterDelete(old(rows), id).Err? ==> rows == old(rows) && r == Err(NotFound(NotFoundMessage))
    {
      var index := FindIndex(rows, HasId(id));
      if index == -1 {
        return Err(NotFound(NotFoundMessage));
      }
      rows := RemoveAt(rows, index);
      r := Ok(());
    }
  }
}

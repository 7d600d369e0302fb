/** `studentProfileSchema`: four non-empty strings, the display name at least two characters long. */
module StudentProfileSchema {
  import opened Wrappers
  import opened Zod

  datatype ProfileInput = ProfileInput(displayName: Value, studentId: Value, batch: Value, yearOfStudy: Value)

  datatype StudentProfile = StudentProfile(displayName: string, studentId: string, batch: string, yearOfStudy: string)

  const NameMessage := "Name must be at least 2 characters."
  const StudentIdMessage := "Student ID is required."
  const BatchMessage := "Batch is required."
  const YearMessage := "Year of study is required."

  function ProfileIssues(p: ProfileInput): seq<string> {
    MinLengthIssues(p.displayName, 2, NameMessage) + MinLengthIssues(p.studentId, 1, StudentIdMessage)
    + MinLengthIssues(p.batch, 1, BatchMessage) + MinLengthIssues(p.yearOfStudy, 1, YearMessage)
  }

  predicate ValidProfileInput(p: ProfileInput) {
    && p.displayName.Str? && |p.displayName.s| >= 2
    && p.studentId.Str? && p.studentId.s != []
    && p.batch.Str? && p.batch.s != []
    && p.yearOfStudy.Str? && p.yearOfStudy.s != []
  }

  /** `studentProfileSchema.parse`: accepts exactly the valid profiles and keeps their strings. */
  function ParseProfile(p: ProfileInput): (r: Result<StudentProfile, seq<string>>)
    ensures r.Ok? <==> ValidProfileInput(p)
    ensures r.Err? ==> r.error != []
    ensures r.Ok? ==> r.value == StudentProfile(p.displayName.s, p.studentId.s, p.batch.s, p.yearOfStudy.s)
  {
    var issues := ProfileIssues(p);
    if issues != [] then Err(issues)
    else Ok(StudentProfile(p.displayName.s, p.studentId.s, p.batch.s, p.yearOfStudy.s))
  }

  /** Every empty field reports its own message, in the order of the keys. */
  lemma {:induction false} EmptyProfileMessages()
    ensures ParseProfile(ProfileInput(Str(""), Str(""), Str(""), Str(""))) ==
            Err([NameMessage, StudentIdMessage, BatchMessage, YearMessage])
  {
    var p := ProfileInput(Str(""), Str(""), Str(""), Str(""));
    assert MinLengthIssues(p.displayName, 2, NameMessage) == [NameMessage];
    assert MinLengthIssues(p.studentId, 1, StudentIdMessage) == [StudentIdMessage];
    assert MinLengthIssues(p.batch, 1, BatchMessage) == [BatchMessage];
    assert MinLengthIssues(p.yearOfStudy, 1, YearMessage) == [YearMessage];
    assert ProfileIssues(p) == [NameMessage, StudentIdMessage, BatchMessage, YearMessage];
  }
}

/** `submissionSchema`: a student's upload for an assignment, with an optional score. */
module SubmissionSchema {
  import opened Wrappers
  import opened Text
  import opened Zod

  datatype SubmissionInput = SubmissionInput(
    id: Value,
    studentName: Value,
    studentEmail: Value,
    submissionDate: Value,
    assignmentTitle: Value,
    fileUrl: Value,
    score: Value)

  /** A parsed submission; `score == None` is an ungraded one. */
  datatype Submission = Submission(
    id: string,
    studentName: string,
    studentEmail: string,
    submissionDate: string,
    assignmentTitle: string,
    fileUrl: string,
    score: Option<int>)

  function SubmissionIssues(isUrl: string -> bool, isEmail: string -> bool, s: SubmissionInput): seq<string> {
    StringIssues(s.id) + StringIssues(s.studentName) + EmailIssues(isEmail, s.studentEmail)
    + StringIssues(s.submissionDate) + StringIssues(s.assignmentTitle)
    + UrlOrPathIssues(isUrl, s.fileUrl) + OptionalNumberIssues(s.score)
  }

  /** Unlike an assignment's, a submission's `fileUrl` is required. */
  predicate ValidSubmissionInput(isUrl: string -> bool, isEmail: string -> bool, s: SubmissionInput) {
    && s.id.Str? && s.studentName.Str?
    && s.studentEmail.Str? && isEmail(s.studentEmail.s)
    && s.submissionDate.Str? && s.assignmentTitle.Str?
    && s.fileUrl.Str? && (isUrl(s.fileUrl.s) || StartsWith(s.fileUrl.s, "/"))
    && !s.score.Str?
  }

  /** `submissionSchema.parse`. */
  function ParseSubmission(isUrl: string -> bool, isEmail: string -> bool, s: SubmissionInput): (r: Result<Submission, seq<string>>)
    ensures r.Ok? <==> ValidSubmissionInput(isUrl, isEmail, s)
    ensures r.Err? ==> r.error != []
    ensures r.Ok? ==> && r.value.id == s.id.s && r.value.studentName == s.studentName.s
                      && r.value.studentEmail == s.studentEmail.s && r.value.submissionDate == s.submissionDate.s
                      && r.value.assignmentTitle == s.assignmentTitle.s && r.value.fileUrl == s.fileUrl.s
                      && (r.value.score.None? <==> s.score.Missing?)
                      && (s.score.Num? ==> r.value.score == Some(s.score.n))
  {
    var issues := SubmissionIssues(isUrl, isEmail, s);
    if issues != [] then Err(issues)
    else
      Ok(Submission(s.id.s, s.studentName.s, s.studentEmail.s, s.submissionDate.s, s.assignmentTitle.s,
                    s.fileUrl.s, if s.score.Num? then Some(s.score.n) else None))
  }
}

/** The end of a subscription form's submit handler, shared by the wired and
    wireless pages: a successful insert navigates to the list page, a failed
    one shows a single message, and the busy flag is cleared either way. */
module Submission {
  import opened Wrappers
  import opened JsText
  import opened AuthContext

  datatype SubmitState = SubmitState(isLoading: bool, error: string, navigatedTo: Option<string>)

  const SubmitFailedMessage: string := "접수 중 오류가 발생했습니다."

  /** Every new subscription starts out pending. */
  const PendingStatus: string := "PENDING"

  /** The author recorded with a submission: the signed-in user's id, if any. */
  function AuthorId(user: Option<User>): (id: Option<string>)
    ensures id.Some? <==> user.Some?
    ensures user.Some? ==> id.value == user.value.id
  {
    match user
    case Some(u) => Some(u.id)
    case None => None
  }

  /** `insert` is the backend's answer: success, or an error whose message may
      be missing. */
  function Finish(insert: Result<(), Option<string>>, listPath: string): (s: SubmitState)
    ensures !s.isLoading
    ensures insert.Ok? <==> s.navigatedTo.Some?
    ensures insert.Ok? ==> s.error == [] && s.navigatedTo == Some(listPath)
    ensures insert.Err? ==> s.error != [] && (s.error == SubmitFailedMessage || Some(s.error) == insert.error)
    ensures insert.Err? && insert.error.Some? && insert.error.value != [] ==> s.error == insert.error.value
  {
    match insert
    case Ok(_) => SubmitState(false, "", Some(listPath))
    case Err(message) => SubmitState(false, OrNull(message, SubmitFailedMessage), None)
  }
}

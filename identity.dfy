/** The identity fetcher, `get_user_id`: the current user's id, or on failure
    an error text returned in the same slot. */
module Identity {

  /** Status of a successful lookup. */
  const Ok: int := 200

  /** What the code puts before the error text it returns in place of an id. */
  const ErrorPrefix: string := " error message: "

  /** The reply of the current-user endpoint: status, raw body text, the
      `error.message` of an error body and the `id` of a success body. */
  datatype MeResponse = MeResponse(status: int, text: string, errorMessage: string, id: string)

  /** Python's `sub in s` for strings. */
  predicate Contains(s: string, sub: string)
    decreases |s|
  {
    |sub| <= |s| && (s[..|sub|] == sub || Contains(s[1..], sub))
  }

  /** `get_user_id`: the id of a 200 reply; otherwise the error prefix followed
      by `error.message` when the raw body mentions "error", else by the raw
      body itself. */
  function GetUserId(response: MeResponse): (userId: string)
    ensures response.status == Ok ==> userId == response.id
    ensures response.status != Ok ==> |userId| >= |ErrorPrefix| && userId[..|ErrorPrefix|] == ErrorPrefix
    ensures response.status != Ok && Contains(response.text, "error") ==> userId[|ErrorPrefix|..] == response.errorMessage
    ensures response.status != Ok && !Contains(response.text, "error") ==> userId[|ErrorPrefix|..] == response.text
  {
    if response.status != Ok then
      if Contains(response.text, "error") then ErrorPrefix + response.errorMessage
      else ErrorPrefix + response.text
    else response.id
  }

  /** The error text shares the success slot: a failed lookup and a
      successful one can return the same string, so the returned value alone
      does not tell them apart. */
  lemma UserIdIsAmbiguous()
    ensures exists ok: MeResponse, failed: MeResponse ::
      ok.status == Ok && failed.status != Ok && GetUserId(ok) == GetUserId(failed)
  {
    var failed := MeResponse(404, "x", "", "");
    assert !Contains(failed.text, "error");
    var ok := MeResponse(Ok, "", "", ErrorPrefix + "x");
    assert GetUserId(ok) == GetUserId(failed);
  }
}

/** What the four review and reply forms share: the shape of a server
    reply to `createReview`, `updateReview`, `createReply` and
    `updateReply`, the mapping of a rejected call to the form's error
    text, and the two outcomes of a form's checks. */
module ReviewApi {
  import opened Common

  /** How an awaited call ended: it resolved, or it rejected with an HTTP
      error carrying `error.request.status` and the server's
      `error.response.data.error`. */
  datatype ApiReply = Accepted | Rejected(status: int, serverError: string)

  /** The catch block of every form: statuses 404 and 403 show the server's
      own text, anything else the form's generic message. */
  function ErrorText(status: int, serverError: string, generic: string): (m: string)
    ensures (status == 404 || status == 403) ==> m == serverError
    ensures status != 404 && status != 403 ==> m == generic
  {
    if status == 404 || status == 403 then serverError else generic
  }

  /** The server's text is shown only for 404 and 403: whenever the shown
      message differs from the generic one, it is the server's, and the
      status was one of those two. */
  lemma ServerTextOnlyFor404And403(status: int, serverError: string, generic: string)
    requires ErrorText(status, serverError, generic) != generic
    ensures status == 404 || status == 403
    ensures ErrorText(status, serverError, generic) == serverError
  {
  }

  /** The outcome of a form's checks: a message for the form, or the payload
      to send. */
  datatype Decision<P> = Refuse(message: string) | Send(payload: P)
}

/** The form for editing one's own reply
    (src/fragments/ReviewReplyEditForm.js): it opens with the reply's text
    and sends `updateReply` for the reply's id once a user is logged in. */
module ReviewReplyEditForm {
  import opened Common
  import opened ReviewApi
  import ReviewReplyForm

  const LoginToEditReply := "You must be logged in to edit a reply."
  const ReplyUpdateFailed := "Failed to update reply. Please try again later."

  /** The reply being edited: `review_id` and `description`. */
  datatype ReplyRecord = ReplyRecord(reviewId: int, description: Utf16)

  /** The body of `updateReply`: `{description, user_id}`. */
  datatype ReplyUpdate = ReplyUpdate(description: Utf16, userId: int)

  /** `updateReply(reply.review_id, replyData)`. */
  datatype UpdateReplyCall = UpdateReplyCall(replyId: int, payload: ReplyUpdate)

  /** The only check of `handleReplyEditSubmit` is the login; the content,
      empty or not, is sent as it stands. */
  function ReplyEditDecision(content: Utf16, username: Option<User>): (d: Decision<ReplyUpdate>)
    ensures d.Send? <==> username.Some?
    ensures username.None? ==> d == Refuse(LoginToEditReply)
    ensures d.Send? ==> d.payload == ReplyUpdate(content, username.value.id)
  {
    if username.None? then Refuse(LoginToEditReply)
    else Send(ReplyUpdate(content, username.value.id))
  }

  class ReviewReplyEditFormState {
    /** `reply.review_id`. */
    const replyId: int
    var replyContent: Utf16
    var errorMessage: Option<string>

    /** The form starts from the reply's text. */
    constructor (reply: ReplyRecord)
      ensures replyId == reply.reviewId && replyContent == reply.description && errorMessage.None?
    {
      replyId := reply.reviewId;
      replyContent := reply.description;
      errorMessage := None;
    }

    /** `handleReplyEditSubmit`; `apiReply` is how `updateReply` ended.
        `notified` says that `fetchReviews` and `handleEditReplySuccess`
        were called, `closed` that `handleCancelEditReply` was. The form's
        own fields are not touched on success. */
    method HandleReplyEditSubmit(username: Option<User>, apiReply: ApiReply)
      returns (sent: Option<UpdateReplyCall>, notified: bool, closed: bool)
      modifies this
      ensures replyContent == old(replyContent)
      ensures var d := ReplyEditDecision(old(replyContent), username);
              d.Refuse? ==> sent.None? && !notified && !closed && errorMessage == Some(d.message)
      ensures var d := ReplyEditDecision(old(replyContent), username);
              d.Send? ==> sent == Some(UpdateReplyCall(replyId, d.payload))
                          && (notified <==> apiReply.Accepted?) && (closed <==> apiReply.Accepted?)
      ensures var d := ReplyEditDecision(old(replyContent), username);
              d.Send? && apiReply.Accepted? ==> errorMessage == old(errorMessage)
      ensures var d := ReplyEditDecision(old(replyContent), username);
              d.Send? && apiReply.Rejected? ==>
                errorMessage == Some(ErrorText(apiReply.status, apiReply.serverError, ReplyUpdateFailed))
    {
      if username.None? {
        errorMessage := Some(LoginToEditReply);
        return None, false, false;
      }
      var replyData := ReplyUpdate(replyContent, username.value.id);
      sent := Some(UpdateReplyCall(replyId, replyData));
      if apiReply.Accepted? {
        notified, closed := true, true;
      } else {
        notified, closed := false, false;
        errorMessage := Some(ErrorText(apiReply.status, apiReply.serverError, ReplyUpdateFailed));
      }
    }
  }

  /** There is no emptiness check when editing: an empty reply that the
      reply form refuses goes through the edit form. */
  lemma EmptyEditIsSent(me: User, productId: int, parentId: int)
    ensures ReplyEditDecision([], Some(me)) == Send(ReplyUpdate([], me.id))
    ensures ReviewReplyForm.ReplyDecision([], productId, parentId, Some(me))
            == Refuse(ReviewReplyForm.ReplyRequired)
  {
  }
}

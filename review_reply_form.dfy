/** The form for replying to a review (src/fragments/ReviewReplyForm.js):
    the reply being typed, the error under it, and the submit handler that
    checks for content, checks the login and sends `createReply`. */
module ReviewReplyForm {
  import opened Common
  import opened ReviewValidation
  import opened ReviewApi

  const ReplyRequired := "Reply content is required."
  const LoginToReply := "You must be logged in to post a reply."
  const ReplyFailed := "Failed to update reply. Please try again later."

  /** The body of `createReply`: `{description, product_id, user_id,
      parent_id}`. */
  datatype ReplyPayload = ReplyPayload(description: Utf16, productId: int, userId: int, parentId: int)

  /** The checks of `handleReplySubmit`: an empty reply first (`!reply`),
      the login second; anything else is sent as typed. */
  function ReplyDecision(reply: Utf16, productId: int, parentId: int, username: Option<User>)
    : (d: Decision<ReplyPayload>)
    ensures reply == [] ==> d == Refuse(ReplyRequired)
    ensures reply != [] && username.None? ==> d == Refuse(LoginToReply)
    ensures d.Send? <==> reply != [] && username.Some?
    ensures d.Send? ==> d.payload == ReplyPayload(reply, productId, username.value.id, parentId)
  {
    if reply == [] then Refuse(ReplyRequired)
    else if username.None? then Refuse(LoginToReply)
    else Send(ReplyPayload(reply, productId, username.value.id, parentId))
  }

  class ReviewReplyFormState {
    /** The `productId` and `parentId` props. */
    const productId: int
    const parentId: int
    var reply: Utf16
    var errorMessage: Option<string>

    constructor (productId: int, parentId: int)
      ensures this.productId == productId && this.parentId == parentId
      ensures reply == [] && errorMessage.None?
    {
      this.productId := productId;
      this.parentId := parentId;
      reply := [];
      errorMessage := None;
    }

    /** `resetReplyContent`. */
    method ResetReplyContent()
      modifies this
      ensures reply == [] && errorMessage.None?
    {
      reply := [];
      errorMessage := None;
    }

    /** `handleReplySubmit`; `apiReply` is how `createReply` ended, and
        `notified` says that `fetchReviews` and `handleReplySuccess` were
        called. */
    method HandleReplySubmit(username: Option<User>, apiReply: ApiReply)
      returns (sent: Option<ReplyPayload>, notified: bool)
      modifies this
      ensures var d := ReplyDecision(old(reply), productId, parentId, username);
              d.Refuse? ==> sent.None? && !notified && errorMessage == Some(d.message) && reply == old(reply)
      ensures var d := ReplyDecision(old(reply), productId, parentId, username);
              d.Send? ==> sent == Some(d.payload) && (notified <==> apiReply.Accepted?)
      ensures var d := ReplyDecision(old(reply), productId, parentId, username);
              d.Send? && apiReply.Accepted? ==> reply == [] && errorMessage.None?
      ensures var d := ReplyDecision(old(reply), productId, parentId, username);
              d.Send? && apiReply.Rejected? ==>
                errorMessage == Some(ErrorText(apiReply.status, apiReply.serverError, ReplyFailed))
                && reply == old(reply)
    {
      if reply == [] {
        errorMessage := Some(ReplyRequired);
        return None, false;
      }
      if username.None? {
        errorMessage := Some(LoginToReply);
        return None, false;
      }
      var replyData := ReplyPayload(reply, productId, username.value.id, parentId);
      sent := Some(replyData);
      if apiReply.Accepted? {
        notified := true;
        ResetReplyContent();
      } else {
        notified := false;
        errorMessage := Some(ErrorText(apiReply.status, apiReply.serverError, ReplyFailed));
      }
    }
  }

  /** Unlike a review, a reply is only checked for the empty string: Quill's
      blank paragraph is sent to the server as a reply. */
  lemma BlankEditorReplyIsSent(productId: int, parentId: int, me: User)
    ensures ReplyDecision(Units("<p><br></p>"), productId, parentId, Some(me)).Send?
    ensures Visible(Units("<p><br></p>")) == []
  {
    EmptyParagraphUnits();
    EmptyParagraphStripsToNothing();
  }
}

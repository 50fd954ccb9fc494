/** The form for editing one's own review (src/fragments/ReviewEditForm.js):
    it opens with the review's text, title and stars, validates them like
    the posting form, and sends `updateReview` for the review's id. */
module ReviewEditForm {
  import opened Common
  import opened ReviewValidation
  import opened ReviewApi
  import ReviewForm

  const UpdateFailed := "Failed to create review. Please try again later."

  /** The review being edited: `review_id`, `title`, `description`, `stars`. */
  datatype ReviewRecord = ReviewRecord(reviewId: int, title: Utf16, description: Utf16, stars: int)

  /** The body of `updateReview`: `{title, description, stars, user_id}`,
      without a product id. */
  datatype ReviewUpdate = ReviewUpdate(title: Utf16, description: Utf16, stars: int, userId: int)

  /** `updateReview(review.review_id, reviewData)`. */
  datatype UpdateCall = UpdateCall(reviewId: int, payload: ReviewUpdate)

  /** The check of `handleReviewEdit` for a logged-in user: `validateReview`
      alone, after which the edit is sent as typed. */
  function EditDecision(title: Utf16, content: Utf16, rating: int, me: User): (d: Decision<ReviewUpdate>)
    ensures ValidateReview(title, content, rating).Some? ==>
              d == Refuse(ValidateReview(title, content, rating).value)
    ensures ValidateReview(title, content, rating).None? ==>
              d == Send(ReviewUpdate(title, content, rating, me.id))
  {
    var invalid := ValidateReview(title, content, rating);
    if invalid.Some? then Refuse(invalid.value)
    else Send(ReviewUpdate(title, content, rating, me.id))
  }

  class ReviewEditFormState {
    /** `review.review_id`. */
    const reviewId: int
    var editReviewContent: Utf16
    var editTitle: Utf16
    var editRating: int
    var errorMessage: Option<string>

    /** The form starts from the review as it stands. */
    constructor (review: ReviewRecord)
      ensures reviewId == review.reviewId
      ensures editReviewContent == review.description && editTitle == review.title
      ensures editRating == review.stars && errorMessage.None?
    {
      reviewId := review.reviewId;
      editReviewContent := review.description;
      editTitle := review.title;
      editRating := review.stars;
      errorMessage := None;
    }

    /** `handleReviewEdit`; `reply` is how `updateReview` ended. The payload
        reads `username.id` before anything else, so without a user the
        handler throws at once and nothing changes. `notified` says that
        `fetchReviews` and `handleEditReviewSuccess` were called, `closed`
        that `setEditReviewId(null)` was. A successful edit empties the
        fields but leaves the error text as it was. */
    method HandleReviewEdit(username: Option<User>, reply: ApiReply)
      returns (sent: Option<UpdateCall>, notified: bool, closed: bool)
      modifies this
      ensures username.None? ==>
                sent.None? && !notified && !closed
                && editTitle == old(editTitle) && editReviewContent == old(editReviewContent)
                && editRating == old(editRating) && errorMessage == old(errorMessage)
      ensures username.Some? ==>
                var d := EditDecision(old(editTitle), old(editReviewContent), old(editRating), username.value);
                d.Refuse? ==>
                  sent.None? && !notified && !closed && errorMessage == Some(d.message)
                  && editTitle == old(editTitle) && editReviewContent == old(editReviewContent)
                  && editRating == old(editRating)
      ensures username.Some? ==>
                var d := EditDecision(old(editTitle), old(editReviewContent), old(editRating), username.value);
                d.Send? ==>
                  sent == Some(UpdateCall(reviewId, d.payload))
                  && (notified <==> reply.Accepted?) && (closed <==> reply.Accepted?)
      ensures username.Some? ==>
                var d := EditDecision(old(editTitle), old(editReviewContent), old(editRating), username.value);
                d.Send? && reply.Accepted? ==>
                  editTitle == [] && editReviewContent == [] && editRating == 0
                  && errorMessage == old(errorMessage)
      ensures username.Some? ==>
                var d := EditDecision(old(editTitle), old(editReviewContent), old(editRating), username.value);
                d.Send? && reply.Rejected? ==>
                  errorMessage == Some(ErrorText(reply.status, reply.serverError, UpdateFailed))
                  && editTitle == old(editTitle) && editReviewContent == old(editReviewContent)
                  && editRating == old(editRating)
    {
      if username.None? {
        return None, false, false;
      }
      ghost var d := EditDecision(editTitle, editReviewContent, editRating, username.value);
      var reviewData := ReviewUpdate(editTitle, editReviewContent, editRating, username.value.id);
      var invalid := ValidateReview(editTitle, editReviewContent, editRating);
      if invalid.Some? {
        assert d == Refuse(invalid.value);
        errorMessage := invalid;
        return None, false, false;
      }
      assert d == Send(reviewData);
      sent := Some(UpdateCall(reviewId, reviewData));
      if reply.Accepted? {
        notified, closed := true, true;
        editReviewContent := [];
        editTitle := [];
        editRating := 0;
      } else {
        notified, closed := false, false;
        errorMessage := Some(ErrorText(reply.status, reply.serverError, UpdateFailed));
      }
    }
  }

  /** Editing refuses exactly what posting refuses for a logged-in user,
      with the same message, and sends the same fields minus the product. */
  lemma EditRefusesLikePost(title: Utf16, content: Utf16, rating: int, productId: Utf16, me: User)
    ensures EditDecision(title, content, rating, me).Refuse?
            <==> ReviewForm.SubmitDecision(title, content, rating, productId, Some(me)).Refuse?
    ensures EditDecision(title, content, rating, me).Refuse? ==>
              EditDecision(title, content, rating, me).message
              == ReviewForm.SubmitDecision(title, content, rating, productId, Some(me)).message
    ensures EditDecision(title, content, rating, me).Send? ==>
              var p := ReviewForm.SubmitDecision(title, content, rating, productId, Some(me)).payload;
              EditDecision(title, content, rating, me).payload
              == ReviewUpdate(p.title, p.description, p.stars, p.userId)
  {
  }

  /** An edit that empties the review to Quill's blank paragraph is refused
      as empty and never reaches the server. */
  lemma BlankEditRefused(title: Utf16, rating: int, me: User)
    requires !AllWhitespace(title) && rating != 0
    ensures EditDecision(title, Units("<p><br></p>"), rating, me) == Refuse(ReviewEmpty)
  {
    EmptyParagraphRejected(title, rating);
  }
}

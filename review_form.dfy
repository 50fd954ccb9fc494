/** The form for posting a new review (src/fragments/ReviewForm.js): the
    title, rich-text body and star rating being typed, the error shown
    under them, and the submit handler that validates, checks the login,
    sends `createReview` and resets the form. */
module ReviewForm {
  import opened Common
  import opened WordCounting
  import opened ReviewValidation
  import opened ReviewApi

  const LoginToReview := "You must be logged in to post a review."
  const CreateFailed := "Failed to create review. Please try again later."

  /** The body of `createReview`: `{title, description, stars, product_id,
      user_id}`. `product_id` is the page's route parameter, which is text. */
  datatype ReviewPayload = ReviewPayload(title: Utf16, description: Utf16, stars: int,
                                         productId: Utf16, userId: int)

  /** The checks of `handleReviewSubmit`, in their order: `validateReview`
      first, the login second; only a valid review by a logged-in user is
      sent, and it is sent exactly as typed. */
  function SubmitDecision(title: Utf16, content: Utf16, rating: int, productId: Utf16,
                          username: Option<User>): (d: Decision<ReviewPayload>)
    ensures ValidateReview(title, content, rating).Some? ==>
              d == Refuse(ValidateReview(title, content, rating).value)
    ensures ValidateReview(title, content, rating).None? && username.None? ==> d == Refuse(LoginToReview)
    ensures d.Send? <==> ValidateReview(title, content, rating).None? && username.Some?
    ensures d.Send? ==> d.payload == ReviewPayload(title, content, rating, productId, username.value.id)
  {
    var invalid := ValidateReview(title, content, rating);
    if invalid.Some? then Refuse(invalid.value)
    else if username.None? then Refuse(LoginToReview)
    else Send(ReviewPayload(title, content, rating, productId, username.value.id))
  }

  class ReviewFormState {
    /** The `productId` prop. */
    const productId: Utf16
    var newReview: Utf16
    var newTitle: Utf16
    var newRating: int
    var errorMessage: Option<string>

    /** The initial state: empty fields, no rating, no error. */
    constructor (productId: Utf16)
      ensures this.productId == productId
      ensures newReview == [] && newTitle == [] && newRating == 0 && errorMessage.None?
    {
      this.productId := productId;
      newReview := [];
      newTitle := [];
      newRating := 0;
      errorMessage := None;
    }

    /** `resetReviewContent`, also the Cancel button. */
    method ResetReviewContent()
      modifies this
      ensures newReview == [] && newTitle == [] && newRating == 0 && errorMessage.None?
    {
      newReview := [];
      newTitle := [];
      newRating := 0;
      errorMessage := None;
    }

    /** `handleReviewSubmit`; `reply` is how `createReview` ended. `sent`
        is the payload passed to it, and `notified` says that `fetchReviews`
        and `handleReviewSuccess` were called. */
    method HandleReviewSubmit(username: Option<User>, reply: ApiReply)
      returns (sent: Option<ReviewPayload>, notified: bool)
      modifies this
      ensures var d := SubmitDecision(old(newTitle), old(newReview), old(newRating), productId, username);
              d.Refuse? ==>
                sent.None? && !notified && errorMessage == Some(d.message)
                && newTitle == old(newTitle) && newReview == old(newReview) && newRating == old(newRating)
      ensures var d := SubmitDecision(old(newTitle), old(newReview), old(newRating), productId, username);
              d.Send? ==> sent == Some(d.payload) && (notified <==> reply.Accepted?)
      ensures var d := SubmitDecision(old(newTitle), old(newReview), old(newRating), productId, username);
              d.Send? && reply.Accepted? ==>
                newReview == [] && newTitle == [] && newRating == 0 && errorMessage.None?
      ensures var d := SubmitDecision(old(newTitle), old(newReview), old(newRating), productId, username);
              d.Send? && reply.Rejected? ==>
                errorMessage == Some(ErrorText(reply.status, reply.serverError, CreateFailed))
                && newTitle == old(newTitle) && newReview == old(newReview) && newRating == old(newRating)
    {
      ghost var d := SubmitDecision(newTitle, newReview, newRating, productId, username);
      var invalid := ValidateReview(newTitle, newReview, newRating);
      if invalid.Some? {
        assert d == Refuse(invalid.value);
        errorMessage := invalid;
        return None, false;
      }
      if username.None? {
        assert d == Refuse(LoginToReview);
        errorMessage := Some(LoginToReview);
        return None, false;
      }
      var reviewData := ReviewPayload(newTitle, newReview, newRating, productId, username.value.id);
      assert d == Send(reviewData);
      sent := Some(reviewData);
      if reply.Accepted? {
        notified := true;
        ResetReviewContent();
      } else {
        notified := false;
        errorMessage := Some(ErrorText(reply.status, reply.serverError, CreateFailed));
      }
    }
  }

  // ---------------------------------------------------------------------------
  // Properties

  /** Validation runs before the login check: a logged-out visitor who
      submits Quill's empty editor is told the review is empty, not that
      they must log in. */
  lemma LoggedOutSeesValidationFirst(title: Utf16, rating: int, productId: Utf16)
    requires !AllWhitespace(title) && rating != 0
    ensures SubmitDecision(title, Units("<p><br></p>"), rating, productId, None) == Refuse(ReviewEmpty)
  {
    EmptyParagraphRejected(title, rating);
  }

  /** A logged-in user's review of exactly 100 words is sent as typed. */
  lemma HundredWordsAreSent(title: Utf16, rating: int, productId: Utf16, me: User)
    requires !AllWhitespace(title) && rating != 0
    ensures SubmitDecision(title, Dotted(100), rating, productId, Some(me))
            == Send(ReviewPayload(title, Dotted(100), rating, productId, me.id))
  {
    WordCapIsInclusive(title, rating, 100);
  }

  /** One word more and the count is reported instead. */
  lemma HundredAndOneWordsRefused(title: Utf16, rating: int, productId: Utf16, username: Option<User>)
    requires !AllWhitespace(title) && rating != 0
    ensures SubmitDecision(title, Dotted(101), rating, productId, username) == Refuse(TooManyWords(101))
  {
    WordCapIsInclusive(title, rating, 101);
  }
}

/** The product page (src/pages/Product.js), restricted to its decision
    logic: the map from review authors to "am I following them", the follow and
    unfollow handlers that update it key by key, the review and reply
    chosen for deletion, and which controls each review shows. Server calls
    are parameters: their results, or whether they threw. */
module ProductPage {
  import opened Common

  /** A review or a reply as the page uses it: `review_id`, `user_id` and
      `is_deleted`. Replies carry their own id in `review_id` as well. */
  datatype Post = Post(reviewId: int, userId: int, isDeleted: bool)

  /** The follow relation calls the page makes: `followUser(me, them)` and
      `unfollowUser(me, them)`. */
  datatype RelationCall = FollowUser(follower: int, followee: int) | UnfollowUser(follower: int, followee: int)

  /** The delete calls: `deleteReply(reply.review_id, me)` and
      `deleteReview(review.review_id, me)`. */
  datatype DeleteCall = DeleteReply(replyId: int, userId: int) | DeleteReview(reviewId: int, userId: int)

  const LoginToFollow := "Please, login to follow the user"
  const CannotFollowSelf := "You cannot follow yourself"
  const Followed := "User followed successfully!"
  const FollowFailed := "Failed to follow user."
  const Unfollowed := "User unfollowed successfully!"
  const UnfollowFailed := "Failed to unfollow user."

  /** `triggerAlert(message, isSuccess, 3000)`: every alert of this page is
      shown for three seconds. */
  function Toast(message: string, isSuccess: bool): Alert
  {
    Alert(message, isSuccess, 3000, None)
  }

  // ---------------------------------------------------------------------------
  // The follow map

  /** The authors of `data` other than `me`: the users the page asks about. */
  function Authors(data: seq<Post>, me: int): set<int>
  {
    set i | 0 <= i < |data| && data[i].userId != me :: data[i].userId
  }

  /** Whether asking the server about some author of `data` other than `me`
      threw; `answer(u)` is `isUserFollowing(me, u)`, `None` when it threw. */
  predicate SomeAnswerFails(data: seq<Post>, me: int, answer: int -> Option<bool>)
  {
    exists i :: 0 <= i < |data| && data[i].userId != me && answer(data[i].userId).None?
  }

  /** The `followStatus` object `fetchReviews` builds: one entry per review
      whose author is not `me`. If any of the requests throws, `Promise.all`
      rejects and there is no result. */
  function FollowStatus(data: seq<Post>, me: int, answer: int -> Option<bool>): Option<map<int, bool>>
    decreases |data|
  {
    if data == [] then Some(map[])
    else
      var prev := FollowStatus(data[..|data| - 1], me, answer);
      var author := data[|data| - 1].userId;
      if author == me then prev
      else if prev.None? || answer(author).None? then None
      else Some(prev.value[author := answer(author).value])
  }

  /** The fetched map answers exactly for the other authors of the reviews,
      each with what the server said about them; it exists exactly when no
      request threw. */
  lemma {:induction false} FollowStatusIsAnswers(data: seq<Post>, me: int, answer: int -> Option<bool>)
    ensures FollowStatus(data, me, answer).None? <==> SomeAnswerFails(data, me, answer)
    ensures FollowStatus(data, me, answer).Some? ==>
              FollowStatus(data, me, answer).value.Keys == Authors(data, me)
    ensures FollowStatus(data, me, answer).Some? ==>
              forall u :: u in FollowStatus(data, me, answer).value ==>
                answer(u) == Some(FollowStatus(data, me, answer).value[u])
  {
    if data != [] {
      var init := data[..|data| - 1];
      var last := data[|data| - 1];
      FollowStatusIsAnswers(init, me, answer);
      assert forall i :: 0 <= i < |init| ==> init[i] == data[i];
      assert Authors(data, me) == Authors(init, me) + (if last.userId == me then {} else {last.userId}) by {
        forall u | u in Authors(data, me) ensures u in Authors(init, me) || (last.userId != me && u == last.userId) {
          var i :| 0 <= i < |data| && data[i].userId != me && data[i].userId == u;
          if i < |init| { assert init[i] == data[i]; }
        }
      }
      if SomeAnswerFails(data, me, answer) {
        var i :| 0 <= i < |data| && data[i].userId != me && answer(data[i].userId).None?;
        if i < |init| {
          assert init[i] == data[i];
          assert SomeAnswerFails(init, me, answer);
        }
      } else {
        forall i | 0 <= i < |init| && init[i].userId != me ensures answer(init[i].userId).Some? {
          assert init[i] == data[i];
        }
      }
    }
  }

  // ---------------------------------------------------------------------------
  // What each review shows

  /** `username && username.id !== review.user_id`: the follow button. */
  predicate ShowsFollowButton(username: Option<User>, review: Post)
  {
    username.Some? && username.value.id != review.userId
  }

  /** `username && post.user_id === username.id && !post.is_deleted`: the
      Edit and Delete controls of a review, and likewise of a reply. */
  predicate ShowsOwnerControls(username: Option<User>, post: Post)
  {
    username.Some? && post.userId == username.value.id && !post.isDeleted
  }

  /** `review.review_id && editReviewId === review.review_id &&
      !review.is_deleted`: the edit form under a review. */
  predicate ShowsEditForm(editReviewId: Option<int>, review: Post)
  {
    review.reviewId != 0 && editReviewId == Some(review.reviewId) && !review.isDeleted
  }

  /** The `isFollowing` prop: `followingUsers[review.user_id] || false`. */
  function IsFollowingProp(followingUsers: map<int, bool>, userId: int): (b: bool)
    ensures b <==> userId in followingUsers && followingUsers[userId]
  {
    if userId in followingUsers then followingUsers[userId] else false
  }

  /** A review never shows both the follow button and the owner's controls;
      to a logged-in visitor a review that is not deleted shows exactly one
      of them. */
  lemma ControlsExclusive(username: Option<User>, review: Post)
    ensures !(ShowsFollowButton(username, review) && ShowsOwnerControls(username, review))
    ensures username.Some? && !review.isDeleted ==>
              ShowsFollowButton(username, review) || ShowsOwnerControls(username, review)
  {
  }

  /** After a fetch in which no request threw, every follow button on the
      page finds its review author in the map. */
  lemma EveryButtonHasStatus(data: seq<Post>, me: User, answer: int -> Option<bool>, i: nat)
    requires i < |data| && ShowsFollowButton(Some(me), data[i])
    requires !SomeAnswerFails(data, me.id, answer)
    ensures FollowStatus(data, me.id, answer).Some?
    ensures data[i].userId in FollowStatus(data, me.id, answer).value
    ensures IsFollowingProp(FollowStatus(data, me.id, answer).value, data[i].userId)
            == answer(data[i].userId).value
  {
    FollowStatusIsAnswers(data, me.id, answer);
    assert data[i].userId in Authors(data, me.id);
  }

  class ProductPageState {
    var reviews: seq<Post>
    var followingUsers: map<int, bool>
    var editReviewId: Option<int>
    var reviewToDelete: Option<Post>
    var replyToDelete: Option<Post>

    /** The initial state: no reviews, `{}`, and `null` targets. */
    constructor ()
      ensures reviews == [] && followingUsers == map[]
      ensures editReviewId.None? && reviewToDelete.None? && replyToDelete.None?
    {
      reviews := [];
      followingUsers := map[];
      editReviewId := None;
      reviewToDelete := None;
      replyToDelete := None;
    }

    /** `fetchReviews`: `data` is what `getProductReviews` returned (`None`
        when it threw, and then nothing changes). With a user logged in the
        map is rebuilt from `isUserFollowing`, one review at a time; a thrown
        request leaves the old map in place. */
    method FetchReviews(username: Option<User>, data: Option<seq<Post>>, answer: int -> Option<bool>)
      modifies this
      ensures data.None? ==> reviews == old(reviews) && followingUsers == old(followingUsers)
      ensures data.Some? ==> reviews == data.value
      ensures data.Some? && username.Some? && FollowStatus(data.value, username.value.id, answer).Some? ==>
                followingUsers == FollowStatus(data.value, username.value.id, answer).value
      ensures data.Some? && (username.None? || FollowStatus(data.value, username.value.id, answer).None?) ==>
                followingUsers == old(followingUsers)
      ensures editReviewId == old(editReviewId)
      ensures reviewToDelete == old(reviewToDelete) && replyToDelete == old(replyToDelete)
    {
      if data.None? {
        return;
      }
      var posts := data.value;
      reviews := posts;
      if username.Some? {
        var me := username.value.id;
        var followStatus: map<int, bool> := map[];
        var failed := false;
        for i := 0 to |posts|
          invariant failed <==> FollowStatus(posts[..i], me, answer).None?
          invariant !failed ==> followStatus == FollowStatus(posts[..i], me, answer).value
        {
          assert posts[..i + 1][..i] == posts[..i];
          var author := posts[i].userId;
          if author != me {
            var isFollowingResponse := answer(author);
            if isFollowingResponse.None? {
              failed := true;
            } else {
              followStatus := followStatus[author := isFollowingResponse.value];
            }
          }
        }
        assert posts[..|posts|] == posts;
        if !failed {
          followingUsers := followStatus;
        }
      }
    }

    /** `handleFollow(user_id)`: refuses a logged-out visitor and one's own
        id with an alert and no call; otherwise calls `followUser` and, unless
        it threw, records the review author as followed. */
    method HandleFollow(username: Option<User>, userId: int, callThrows: bool)
      returns (call: Option<RelationCall>, alert: Alert)
      modifies this
      ensures username.None? ==>
                call.None? && alert == Toast(LoginToFollow, false) && followingUsers == old(followingUsers)
      ensures username.Some? && username.value.id == userId ==>
                call.None? && alert == Toast(CannotFollowSelf, false) && followingUsers == old(followingUsers)
      ensures username.Some? && username.value.id != userId ==>
                call == Some(FollowUser(username.value.id, userId))
                && alert == (if callThrows then Toast(FollowFailed, false) else Toast(Followed, true))
                && followingUsers == (if callThrows then old(followingUsers) else old(followingUsers)[userId := true])
      ensures reviews == old(reviews) && editReviewId == old(editReviewId)
      ensures reviewToDelete == old(reviewToDelete) && replyToDelete == old(replyToDelete)
    {
      if username.None? {
        return None, Toast(LoginToFollow, false);
      }
      if username.value.id == userId {
        return None, Toast(CannotFollowSelf, false);
      }
      call := Some(FollowUser(username.value.id, userId));
      if callThrows {
        alert := Toast(FollowFailed, false);
      } else {
        followingUsers := followingUsers[userId := true];
        alert := Toast(Followed, true);
      }
    }

    /** `handleUnfollow(user_id)`: there is no guard, so without a user the
        read of `username.id` throws inside the `try` and is reported like a
        failed call. */
    method HandleUnfollow(username: Option<User>, userId: int, callThrows: bool)
      returns (call: Option<RelationCall>, alert: Alert)
      modifies this
      ensures username.None? ==>
                call.None? && alert == Toast(UnfollowFailed, false) && followingUsers == old(followingUsers)
      ensures username.Some? ==>
                call == Some(UnfollowUser(username.value.id, userId))
                && alert == (if callThrows then Toast(UnfollowFailed, false) else Toast(Unfollowed, true))
                && followingUsers == (if callThrows then old(followingUsers) else old(followingUsers)[userId := false])
      ensures reviews == old(reviews) && editReviewId == old(editReviewId)
      ensures reviewToDelete == old(reviewToDelete) && replyToDelete == old(replyToDelete)
    {
      if username.None? {
        return None, Toast(UnfollowFailed, false);
      }
      call := Some(UnfollowUser(username.value.id, userId));
      if callThrows {
        alert := Toast(UnfollowFailed, false);
      } else {
        followingUsers := followingUsers[userId := false];
        alert := Toast(Unfollowed, true);
      }
    }

    /** `handleEditClick(review)`. */
    method HandleEditClick(review: Post)
      modifies this
      ensures editReviewId == Some(review.reviewId)
      ensures reviews == old(reviews) && followingUsers == old(followingUsers)
      ensures reviewToDelete == old(reviewToDelete) && replyToDelete == old(replyToDelete)
    {
      editReviewId := Some(review.reviewId);
    }

    /** `handleCancelEdit`, and `setEditReviewId(null)` after a saved edit. */
    method HandleCancelEdit()
      modifies this
      ensures editReviewId.None?
      ensures reviews == old(reviews) && followingUsers == old(followingUsers)
      ensures reviewToDelete == old(reviewToDelete) && replyToDelete == old(replyToDelete)
    {
      editReviewId := None;
    }

    /** The Delete button of a review (src/fragments/ReviewDelete.js). */
    method SetReviewToDelete(review: Post)
      modifies this
      ensures reviewToDelete == Some(review) && replyToDelete == old(replyToDelete)
      ensures reviews == old(reviews) && followingUsers == old(followingUsers)
      ensures editReviewId == old(editReviewId)
    {
      reviewToDelete := Some(review);
    }

    /** The Delete button of a reply (src/fragments/ReplyDelete.js). */
    method SetReplyToDelete(reply: Post)
      modifies this
      ensures replyToDelete == Some(reply) && reviewToDelete == old(reviewToDelete)
      ensures reviews == old(reviews) && followingUsers == old(followingUsers)
      ensures editReviewId == old(editReviewId)
    {
      replyToDelete := Some(reply);
    }

    /** `handleDeleteReply`: acts only when a reply is chosen and the user's
        id is truthy; the call is made, the reviews are refetched unless it
        threw, and the choice is cleared in either case. With a reply chosen
        but nobody logged in, reading `username.id` throws before the `try`
        and nothing changes. */
    method HandleDeleteReply(username: Option<User>, callThrows: bool)
      returns (call: Option<DeleteCall>, refetch: bool)
      modifies this
      ensures DeleteActs(old(replyToDelete), username) ==>
                call == Some(DeleteReply(old(replyToDelete).value.reviewId, username.value.id))
                && refetch == !callThrows && replyToDelete.None?
      ensures !DeleteActs(old(replyToDelete), username) ==>
                call.None? && !refetch && replyToDelete == old(replyToDelete)
      ensures reviewToDelete == old(reviewToDelete)
      ensures reviews == old(reviews) && followingUsers == old(followingUsers)
      ensures editReviewId == old(editReviewId)
    {
      call, refetch := None, false;
      if replyToDelete.Some? && username.Some? && username.value.id != 0 {
        call := Some(DeleteReply(replyToDelete.value.reviewId, username.value.id));
        refetch := !callThrows;
        replyToDelete := None;
      }
    }

    /** `handleConfirmDeleteReview`, the same for the chosen review. */
    method HandleConfirmDeleteReview(username: Option<User>, callThrows: bool)
      returns (call: Option<DeleteCall>, refetch: bool)
      modifies this
      ensures DeleteActs(old(reviewToDelete), username) ==>
                call == Some(DeleteReview(old(reviewToDelete).value.reviewId, username.value.id))
                && refetch == !callThrows && reviewToDelete.None?
      ensures !DeleteActs(old(reviewToDelete), username) ==>
                call.None? && !refetch && reviewToDelete == old(reviewToDelete)
      ensures replyToDelete == old(replyToDelete)
      ensures reviews == old(reviews) && followingUsers == old(followingUsers)
      ensures editReviewId == old(editReviewId)
    {
      call, refetch := None, false;
      if reviewToDelete.Some? && username.Some? && username.value.id != 0 {
        call := Some(DeleteReview(reviewToDelete.value.reviewId, username.value.id));
        refetch := !callThrows;
        reviewToDelete := None;
      }
    }

    /** The confirm button of the dialog: the chosen review wins; only when
        none is chosen does the reply handler run. */
    method OnConfirmDelete(username: Option<User>, callThrows: bool)
      returns (call: Option<DeleteCall>, refetch: bool)
      modifies this
      ensures old(reviewToDelete).Some? ==>
                replyToDelete == old(replyToDelete)
                && (DeleteActs(old(reviewToDelete), username) ==>
                      call == Some(DeleteReview(old(reviewToDelete).value.reviewId, username.value.id))
                      && reviewToDelete.None?)
                && (!DeleteActs(old(reviewToDelete), username) ==> call.None? && reviewToDelete == old(reviewToDelete))
      ensures old(reviewToDelete).None? ==>
                reviewToDelete.None?
                && (DeleteActs(old(replyToDelete), username) ==>
                      call == Some(DeleteReply(old(replyToDelete).value.reviewId, username.value.id))
                      && replyToDelete.None?)
                && (!DeleteActs(old(replyToDelete), username) ==> call.None? && replyToDelete == old(replyToDelete))
      ensures refetch <==> call.Some? && !callThrows
      ensures reviews == old(reviews) && followingUsers == old(followingUsers)
      ensures editReviewId == old(editReviewId)
    {
      if reviewToDelete.Some? {
        call, refetch := HandleConfirmDeleteReview(username, callThrows);
      } else {
        call, refetch := HandleDeleteReply(username, callThrows);
      }
    }

    /** The cancel buttons of the dialog: both choices are cleared. */
    method OnCancel()
      modifies this
      ensures reviewToDelete.None? && replyToDelete.None?
      ensures reviews == old(reviews) && followingUsers == old(followingUsers)
      ensures editReviewId == old(editReviewId)
    {
      reviewToDelete := None;
      replyToDelete := None;
    }
  }

  /** `target && username.id`: a delete handler goes ahead. A user id of 0
      is falsy and stops it. */
  predicate DeleteActs(target: Option<Post>, username: Option<User>)
  {
    target.Some? && username.Some? && username.value.id != 0
  }
}

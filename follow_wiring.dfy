/** How the product page wires its follow handlers into each review's
    follow button (src/pages/Product.js renders `FollowButton` with
    `isFollowing={followingUsers[review.user_id] || false}` and its own
    `handleFollow` and `handleUnfollow`). The button flips its flag only
    when the awaited handler returns normally; the page's handlers catch
    every failure themselves and always return normally. */
module FollowWiring {
  import opened Common
  import opened FollowButton
  import opened ProductPage

  /** The page's follow map after the handler a click invokes, when the
      follow or unfollow call `callThrows`. */
  function PageMapAfterClick(m: map<int, bool>, username: Option<User>, userId: int,
                             following: bool, callThrows: bool): map<int, bool>
  {
    if username.None? || username.value.id == userId || callThrows then m
    else m[userId := !following]
  }

  /** Whether the page's handler rejects, as written: never, since both
      handlers end in a `catch` that only alerts. `callThrows` is unused;
      it is kept so that this and `RethrowingHandlerRejects` read alike. */
  function PageHandlerRejects(callThrows: bool): bool
  {
    false
  }

  /** Whether the handler rejects once it rethrows after alerting, which is
      what the button's own `catch` expects. */
  function RethrowingHandlerRejects(callThrows: bool): bool
  {
    callThrows
  }

  /** As written, a failed follow still turns the button to "Unfollow":
      user 1 clicks Follow on user 2, `followUser` throws, the map keeps no
      entry for 2 (its prop stays false, so no resync happens), yet the
      button's flag becomes true. */
  lemma FailedFollowShowsUnfollow()
    ensures var me := Some(User(1));
            var m: map<int, bool> := map[];
            Label(AfterClick(me, 2, false, PageHandlerRejects(true))) == "Unfollow"
            && !IsFollowingProp(PageMapAfterClick(m, me, 2, false, true), 2)
  {
  }

  /** With a rethrowing handler, a button that agrees with the page's map
      before a click agrees with it after the click, whether or not the
      call failed. */
  lemma RethrowKeepsButtonInStep(m: map<int, bool>, me: User, userId: int, callThrows: bool)
    requires me.id != userId
    ensures var following := IsFollowingProp(m, userId);
            AfterClick(Some(me), userId, following, RethrowingHandlerRejects(callThrows))
            == IsFollowingProp(PageMapAfterClick(m, Some(me), userId, following, callThrows), userId)
  {
  }

  /** A click on a review's follow button, wired with rethrowing handlers:
      the handler the button picks runs against the page, and the button
      then applies its own rule to whether that handler rejected. A button
      in step with the page's map stays in step. */
  method ClickOnPage(page: ProductPageState, button: FollowButtonState, username: Option<User>, callThrows: bool)
    returns (call: Option<RelationCall>, alert: Alert)
    modifies page, button
    ensures page.followingUsers
            == PageMapAfterClick(old(page.followingUsers), username, button.userId, old(button.following), callThrows)
    ensures button.following
            == AfterClick(username, button.userId, old(button.following), RethrowingHandlerRejects(callThrows))
    ensures old(button.following) == IsFollowingProp(old(page.followingUsers), button.userId)
            && username.Some? && username.value.id != button.userId ==>
              button.following == IsFollowingProp(page.followingUsers, button.userId)
  {
    var handler := ClickHandler(username, button.userId, button.following);
    if handler == Unfollow {
      call, alert := page.HandleUnfollow(username, button.userId, callThrows);
    } else {
      call, alert := page.HandleFollow(username, button.userId, callThrows);
    }
    var _ := button.HandleClick(username, RethrowingHandlerRejects(callThrows));
  }
}

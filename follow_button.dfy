/** The follow button shown next to a review author's name
    (src/fragments/FollowButton.js): a local `following` flag, copied from
    the `isFollowing` prop and overwritten whenever the prop changes, and a
    click handler that delegates to the page's `handleFollow` or
    `handleUnfollow`. */
module FollowButton {
  import opened Common

  /** Which of the page's handlers a click invoked. */
  datatype Handler = Follow | Unfollow

  /** The handler a click calls: `handleFollow` when nobody is logged in or
      the button is on one's own review (the page then only alerts),
      otherwise the one that flips the current state. */
  function ClickHandler(username: Option<User>, userId: int, following: bool): (h: Handler)
    ensures h == Unfollow <==> username.Some? && username.value.id != userId && following
  {
    if username.None? || username.value.id == userId then Follow
    else if following then Unfollow
    else Follow
  }

  /** The local flag after a click, given whether the awaited handler threw:
      it flips only for a logged-in visitor on somebody else's review whose
      handler returned normally. */
  function AfterClick(username: Option<User>, userId: int, following: bool, handlerThrows: bool): (f: bool)
    ensures f != following <==> username.Some? && username.value.id != userId && !handlerThrows
  {
    if username.None? || username.value.id == userId || handlerThrows then following
    else !following
  }

  /** The button's caption. */
  function Label(following: bool): (s: string)
    ensures s == "Unfollow" <==> following
    ensures s == "Follow" <==> !following
  {
    if following then "Unfollow" else "Follow"
  }

  class FollowButtonState {
    /** The `user_id` prop: the review author this button follows. */
    const userId: int
    var following: bool

    /** `useState(isFollowing)`. */
    constructor (userId: int, isFollowing: bool)
      ensures this.userId == userId && following == isFollowing
    {
      this.userId := userId;
      following := isFollowing;
    }

    /** The effect on `[isFollowing]`: a new prop value replaces the local
        flag. */
    method SyncProp(isFollowing: bool)
      modifies this
      ensures following == isFollowing
    {
      following := isFollowing;
    }

    /** `handleClick`; `handlerThrows` says whether the awaited handler
        rejected, in which case the error is logged and the flag kept. */
    method HandleClick(username: Option<User>, handlerThrows: bool) returns (called: Handler)
      modifies this
      ensures called == ClickHandler(username, userId, old(following))
      ensures following == AfterClick(username, userId, old(following), handlerThrows)
    {
      if username.None? {
        return Follow;
      }
      if username.value.id == userId {
        return Follow;
      }
      if following {
        called := Unfollow;
        if !handlerThrows {
          following := false;
        }
      } else {
        called := Follow;
        if !handlerThrows {
          following := true;
        }
      }
    }
  }

  // ---------------------------------------------------------------------------
  // Properties

  /** The caption names what a click by a logged-in visitor on somebody
      else's review does. */
  lemma LabelNamesAction(username: Option<User>, userId: int, following: bool)
    requires username.Some? && username.value.id != userId
    ensures Label(following) == "Unfollow" <==> ClickHandler(username, userId, following) == Unfollow
    ensures Label(following) == "Follow" <==> ClickHandler(username, userId, following) == Follow
  {
  }

  /** After a click whose handler returned normally, the button is set to
      what that handler did: following after `handleFollow`, not following
      after `handleUnfollow`. */
  lemma FlagMatchesHandler(username: Option<User>, userId: int, following: bool)
    requires username.Some? && username.value.id != userId
    ensures AfterClick(username, userId, following, false)
            == (ClickHandler(username, userId, following) == Follow)
  {
  }

  /** Two clicks that both succeed bring the flag back to where it was. */
  lemma TwoClicksRestore(username: Option<User>, userId: int, following: bool)
    ensures AfterClick(username, userId, AfterClick(username, userId, following, false), false) == following
  {
  }

  /** A visitor who is logged out, or looking at their own review, never
      changes the flag, however many times they click. */
  lemma OwnOrAnonymousClicksKeepFlag(username: Option<User>, userId: int, following: bool, throws: bool)
    requires username.None? || username.value.id == userId
    ensures AfterClick(username, userId, following, throws) == following
    ensures ClickHandler(username, userId, following) == Follow
  {
  }
}

/** The private chat popup src/components/chat/PrivateChatPopup.jsx: one tab per distinct
    friend, unread counts, the mark-as-read guard, tab closing, sending, and the
    auto-scroll decision. */
module PrivateChat {
  import opened Common
  import opened Messages
  import opened Chat
  import opened Friends

  // ---------------------------------------------------------------------------
  // Distinct friends

  /** The filter with a `seen` set: the first friend of each `friend_id`, in order. */
  function UniqueFrom(fs: seq<Friend>, seen: set<UserId>): (r: seq<Friend>)
    ensures |r| <= |fs|
    ensures forall f {:trigger f in r} :: f in r ==> f in fs && f.friendId !in seen
  {
    if fs == [] then []
    else if fs[0].friendId in seen then UniqueFrom(fs[1..], seen)
    else [fs[0]] + UniqueFrom(fs[1..], seen + {fs[0].friendId})
  }

  /** `uniqueFriends`. */
  function UniqueFriends(fs: seq<Friend>): (r: seq<Friend>)
    ensures forall f :: f in r ==> f in fs
  {
    UniqueFrom(fs, {})
  }

  /** The ids of the distinct friends are the ids of the friends with repeats removed. */
  lemma {:induction false} UniqueFromIds(fs: seq<Friend>, seen: set<UserId>)
    ensures FriendIds(UniqueFrom(fs, seen)) == DedupFrom(FriendIds(fs), seen)
  {
    if fs != [] {
      assert FriendIds(fs)[0] == fs[0].friendId;
      assert FriendIds(fs)[1..] == FriendIds(fs[1..]);
      if fs[0].friendId in seen {
        UniqueFromIds(fs[1..], seen);
      } else {
        var rest := UniqueFrom(fs[1..], seen + {fs[0].friendId});
        UniqueFromIds(fs[1..], seen + {fs[0].friendId});
        assert FriendIds([fs[0]] + rest) == [fs[0].friendId] + FriendIds(rest);
      }
    }
  }

  /** Every friend id appears among the tabs exactly once. */
  lemma UniqueFriendsSpec(fs: seq<Friend>)
    ensures var ids := FriendIds(UniqueFriends(fs));
      (forall x :: x in ids <==> x in FriendIds(fs)) &&
      (forall i, j :: 0 <= i < j < |ids| ==> ids[i] != ids[j])
  {
    UniqueFromIds(fs, {});
    assert FriendIds(UniqueFriends(fs)) == Dedup(FriendIds(fs));
    DedupSpec(FriendIds(fs));
  }

  // ---------------------------------------------------------------------------
  // Unread messages

  /** The messages to `me` not yet read. */
  function UnreadIn(msgs: seq<PrivateMessage>, me: UserId): (r: seq<PrivateMessage>)
    ensures |r| <= |msgs|
    ensures forall m {:trigger m in r} :: m in r <==> m in msgs && m.receiverId == me && !m.isRead
  {
    if msgs == [] then []
    else (if msgs[0].receiverId == me && !msgs[0].isRead then [msgs[0]] else []) + UnreadIn(msgs[1..], me)
  }

  lemma {:induction false} UnreadInAppend(msgs: seq<PrivateMessage>, m: PrivateMessage, me: UserId)
    ensures UnreadIn(msgs + [m], me) ==
      UnreadIn(msgs, me) + (if m.receiverId == me && !m.isRead then [m] else [])
  {
    var last := if m.receiverId == me && !m.isRead then [m] else [];
    if msgs == [] {
      assert [] + [m] == [m];
      assert UnreadIn([m], me) == last + UnreadIn([], me);
    } else {
      var tail := msgs[1..];
      UnreadInAppend(tail, m, me);
      var t := msgs + [m];
      assert t[0] == msgs[0] && t[1..] == tail + [m];
      if msgs[0].receiverId == me && !msgs[0].isRead {
        calc {
          UnreadIn(t, me);
          [msgs[0]] + UnreadIn(tail + [m], me);
          [msgs[0]] + (UnreadIn(tail, me) + last);
          ([msgs[0]] + UnreadIn(tail, me)) + last;
        }
      } else {
        calc {
          UnreadIn(t, me);
          [] + UnreadIn(tail + [m], me);
          UnreadIn(tail, me) + last;
          ([] + UnreadIn(tail, me)) + last;
        }
      }
    }
  }

  /** `getUnreadMessages(friendId)`: the unread messages to `me` in that friend's bucket. */
  function UnreadMessages(b: Buckets, me: UserId, friendId: UserId): seq<PrivateMessage>
  {
    UnreadIn(Bucket(b, friendId), me)
  }

  /** `getUnreadCount(friendId)`. */
  function UnreadCount(b: Buckets, me: UserId, friendId: UserId): nat
  {
    |UnreadMessages(b, me, friendId)|
  }

  /** A message `me` sends to someone else never adds to any unread count; a pushed unread
      message to `me` from someone else adds exactly one, to its sender's tab only. */
  lemma PushedMessageUnread(b: Buckets, m: PrivateMessage, me: UserId, k: UserId)
    ensures m.senderId == me && m.receiverId != me ==>
      UnreadMessages(AddPrivate(b, m, me), me, k) == UnreadMessages(b, me, k)
    ensures m.receiverId == me && m.senderId != me && !m.isRead ==>
      UnreadCount(AddPrivate(b, m, me), me, k) == UnreadCount(b, me, k) + (if k == m.senderId then 1 else 0)
  {
    var key := BucketKey(m, me);
    if key.Some? && key.value == k {
      UnreadInAppend(Bucket(b, k), m, me);
    }
  }

  /** `uniqueFriends.reduce((total, friend) => total + getUnreadCount(friend.friend_id), 0)`. */
  function TotalUnread(fs: seq<Friend>, b: Buckets, me: UserId): nat
  {
    if fs == [] then 0 else UnreadCount(b, me, fs[0].friendId) + TotalUnread(fs[1..], b, me)
  }

  /** The button shows no unread badge exactly when no listed friend has an unread message. */
  lemma {:induction false} TotalUnreadZero(fs: seq<Friend>, b: Buckets, me: UserId)
    ensures TotalUnread(fs, b, me) == 0 <==> forall f :: f in fs ==> UnreadCount(b, me, f.friendId) == 0
  {
    if fs != [] {
      TotalUnreadZero(fs[1..], b, me);
      assert forall f :: f in fs <==> f == fs[0] || f in fs[1..];
    }
  }

  // ---------------------------------------------------------------------------
  // Tabs

  /** The tab `closeTab` moves to: the first friend of `fs` with another id, if any. */
  function NextTab(fs: seq<Friend>, closed: UserId): (r: Option<UserId>)
    ensures r.None? <==> forall f :: f in fs ==> f.friendId == closed
    ensures r.Some? ==> r.value != closed && exists f :: f in fs && f.friendId == r.value
  {
    if fs == [] then None
    else if fs[0].friendId != closed then Some(fs[0].friendId)
    else NextTab(fs[1..], closed)
  }

  lemma {:induction false} NextTabUniqueFrom(fs: seq<Friend>, seen: set<UserId>, closed: UserId)
    requires seen <= {closed}
    ensures NextTab(UniqueFrom(fs, seen), closed) == NextTab(fs, closed)
  {
    if fs != [] {
      if fs[0].friendId in seen {
        NextTabUniqueFrom(fs[1..], seen, closed);
      } else {
        var rest := UniqueFrom(fs[1..], seen + {fs[0].friendId});
        assert ([fs[0]] + rest)[1..] == rest;
        if fs[0].friendId == closed {
          NextTabUniqueFrom(fs[1..], seen + {fs[0].friendId}, closed);
        }
      }
    }
  }

  /** Removing repeated friends does not change which tab a close moves to: this popup and
      its earlier revision, which closes over the raw list, agree. */
  lemma NextTabIgnoresRepeats(fs: seq<Friend>, closed: UserId)
    ensures NextTab(UniqueFriends(fs), closed) == NextTab(fs, closed)
  {
    NextTabUniqueFrom(fs, {}, closed);
  }

  // ---------------------------------------------------------------------------
  // Scrolling

  /** The measurements of a messages container. */
  datatype Metrics = Metrics(scrollHeight: real, scrollTop: real, clientHeight: real)

  /** `scrollHeight - scrollTop - clientHeight <= threshold`. */
  predicate NearBottom(c: Metrics, threshold: real)
  {
    c.scrollHeight - c.scrollTop - c.clientHeight <= threshold
  }

  /** The threshold of the auto-scroll and of the scroll button. */
  const AutoScrollThreshold: real := 100.0
  const ButtonThreshold: real := 200.0

  /** `shouldShowScrollButton`: no container, no button; otherwise the button shows when
      the view is more than 200 pixels above the bottom. */
  function ShouldShowScrollButton(container: Option<Metrics>): (show: bool)
    ensures show <==> container.Some? && container.value.scrollHeight - container.value.scrollTop - container.value.clientHeight > 200.0
  {
    container.Some? && !NearBottom(container.value, ButtonThreshold)
  }

  /** While the scroll button shows, the view is too far from the bottom for the nearness
      rule, so only new messages scroll it. */
  lemma ButtonExcludesNearBottom(c: Metrics)
    requires ShouldShowScrollButton(Some(c))
    ensures !NearBottom(c, AutoScrollThreshold)
  {
  }

  /** `privateMessages[friendId]?.length || 0`. */
  function MessageCount(b: Buckets, friendId: UserId): nat
  {
    |Bucket(b, friendId)|
  }

  /** A message `me` sends raises the count of its friend's bucket by one, so the next
      scroll check sees new messages. */
  lemma SendGrowsCount(b: Buckets, m: PrivateMessage, me: UserId)
    requires m.senderId == me
    ensures MessageCount(AddPrivate(b, m, me), m.receiverId) == MessageCount(b, m.receiverId) + 1
  {
  }

  /** The popup's own text reaches the store trimmed once: trimming it again in the send
      hook changes nothing, and the row goes to the friend of the tab. */
  lemma PopupSendReachesFriend(user: AuthUser, friendId: UserId, text: string, now: int)
    requires Trim(text) != []
    ensures var d := PrivateSend(Some(user), friendId, Trim(text), now);
      d.Some? && d.value.content == Trim(text) && d.value.receiverId == friendId && d.value.senderId == user.id
  {
    TrimIdempotent(text);
    TrimEmptyIffBlank(Trim(text));
  }

  class ChatPopup {
    /** The popup is only rendered with a signed-in user; it reads `user.id` unguarded. */
    const user: AuthUser
    var isOpen: bool
    var activeTab: Option<UserId>
    var messageInputs: map<UserId, string>
    var markingAsRead: set<UserId>
    var isUserScrolling: bool
    var lastMessageCount: map<UserId, nat>

    constructor (user: AuthUser)
      ensures this.user == user && !isOpen && activeTab == None && messageInputs == map[]
      ensures markingAsRead == {} && !isUserScrolling && lastMessageCount == map[]
    {
      this.user := user;
      isOpen := false;
      activeTab := None;
      messageInputs := map[];
      markingAsRead := {};
      isUserScrolling := false;
      lastMessageCount := map[];
    }

    /** `markAsRead(friendId)`: the callback runs (`called`) only when the friend has
        unread messages and no marking for them is in progress; the friend is then marked
        as in progress, so a second request before `FinishMarking` does nothing. */
    method MarkAsRead(friendId: UserId, b: Buckets) returns (called: bool)
      modifies this
      ensures called <==> UnreadCount(b, user.id, friendId) > 0 && friendId !in old(markingAsRead)
      ensures markingAsRead == if called then old(markingAsRead) + {friendId} else old(markingAsRead)
      ensures called ==> friendId in markingAsRead
      ensures isOpen == old(isOpen) && activeTab == old(activeTab) && messageInputs == old(messageInputs)
      ensures isUserScrolling == old(isUserScrolling) && lastMessageCount == old(lastMessageCount)
    {
      called := UnreadCount(b, user.id, friendId) > 0 && friendId !in markingAsRead;
      if called {
        markingAsRead := markingAsRead + {friendId};
      }
    }

    /** The delayed removal after a marking: only that friend leaves the set. */
    method FinishMarking(friendId: UserId)
      modifies this
      ensures markingAsRead == old(markingAsRead) - {friendId}
      ensures friendId !in markingAsRead && forall x :: x != friendId ==> (x in markingAsRead <==> x in old(markingAsRead))
      ensures isOpen == old(isOpen) && activeTab == old(activeTab) && messageInputs == old(messageInputs)
      ensures isUserScrolling == old(isUserScrolling) && lastMessageCount == old(lastMessageCount)
    {
      markingAsRead := markingAsRead - {friendId};
    }

    /** `handleScroll`, and the timeout that ends it: the manual-scrolling flag. */
    method SetUserScrolling(scrolling: bool)
      modifies this
      ensures isUserScrolling == scrolling
      ensures isOpen == old(isOpen) && activeTab == old(activeTab) && messageInputs == old(messageInputs)
      ensures markingAsRead == old(markingAsRead) && lastMessageCount == old(lastMessageCount)
    {
      isUserScrolling := scrolling;
    }

    /** `smartScrollToBottom(friendId)`. It does nothing, not even recording the count,
        unless the tab is active, its container and end marker are mounted (`container`,
        `hasEnd`) and the user is not scrolling. Otherwise it scrolls (`scroll`) when the
        view is within 100 pixels of the bottom or the bucket grew since the recorded count
        (0 when none is recorded), and records the current count. */
    method SmartScroll(friendId: UserId, b: Buckets, container: Option<Metrics>, hasEnd: bool)
      returns (scroll: bool)
      modifies this
      ensures activeTab != Some(friendId) || container.None? || !hasEnd || old(isUserScrolling) ==>
        !scroll && lastMessageCount == old(lastMessageCount)
      ensures activeTab == Some(friendId) && container.Some? && hasEnd && !old(isUserScrolling) ==>
        (scroll <==> NearBottom(container.value, AutoScrollThreshold) ||
                     MessageCount(b, friendId) > (if friendId in old(lastMessageCount) then old(lastMessageCount)[friendId] else 0)) &&
        lastMessageCount == old(lastMessageCount)[friendId := MessageCount(b, friendId)]
      ensures isOpen == old(isOpen) && activeTab == old(activeTab) && messageInputs == old(messageInputs)
      ensures markingAsRead == old(markingAsRead) && isUserScrolling == old(isUserScrolling)
    {
      if activeTab != Some(friendId) || container.None? || !hasEnd || isUserScrolling {
        return false;
      }
      var current := MessageCount(b, friendId);
      var last := if friendId in lastMessageCount then lastMessageCount[friendId] else 0;
      scroll := NearBottom(container.value, AutoScrollThreshold) || current > last;
      lastMessageCount := lastMessageCount[friendId := current];
    }

    /** The reset effect, which depends on both the active tab and the message buckets, so
        it runs after every tab change and every bucket change, each time after the
        smart-scroll effect (`SmartScroll`) of the same render: with an active tab, manual
        scrolling is reset and that tab's current count is recorded. */
    method OnTabOrMessagesChange(b: Buckets)
      modifies this
      ensures activeTab.Some? ==>
        !isUserScrolling && lastMessageCount == old(lastMessageCount)[activeTab.value := MessageCount(b, activeTab.value)]
      ensures activeTab.None? ==> isUserScrolling == old(isUserScrolling) && lastMessageCount == old(lastMessageCount)
      ensures isOpen == old(isOpen) && activeTab == old(activeTab) && messageInputs == old(messageInputs)
      ensures markingAsRead == old(markingAsRead)
    {
      if activeTab.Some? {
        isUserScrolling := false;
        lastMessageCount := lastMessageCount[activeTab.value := MessageCount(b, activeTab.value)];
      }
    }

    /** `handleSendMessage(friendId)`: blank input sends nothing and changes nothing;
        otherwise the trimmed text is sent (`sent`), only that friend's input is cleared,
        and manual scrolling is reset. */
    method HandleSendMessage(friendId: UserId) returns (sent: Option<string>)
      modifies this
      ensures var text := if friendId in old(messageInputs) then old(messageInputs)[friendId] else "";
        (IsBlank(text) ==> sent == None && messageInputs == old(messageInputs) && isUserScrolling == old(isUserScrolling)) &&
        (!IsBlank(text) ==> sent == Some(Trim(text)) && messageInputs == old(messageInputs)[friendId := ""] && !isUserScrolling)
      ensures sent.Some? ==> !IsBlank(sent.value)
      ensures isOpen == old(isOpen) && activeTab == old(activeTab)
      ensures markingAsRead == old(markingAsRead) && lastMessageCount == old(lastMessageCount)
    {
      var text := if friendId in messageInputs then messageInputs[friendId] else "";
      TrimEmptyIffBlank(text);
      if Trim(text) == [] {
        return None;
      }
      TrimIdempotent(text);
      TrimEmptyIffBlank(Trim(text));
      sent := Some(Trim(text));
      messageInputs := messageInputs[friendId := ""];
      isUserScrolling := false;
    }

    /** `handleInputChange(friendId, text)`: only that friend's input changes. */
    method HandleInputChange(friendId: UserId, text: string)
      modifies this
      ensures messageInputs == old(messageInputs)[friendId := text]
      ensures isOpen == old(isOpen) && activeTab == old(activeTab) && isUserScrolling == old(isUserScrolling)
      ensures markingAsRead == old(markingAsRead) && lastMessageCount == old(lastMessageCount)
    {
      messageInputs := messageInputs[friendId := text];
    }

    /** `openChat(friendId)`: the tab becomes active, the popup is open, and manual
        scrolling is reset. */
    method OpenChat(friendId: UserId)
      modifies this
      ensures activeTab == Some(friendId) && isOpen && !isUserScrolling
      ensures messageInputs == old(messageInputs) && markingAsRead == old(markingAsRead)
      ensures lastMessageCount == old(lastMessageCount)
    {
      activeTab := Some(friendId);
      isOpen := true;
      isUserScrolling := false;
    }

    /** The friends button: `setIsOpen(!isOpen)`. */
    method ToggleOpen()
      modifies this
      ensures isOpen == !old(isOpen)
      ensures activeTab == old(activeTab) && messageInputs == old(messageInputs) && isUserScrolling == old(isUserScrolling)
      ensures markingAsRead == old(markingAsRead) && lastMessageCount == old(lastMessageCount)
    {
      isOpen := !isOpen;
    }

    /** `closeTab(friendId)`: closing a tab that is not active changes nothing; closing the
        active one moves to the first other distinct friend, or, when there is none,
        clears the tab and closes the popup. */
    method CloseTab(friendId: UserId, friends: seq<Friend>)
      modifies this
      ensures old(activeTab) != Some(friendId) ==> activeTab == old(activeTab) && isOpen == old(isOpen)
      ensures old(activeTab) == Some(friendId) && NextTab(UniqueFriends(friends), friendId).Some? ==>
        activeTab == NextTab(UniqueFriends(friends), friendId) && activeTab != Some(friendId) && isOpen == old(isOpen)
      ensures old(activeTab) == Some(friendId) && NextTab(UniqueFriends(friends), friendId).None? ==>
        activeTab == None && !isOpen
      ensures messageInputs == old(messageInputs) && isUserScrolling == old(isUserScrolling)
      ensures markingAsRead == old(markingAsRead) && lastMessageCount == old(lastMessageCount)
    {
      if activeTab == Some(friendId) {
        var next := NextTab(UniqueFriends(friends), friendId);
        if next.Some? {
          activeTab := next;
        } else {
          activeTab := None;
          isOpen := false;
        }
      }
    }
  }
}

/** The earlier private chat popup src/components/PrivateChatPopup.jsx: tabs over the raw
    friend list, unread counts, sending, input changes and opening a chat. */
module LegacyPrivateChat {
  import opened Common
  import opened Chat
  import opened Friends
  import opened PrivateChat

  /** The unread count of this revision is the one of the later popup: messages to `me`
      in the friend's bucket that are not read, so a message `me` sends never counts. */
  lemma UnreadCountCountsIncomingOnly(b: Buckets, me: UserId, friendId: UserId)
    ensures UnreadCount(b, me, friendId) <= |Bucket(b, friendId)|
    ensures forall m :: m in UnreadMessages(b, me, friendId) ==> m.receiverId == me && !m.isRead
    ensures (forall m :: m in Bucket(b, friendId) ==> m.receiverId != me || m.isRead) ==> UnreadCount(b, me, friendId) == 0
  {
    if UnreadCount(b, me, friendId) != 0 {
      assert UnreadMessages(b, me, friendId)[0] in UnreadMessages(b, me, friendId);
    }
  }

  class LegacyChatPopup {
    const user: AuthUser
    var isOpen: bool
    var activeTab: Option<UserId>
    var messageInputs: map<UserId, string>

    constructor (user: AuthUser)
      ensures this.user == user && !isOpen && activeTab == None && messageInputs == map[]
    {
      this.user := user;
      isOpen := false;
      activeTab := None;
      messageInputs := map[];
    }

    /** `handleSendMessage(friendId)`: blank input sends nothing and changes nothing;
        otherwise the trimmed text is sent (`sent`) and only that friend's input is
        cleared. */
    method HandleSendMessage(friendId: UserId) returns (sent: Option<string>)
      modifies this
      ensures var text := if friendId in old(messageInputs) then old(messageInputs)[friendId] else "";
        (IsBlank(text) ==> sent == None && messageInputs == old(messageInputs)) &&
        (!IsBlank(text) ==> sent == Some(Trim(text)) && messageInputs == old(messageInputs)[friendId := ""])
      ensures sent.Some? ==> !IsBlank(sent.value)
      ensures isOpen == old(isOpen) && activeTab == old(activeTab)
    {
      var text := if friendId in messageInputs then messageInputs[friendId] else "";
      TrimEmptyIffBlank(text);
      if Trim(text) == [] {
        return None;
      }
      TrimIdempotent(text);
      TrimEmptyIffBlank(Trim(text));
      sent := Some(Trim(text));
      messageInputs := messageInputs[friendId := ""];
    }

    /** `handleInputChange(friendId, text)`: only that friend's input changes. */
    method HandleInputChange(friendId: UserId, text: string)
      modifies this
      ensures messageInputs == old(messageInputs)[friendId := text]
      ensures isOpen == old(isOpen) && activeTab == old(activeTab)
    {
      messageInputs := messageInputs[friendId := text];
    }

    /** `openChat(friendId)`: the tab becomes active and the popup is open. */
    method OpenChat(friendId: UserId)
      modifies this
      ensures activeTab == Some(friendId) && isOpen
      ensures messageInputs == old(messageInputs)
    {
      activeTab := Some(friendId);
      isOpen := true;
    }

    /** `closeTab(friendId)` over the raw friend list, repeats included: closing a tab that
        is not active changes nothing; closing the active one moves to the first friend
        with another id, or clears the tab and closes the popup. It settles on the same
        tab as the later popup, which removes repeats first. */
    method CloseTab(friendId: UserId, friends: seq<Friend>)
      modifies this
      ensures old(activeTab) != Some(friendId) ==> activeTab == old(activeTab) && isOpen == old(isOpen)
      ensures old(activeTab) == Some(friendId) && NextTab(friends, friendId).Some? ==>
        activeTab == NextTab(friends, friendId) && activeTab == NextTab(UniqueFriends(friends), friendId) &&
        isOpen == old(isOpen)
      ensures old(activeTab) == Some(friendId) && NextTab(friends, friendId).None? ==>
        activeTab == None && !isOpen
      ensures messageInputs == old(messageInputs)
    {
      if activeTab == Some(friendId) {
        var next := NextTab(friends, friendId);
        NextTabIgnoresRepeats(friends, friendId);
        if next.Some? {
          activeTab := next;
        } else {
          activeTab := None;
          isOpen := false;
        }
      }
    }
  }
}

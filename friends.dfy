/** The hook src/hooks/useFriends.js: the short-lived friendship glows, the mutual-friend
    list, and the private-message history loaded into one bucket per friend. */
module Friends {
  import opened Common
  import opened Messages
  import opened Chat

  /** A row of `get_mutual_friends`, with the columns the chat popups read. */
  datatype Friend = Friend(friendId: UserId, friendEmail: string, isOnline: bool)

  /** An entry of `recentFriendships`: the pair from a `friendship_events` INSERT and the
      client time it arrived. */
  datatype Glow = Glow(user1: UserId, user2: UserId, timestamp: int)

  /** The expiry updater `prev.filter(f => f.timestamp !== timestamp)`. */
  function WithoutTimestamp(glows: seq<Glow>, timestamp: int): (r: seq<Glow>)
    ensures |r| <= |glows|
    ensures forall g {:trigger g in r} :: g in r <==> g in glows && g.timestamp != timestamp
  {
    if glows == [] then []
    else (if glows[0].timestamp != timestamp then [glows[0]] else []) + WithoutTimestamp(glows[1..], timestamp)
  }

  /** A list with no entry at that time is kept as it is. */
  lemma {:induction false} WithoutAbsentTimestamp(glows: seq<Glow>, timestamp: int)
    requires forall g :: g in glows ==> g.timestamp != timestamp
    ensures WithoutTimestamp(glows, timestamp) == glows
  {
    if glows != [] {
      assert glows[0] in glows;
      assert forall g :: g in glows[1..] ==> g in glows;
      WithoutAbsentTimestamp(glows[1..], timestamp);
      assert glows == [glows[0]] + glows[1..];
    }
  }

  /** Expiry undoes the append: when no other glow arrived at the same millisecond, the
      list after the timeout is the list before the event. */
  lemma {:induction false} ExpireUndoesAppend(glows: seq<Glow>, g: Glow)
    requires forall x :: x in glows ==> x.timestamp != g.timestamp
    ensures WithoutTimestamp(glows + [g], g.timestamp) == glows
  {
    if glows == [] {
      assert [] + [g] == [g];
      assert WithoutTimestamp([g], g.timestamp) == [] + WithoutTimestamp([], g.timestamp);
    } else {
      assert glows[0] in glows;
      assert forall x :: x in glows[1..] ==> x in glows;
      ExpireUndoesAppend(glows[1..], g);
      assert (glows + [g])[1..] == glows[1..] + [g];
      assert glows == [glows[0]] + glows[1..];
    }
  }

  /** The rows of `.or(and(sender=a, receiver=b), and(sender=b, receiver=a))`, in table
      order. */
  function BetweenRows(stored: seq<PrivateMessage>, a: UserId, b: UserId): (r: seq<PrivateMessage>)
    ensures |r| <= |stored|
    ensures forall m :: m in r <==> m in stored && Between(m, a, b)
  {
    if stored == [] then []
    else (if Between(stored[0], a, b) then [stored[0]] else []) + BetweenRows(stored[1..], a, b)
  }

  /** The sort key of `.order('created_at', { ascending: true })`. */
  function CreatedAt(m: PrivateMessage): int
  {
    m.createdAt
  }

  /** The bucket a successful `fetchPrivateMessages(friendId)` stores for `me`. */
  function Conversation(stored: seq<PrivateMessage>, me: UserId, friendId: UserId): seq<PrivateMessage>
  {
    SortBy(BetweenRows(stored, me, friendId), CreatedAt)
  }

  /** The bucket holds every message between the two users, in either direction, as often
      as it is stored, and nothing else, oldest first. */
  lemma ConversationSpec(stored: seq<PrivateMessage>, me: UserId, friendId: UserId)
    ensures var c := Conversation(stored, me, friendId);
      multiset(c) == multiset(BetweenRows(stored, me, friendId)) &&
      (forall m :: m in c <==> m in stored && Between(m, me, friendId)) &&
      (forall i, j :: 0 <= i < j < |c| ==> c[i].createdAt <= c[j].createdAt)
  {
    var c := Conversation(stored, me, friendId);
    forall m
      ensures m in c <==> m in stored && Between(m, me, friendId)
    {
      assert m in c <==> m in multiset(c);
      assert m in BetweenRows(stored, me, friendId) <==> m in multiset(BetweenRows(stored, me, friendId));
    }
    forall i, j | 0 <= i < j < |c|
      ensures c[i].createdAt <= c[j].createdAt
    {
      assert CreatedAt(c[i]) <= CreatedAt(c[j]);
    }
  }

  /** Replacing one bucket with a loaded conversation keeps every bucket to its own pair
      of users. */
  lemma LoadKeepsWellBucketed(b: Buckets, stored: seq<PrivateMessage>, me: UserId, friendId: UserId)
    requires WellBucketed(b, me)
    ensures WellBucketed(b[friendId := Conversation(stored, me, friendId)], me)
  {
    ConversationSpec(stored, me, friendId);
  }

  /** The ids `fetchFriends` loads a conversation for, in result order. */
  function FriendIds(fs: seq<Friend>): (r: seq<UserId>)
    ensures |r| == |fs| && forall i :: 0 <= i < |fs| ==> r[i] == fs[i].friendId
  {
    seq(|fs|, i requires 0 <= i < |fs| => fs[i].friendId)
  }

  class FriendsHook {
    /** The hook's `user` argument, fixed for the hook's life. The friendship subscription
        is made once, with no dependencies, so its handler keeps the `fetchFriends` of the
        first render and with it that render's user; a constant user makes the two agree. */
    const user: Option<AuthUser>
    var friends: seq<Friend>
    var recentFriendships: seq<Glow>

    constructor (user: Option<AuthUser>)
      ensures this.user == user && friends == [] && recentFriendships == []
    {
      this.user := user;
      friends := [];
      recentFriendships := [];
    }

    /** `fetchFriends`: without a user nothing happens; an RPC error is caught and changes
        nothing; otherwise `friends` becomes the result, or [] for a null result, and a
        conversation fetch follows for every friend (`toFetch`). */
    method FetchFriends(reply: Reply<seq<Friend>>) returns (toFetch: seq<UserId>)
      modifies this
      ensures user.None? || reply.Failed? ==> friends == old(friends) && toFetch == []
      ensures user.Some? && reply.Ok? ==>
        friends == OrEmpty(reply.data) && toFetch == FriendIds(friends)
      ensures recentFriendships == old(recentFriendships)
    {
      if user.None? || reply.Failed? {
        return [];
      }
      friends := OrEmpty(reply.data);
      toFetch := FriendIds(friends);
    }

    /** The `friendship_events` INSERT handler: the pair goes at the end of the glows with
        the arrival time, and the friend list is fetched again. */
    method OnFriendshipEvent(user1: UserId, user2: UserId, now: int, reply: Reply<seq<Friend>>)
      returns (toFetch: seq<UserId>)
      modifies this
      ensures recentFriendships == old(recentFriendships) + [Glow(user1, user2, now)]
      ensures user.None? || reply.Failed? ==> friends == old(friends) && toFetch == []
      ensures user.Some? && reply.Ok? ==>
        friends == OrEmpty(reply.data) && toFetch == FriendIds(friends)
    {
      recentFriendships := recentFriendships + [Glow(user1, user2, now)];
      toFetch := FetchFriends(reply);
    }

    /** The timeout five seconds after an event: every glow with that arrival time goes. */
    method ExpireFriendship(timestamp: int)
      modifies this
      ensures recentFriendships == WithoutTimestamp(old(recentFriendships), timestamp)
      ensures friends == old(friends)
    {
      recentFriendships := WithoutTimestamp(recentFriendships, timestamp);
    }

    /** `fetchPrivateMessages(friendId)`: without a user, or on a query error, the buckets
        stay as they were; otherwise only that friend's bucket is replaced by the loaded
        conversation, and the buckets stay each to their own pair of users. */
    method FetchPrivateMessages(friendId: UserId, chat: ChatHook, stored: seq<PrivateMessage>, ok: bool)
      modifies chat
      ensures user.None? || !ok ==> chat.privateMessages == old(chat.privateMessages)
      ensures user.Some? && ok ==>
        chat.privateMessages == old(chat.privateMessages)[friendId := Conversation(stored, user.value.id, friendId)]
      ensures user.Some? && ok ==>
        (WellBucketed(old(chat.privateMessages), user.value.id) ==> WellBucketed(chat.privateMessages, user.value.id))
      ensures chat.messages == old(chat.messages)
    {
      if user.None? || !ok {
        return;
      }
      if WellBucketed(chat.privateMessages, user.value.id) {
        LoadKeepsWellBucketed(chat.privateMessages, stored, user.value.id, friendId);
      }
      chat.privateMessages := chat.privateMessages[friendId := Conversation(stored, user.value.id, friendId)];
    }
  }
}

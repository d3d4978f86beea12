/** The hook src/hooks/useChat.js: the public chat list with its five-minute window, the
    private messages bucketed by the other party, the two send guards and the hourly
    cleanup of the public table. */
module Chat {
  import opened Common
  import opened Messages

  /** `5 * 60 * 1000`: how old a pushed public message may be and still be shown. */
  const RecentWindow: int := 300000
  /** `60 * 60 * 1000`: the age past which the cleanup deletes public messages. */
  const CleanupAge: int := 3600000

  /** `messageTime > fiveMinutesAgo`, with times in milliseconds. */
  predicate IsRecent(m: ChatMessage, now: int)
  {
    m.createdAt > now - RecentWindow
  }

  /** The private messages of one user, keyed by the other party's id. */
  type Buckets = map<UserId, seq<PrivateMessage>>

  /** `prev[friendId] || []`. */
  function Bucket(b: Buckets, k: UserId): seq<PrivateMessage>
  {
    if k in b then b[k] else []
  }

  /** `m` went from `a` to `b` or from `b` to `a`. */
  predicate Between(m: PrivateMessage, a: UserId, b: UserId)
  {
    (m.senderId == a && m.receiverId == b) || (m.senderId == b && m.receiverId == a)
  }

  /** The bucket a pushed private message goes to for user `me`: none unless `me` sent or
      received it, otherwise the other party (`me` itself for a note to self). */
  function BucketKey(m: PrivateMessage, me: UserId): (k: Option<UserId>)
    ensures k.None? <==> m.senderId != me && m.receiverId != me
    ensures k.Some? ==> Between(m, me, k.value)
    ensures k.Some? && m.senderId == me ==> k.value == m.receiverId
    ensures k.Some? && m.senderId != me ==> k.value == m.senderId
  {
    if m.receiverId != me && m.senderId != me then None
    else if m.senderId == me then Some(m.receiverId)
    else Some(m.senderId)
  }

  /** The private INSERT handler's update: a message `me` is not part of is ignored;
      otherwise it goes at the end of the other party's bucket, which is created when
      missing, and every other bucket stays as it was. */
  function AddPrivate(b: Buckets, m: PrivateMessage, me: UserId): (r: Buckets)
    ensures BucketKey(m, me).None? ==> r == b
    ensures BucketKey(m, me).Some? ==>
      var k := BucketKey(m, me).value;
      k in r && r[k] == Bucket(b, k) + [m] && r.Keys == b.Keys + {k} &&
      forall k' :: k' in b && k' != k ==> r[k'] == b[k']
  {
    match BucketKey(m, me)
    case None => b
    case Some(k) => b[k := Bucket(b, k) + [m]]
  }

  /** Every bucket holds only messages between `me` and the bucket's key. */
  ghost predicate WellBucketed(b: Buckets, me: UserId)
  {
    forall k, m :: k in b && m in b[k] ==> Between(m, me, k)
  }

  /** Pushed messages never land in the wrong conversation. */
  lemma AddPrivateKeepsWellBucketed(b: Buckets, m: PrivateMessage, me: UserId)
    requires WellBucketed(b, me)
    ensures WellBucketed(AddPrivate(b, m, me), me)
  {
    var r := AddPrivate(b, m, me);
    if BucketKey(m, me).Some? {
      var k := BucketKey(m, me).value;
      forall k', x | k' in r && x in r[k']
        ensures Between(x, me, k')
      {
        if k' == k {
          assert x in Bucket(b, k) || x == m;
        }
      }
    }
  }

  /** The row `handleSendMessage` inserts: nothing without a user or for blank content;
      otherwise the user's email and id, the trimmed content and `type` 'user'. */
  function PublicSend(user: Option<AuthUser>, content: string, now: int): (r: Option<ChatMessage>)
    ensures r.None? <==> user.None? || IsBlank(content)
    ensures r.Some? ==>
      r.value.senderEmail == user.value.email && r.value.senderId == user.value.id &&
      r.value.content == Trim(content) && r.value.kind == "user" && r.value.createdAt == now
  {
    TrimEmptyIffBlank(content);
    if user.None? || Trim(content) == [] then None
    else Some(ChatMessage(user.value.email, user.value.id, Trim(content), "user", now))
  }

  /** The object `handleSendPrivateMessage` inserts: nothing without a user or for blank
      content; otherwise from the user to `friendId`, with the trimmed content. */
  function PrivateSend(user: Option<AuthUser>, friendId: UserId, content: string, now: int): (r: Option<PrivateDraft>)
    ensures r.None? <==> user.None? || IsBlank(content)
    ensures r.Some? ==>
      r.value.senderId == user.value.id && r.value.receiverId == friendId &&
      r.value.content == Trim(content) && r.value.createdAt == now
  {
    TrimEmptyIffBlank(content);
    if user.None? || Trim(content) == [] then None
    else Some(PrivateDraft(user.value.id, friendId, Trim(content), now))
  }

  /** A public message echoed back by the store at the instant it was sent passes the
      five-minute window. */
  lemma SentPublicIsShown(user: AuthUser, content: string, now: int)
    requires !IsBlank(content)
    ensures PublicSend(Some(user), content, now).Some?
    ensures IsRecent(PublicSend(Some(user), content, now).value, now)
  {
  }

  /** A private message echoed back by the store lands in the sender's bucket for the
      friend it was sent to, whatever the store put in `is_read`. */
  lemma SentPrivateLandsWithFriend(user: AuthUser, friendId: UserId, content: string, now: int, isRead: bool)
    requires !IsBlank(content)
    ensures var d := PrivateSend(Some(user), friendId, content, now);
      d.Some? &&
      BucketKey(PrivateMessage(d.value.senderId, d.value.receiverId, d.value.content, d.value.createdAt, isRead), user.id)
        == Some(friendId)
  {
  }

  /** The public messages the cleanup leaves: `.delete().lt('created_at', oneHourAgo)`
      removes exactly those created strictly before the cutoff. */
  function Cleaned(stored: seq<ChatMessage>, now: int): (r: seq<ChatMessage>)
    ensures |r| <= |stored|
    ensures forall m {:trigger m in r} :: m in r <==> m in stored && m.createdAt >= now - CleanupAge
  {
    if stored == [] then []
    else (if stored[0].createdAt >= now - CleanupAge then [stored[0]] else []) + Cleaned(stored[1..], now)
  }

  /** A second cleanup at the same instant deletes nothing more. */
  lemma {:induction false} CleanedIdempotent(stored: seq<ChatMessage>, now: int)
    ensures Cleaned(Cleaned(stored, now), now) == Cleaned(stored, now)
  {
    if stored != [] {
      var rest := Cleaned(stored[1..], now);
      CleanedIdempotent(stored[1..], now);
      if stored[0].createdAt >= now - CleanupAge {
        var kept := [stored[0]] + rest;
        assert Cleaned(stored, now) == kept;
        assert kept[0] == stored[0] && kept[1..] == rest;
        assert Cleaned(kept, now) == [stored[0]] + Cleaned(rest, now);
      } else {
        assert Cleaned(stored, now) == rest;
      }
    }
  }

  /** The cleanup never deletes a message the five-minute window would still show. */
  lemma CleanupKeepsRecent(stored: seq<ChatMessage>, m: ChatMessage, now: int)
    requires m in stored && IsRecent(m, now)
    ensures m in Cleaned(stored, now)
  {
  }

  /** The public `chat_messages` table, as far as the cleanup sees it. */
  class ChatTable {
    var rows: seq<ChatMessage>

    constructor (rows: seq<ChatMessage>)
      ensures this.rows == rows
    {
      this.rows := rows;
    }

    /** The cleanup delete: on success only the rows older than an hour go. */
    method DeleteOlderThanHour(now: int, ok: bool)
      modifies this
      ensures rows == if ok then Cleaned(old(rows), now) else old(rows)
    {
      if ok {
        rows := Cleaned(rows, now);
      }
    }
  }

  class ChatHook {
    const user: Option<AuthUser>
    var messages: seq<ChatMessage>
    var privateMessages: Buckets

    constructor (user: Option<AuthUser>)
      ensures this.user == user && messages == [] && privateMessages == map[]
    {
      this.user := user;
      messages := [];
      privateMessages := map[];
    }

    /** The public INSERT handler, subscribed only with a user: a message created within
        the last five minutes goes at the end, an older one is dropped. */
    method OnPublicInsert(m: ChatMessage, now: int)
      modifies this
      ensures messages == if user.Some? && IsRecent(m, now) then old(messages) + [m] else old(messages)
      ensures privateMessages == old(privateMessages)
    {
      if user.Some? && IsRecent(m, now) {
        messages := messages + [m];
      }
    }

    /** The private INSERT handler, subscribed only with a user. */
    method OnPrivateInsert(m: PrivateMessage)
      modifies this
      ensures privateMessages == if user.Some? then AddPrivate(old(privateMessages), m, user.value.id) else old(privateMessages)
      ensures user.Some? ==> (WellBucketed(old(privateMessages), user.value.id) ==> WellBucketed(privateMessages, user.value.id))
      ensures messages == old(messages)
    {
      if user.Some? {
        if WellBucketed(privateMessages, user.value.id) {
          AddPrivateKeepsWellBucketed(privateMessages, m, user.value.id);
        }
        privateMessages := AddPrivate(privateMessages, m, user.value.id);
      }
    }

    /** The cleanup timer, started only with a user. */
    method Cleanup(table: ChatTable, now: int, ok: bool)
      modifies table
      ensures table.rows == if user.Some? && ok then Cleaned(old(table.rows), now) else old(table.rows)
    {
      if user.Some? {
        table.DeleteOlderThanHour(now, ok);
      }
    }
  }
}

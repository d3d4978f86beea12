/** The hook src/hooks/useAuth.js: marking the user online with a one-time join
    announcement, the elevated-privilege offline call, and system messages. */
module Auth {
  import opened Common
  import opened Users
  import opened Messages

  /** The all-zero `sender_id` of system messages. */
  const SystemSenderId: UserId := "00000000-0000-0000-0000-000000000000"

  /** The row `sendSystemMessage(content, type = 'info')` inserts at time `now`. */
  function SystemMessage(content: string, kind: Option<string>, now: int): (m: ChatMessage)
    ensures m.senderEmail == Some("system") && m.senderId == SystemSenderId
    ensures m.content == content && m.createdAt == now
    ensures kind.None? ==> m.kind == "info"
    ensures kind.Some? ==> m.kind == kind.value
  {
    ChatMessage(Some("system"), SystemSenderId, content, if kind.Some? then kind.value else "info", now)
  }

  /** `${authUser.email} joined the chat`: an undefined email prints as "undefined". */
  function JoinText(u: AuthUser): (r: string)
    ensures |r| >= |JoinSuffix| && r[|r| - |JoinSuffix|..] == JoinSuffix
    ensures u.email.Some? ==> |r| == |u.email.value| + |JoinSuffix| && r[..|u.email.value|] == u.email.value
  {
    (if u.email.Some? then u.email.value else "undefined") + JoinSuffix
  }

  const JoinSuffix: string := " joined the chat"

  /** Two users with emails get the same announcement only when their emails agree, so
      the text names who joined. */
  lemma JoinTextNamesUser(u: AuthUser, v: AuthUser)
    requires u.email.Some? && v.email.Some?
    ensures JoinText(u) == JoinText(v) <==> u.email == v.email
  {
    if JoinText(u) == JoinText(v) {
      var t := JoinText(u);
      assert |u.email.value| == |v.email.value|;
      assert u.email.value == t[..|u.email.value|] == v.email.value;
    }
  }

  class AuthHook {
    /** `hasSentJoinMessageRef.current`. */
    var hasSentJoinMessage: bool
    /** The `chat_messages` rows this hook's inserts stored, oldest first. */
    var chatMessages: seq<ChatMessage>
    /** The arguments passed to `get_or_create_user_position`, oldest first. */
    var positionRequests: seq<PositionRequest>
    /** The emails passed to `mark_user_offline_by_email`, oldest first. */
    var offlineRequests: seq<string>

    constructor ()
      ensures !hasSentJoinMessage && chatMessages == [] && positionRequests == [] && offlineRequests == []
    {
      hasSentJoinMessage := false;
      chatMessages := [];
      positionRequests := [];
      offlineRequests := [];
    }

    /** `sendSystemMessage`: an insert that fails is only logged, so the stored rows grow
        by the message exactly when the insert succeeds. */
    method SendSystemMessage(content: string, kind: Option<string>, now: int, insertOk: bool)
      modifies this
      ensures chatMessages == old(chatMessages) + (if insertOk then [SystemMessage(content, kind, now)] else [])
      ensures hasSentJoinMessage == old(hasSentJoinMessage)
      ensures positionRequests == old(positionRequests) && offlineRequests == old(offlineRequests)
    {
      if insertOk {
        chatMessages := chatMessages + [SystemMessage(content, kind, now)];
      }
    }

    /** `markUserOnline(authUser, fetchAllUsers)`: the procedure is called with the
        lower-cased email; if it fails, the `catch` ends the call with no refresh, no message
        and the flag as it was. Otherwise `fetchAllUsers` runs only when it was supplied, and
        the join message is sent only while the flag is down, after which the flag is up
        even if the insert failed. `fetched` says whether `fetchAllUsers` was called. */
    method MarkUserOnline(authUser: AuthUser, rpcOk: bool, fetchSupplied: bool, insertOk: bool, now: int)
      returns (fetched: bool)
      modifies this
      ensures positionRequests == old(positionRequests) + [PositionRequest(authUser.id, UserKey(authUser))]
      ensures fetched <==> rpcOk && fetchSupplied
      ensures !rpcOk ==> hasSentJoinMessage == old(hasSentJoinMessage) && chatMessages == old(chatMessages)
      ensures rpcOk ==> hasSentJoinMessage
      ensures rpcOk && !old(hasSentJoinMessage) ==>
        chatMessages == old(chatMessages) + (if insertOk then [SystemMessage(JoinText(authUser), Some("join"), now)] else [])
      ensures rpcOk && old(hasSentJoinMessage) ==> chatMessages == old(chatMessages)
      ensures offlineRequests == old(offlineRequests)
    {
      var email := UserKey(authUser);
      positionRequests := positionRequests + [PositionRequest(authUser.id, email)];
      fetched := false;
      if !rpcOk {
        return;
      }
      if fetchSupplied {
        fetched := true;
      }
      if !hasSentJoinMessage {
        SendSystemMessage(JoinText(authUser), Some("join"), now, insertOk);
        hasSentJoinMessage := true;
      }
    }

    /** `markUserOfflineViaService(email, fetchAllUsers)`: the elevated-privilege procedure
        is called with `email` as given; the refresh follows when it was supplied, unless
        the call threw (an error reply is not checked). */
    method MarkUserOfflineViaService(email: string, rpcThrew: bool, fetchSupplied: bool)
      returns (fetched: bool)
      modifies this
      ensures offlineRequests == old(offlineRequests) + [email]
      ensures fetched <==> !rpcThrew && fetchSupplied
      ensures hasSentJoinMessage == old(hasSentJoinMessage) && chatMessages == old(chatMessages)
      ensures positionRequests == old(positionRequests)
    {
      offlineRequests := offlineRequests + [email];
      fetched := !rpcThrew && fetchSupplied;
    }
  }

  /** The join announcement is sent at most once per flag lifetime: of two successive
      `markUserOnline` calls, however each step fares, at most one stores a message. */
  method JoinAnnouncedAtMostOnce(hook: AuthHook, u: AuthUser, rpcOk1: bool, rpcOk2: bool,
                                 insertOk1: bool, insertOk2: bool, now1: int, now2: int)
    modifies hook
    ensures |hook.chatMessages| <= |old(hook.chatMessages)| + 1
    ensures old(hook.hasSentJoinMessage) ==> hook.chatMessages == old(hook.chatMessages)
  {
    var _ := hook.MarkUserOnline(u, rpcOk1, true, insertOk1, now1);
    var _ := hook.MarkUserOnline(u, rpcOk2, true, insertOk2, now2);
  }
}

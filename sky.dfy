/** The star field src/components/ui/NightSky.jsx: which star is the signed-in user's, which
    stars are followed, the room handed to the chat panel, the status line, and the row
    the room chat sends. */
module Sky {
  import opened Common
  import opened Users
  import opened Messages
  import opened RoomStore
  import opened RoomChat

  /** `(u.email || "").toLowerCase() === (user.email || "").toLowerCase()`. */
  predicate IsCurrentUserStar(u: UserRow, user: AuthUser)
  {
    EmailKey(u) == UserKey(user)
  }

  /** The match ignores case on both sides: a star whose stored email is the lower-cased
      form of another's matches the same user. */
  lemma {:induction false} CurrentUserStarIgnoresCase(u: UserRow, user: AuthUser)
    ensures IsCurrentUserStar(u.(email := Has(EmailKey(u))), user) == IsCurrentUserStar(u, user)
    ensures IsCurrentUserStar(u, user) ==
      IsCurrentUserStar(u, user.(email := Some(UserKey(user))))
  {
    LowerIdempotent(Coalesce(u.email, ""));
    LowerIdempotent(if user.email.Some? then user.email.value else "");
  }

  /** `followingList.includes(u.user_id)`: a star without a `user_id` is never followed. */
  predicate IsFollowing(followingList: seq<UserId>, u: UserRow)
  {
    u.userId.Has? && u.userId.value in followingList
  }

  /** A star is drawn as followed exactly when some entry of the list is its `user_id`;
      following is decided by the id alone, so the rest of the row does not matter. */
  lemma IsFollowingSpec(followingList: seq<UserId>, u: UserRow, v: UserRow)
    ensures IsFollowing(followingList, u) <==>
      exists i :: 0 <= i < |followingList| && u.userId == Has(followingList[i])
    ensures u.userId == v.userId ==> IsFollowing(followingList, u) == IsFollowing(followingList, v)
    ensures IsFollowing(followingList, u) ==> IsFollowing(followingList + [u.userId.value], u)
  {
    if IsFollowing(followingList, u) {
      var i :| 0 <= i < |followingList| && followingList[i] == u.userId.value;
      assert (followingList + [u.userId.value])[i] == followingList[i];
    }
  }

  /** The `room` prop of the chat panel: nothing without a current room, otherwise the
      first listed room with that id, and nothing when none is listed. */
  function ChatRoom(currentUserRoom: Option<RowId>, rooms: seq<RoomView>): (r: Option<RoomView>)
    ensures currentUserRoom.None? ==> r.None?
    ensures currentUserRoom.Some? ==>
      (r.None? <==> forall i :: 0 <= i < |rooms| ==> rooms[i].row.id != currentUserRoom.value)
    ensures r.Some? ==>
      exists k :: 0 <= k < |rooms| && rooms[k] == r.value && r.value.row.id == currentUserRoom.value &&
        forall j :: 0 <= j < k ==> rooms[j].row.id != currentUserRoom.value
  {
    if currentUserRoom.None? then None
    else
      match FindIndex(rooms, (v: RoomView) => v.row.id == currentUserRoom.value)
      case None => None
      case Some(k) => Some(rooms[k])
  }

  /** The "You are in" line, shown only with a current room: the matched room's name, or
      'a room' when no listed room has that id or its name is empty. */
  function StatusLabel(currentUserRoom: Option<RowId>, rooms: seq<RoomView>): (s: Option<string>)
    ensures s.None? <==> currentUserRoom.None?
    ensures s.Some? && ChatRoom(currentUserRoom, rooms).Some? && ChatRoom(currentUserRoom, rooms).value.row.name != "" ==>
      s.value == ChatRoom(currentUserRoom, rooms).value.row.name
    ensures s.Some? && (ChatRoom(currentUserRoom, rooms).None? || ChatRoom(currentUserRoom, rooms).value.row.name == "") ==>
      s.value == "a room"
  {
    if currentUserRoom.None? then None
    else
      var room := ChatRoom(currentUserRoom, rooms);
      Some(if room.Some? && room.value.row.name != "" then room.value.row.name else "a room")
  }

  /** The `onSendMessage` the star field hands the chat panel: with no user, no current room
      or blank content nothing is inserted; otherwise the `room_messages` row for the current
      room, from the user, with the trimmed content and `type` 'user'. */
  function SendRoomMessage(user: Option<AuthUser>, currentUserRoom: Option<RowId>, content: string, now: int)
    : (r: Option<RoomMessage>)
    ensures r.None? <==> user.None? || currentUserRoom.None? || IsBlank(content)
    ensures r.Some? ==>
      r.value.roomId == currentUserRoom.value && r.value.senderId == user.value.id &&
      r.value.senderEmail == user.value.email && r.value.content == Trim(content) &&
      r.value.kind == "user" && r.value.createdAt == now
  {
    TrimEmptyIffBlank(content);
    if user.None? || currentUserRoom.None? || Trim(content) == [] then None
    else Some(RoomMessage(currentUserRoom.value, user.value.id, user.value.email, Trim(content), "user", now))
  }

  /** What the chat panel submits reaches the room unchanged: the panel's trimmed text is
      not blank, trimming it again changes nothing, and the stored row is shown as the
      user's own message and not as a system message. */
  lemma SubmitReachesRoom(user: AuthUser, room: RowId, text: string, now: int)
    requires Trim(text) != [] && user.email.Some?
    ensures var r := SendRoomMessage(Some(user), Some(room), Trim(text), now);
      r.Some? && r.value.content == Trim(text) && r.value.roomId == room &&
      IsOwnMessage(r.value, Some(user)) && !IsSystemMessage(r.value)
  {
    TrimIdempotent(text);
    TrimEmptyIffBlank(Trim(text));
  }

  /** A message the panel sends is drawn on the right for its sender and on the left for
      a reader with another email or none; no reader sees it centred as a system row. */
  lemma SentMessagePlacement(user: AuthUser, room: RowId, text: string, now: int, reader: Option<AuthUser>)
    requires Trim(text) != [] && user.email.Some?
    ensures var r := SendRoomMessage(Some(user), Some(room), Trim(text), now);
      r.Some? &&
      PlacementOf(r.value, Some(user)) == Right &&
      (reader.None? || reader.value.email != user.email ==> PlacementOf(r.value, reader) == Left)
  {
    SubmitReachesRoom(user, room, text, now);
  }
}

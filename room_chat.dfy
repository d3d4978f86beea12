/** The room chat panel src/components/ChatPanel.jsx: the messages of the current room, its
    live room row, sending, and the owner's kick and ownership transfer. */
module RoomChat {
  import opened Common
  import opened Messages
  import opened RoomStore

  /** The `room_messages` rows of one room, in table order. */
  function MessagesOf(stored: seq<RoomMessage>, room: RowId): (r: seq<RoomMessage>)
    ensures |r| <= |stored|
    ensures forall m {:trigger m in r} :: m in r <==> m in stored && m.roomId == room
  {
    if stored == [] then []
    else (if stored[0].roomId == room then [stored[0]] else []) + MessagesOf(stored[1..], room)
  }

  /** The sort key of `.order('created_at', { ascending: true })`. */
  function SentAt(m: RoomMessage): int
  {
    m.createdAt
  }

  /** What a successful `fetchRoomMessages` stores: the room's messages, oldest first. */
  function RoomHistory(stored: seq<RoomMessage>, room: RowId): seq<RoomMessage>
  {
    SortBy(MessagesOf(stored, room), SentAt)
  }

  /** The history holds every message of the room, as often as it is stored, and nothing
      else, in ascending `created_at` order. */
  lemma RoomHistorySpec(stored: seq<RoomMessage>, room: RowId)
    ensures multiset(RoomHistory(stored, room)) == multiset(MessagesOf(stored, room))
    ensures forall m :: m in RoomHistory(stored, room) <==> m in stored && m.roomId == room
    ensures forall i, j :: 0 <= i < j < |RoomHistory(stored, room)| ==>
      RoomHistory(stored, room)[i].createdAt <= RoomHistory(stored, room)[j].createdAt
  {
    var h := RoomHistory(stored, room);
    forall m
      ensures m in h <==> m in stored && m.roomId == room
    {
      assert m in h <==> m in multiset(h);
      assert m in MessagesOf(stored, room) <==> m in multiset(MessagesOf(stored, room));
    }
    forall i, j | 0 <= i < j < |h|
      ensures h[i].createdAt <= h[j].createdAt
    {
      assert SentAt(h[i]) <= SentAt(h[j]);
    }
  }

  /** `setCurrentRoom(prev => ({ ...prev, ...payload.new }))`: a realtime UPDATE carries the
      whole new row, so every column comes from the payload and only the client-side
      `creator_email` survives from the previous value. */
  function MergeRoomUpdate(prev: Option<RoomView>, row: Room): (r: RoomView)
    ensures r.row == row
    ensures r.creatorEmail == if prev.Some? then prev.value.creatorEmail else None
  {
    RoomView(row, if prev.Some? then prev.value.creatorEmail else None)
  }

  /** Receiving the same UPDATE twice leaves the room as receiving it once. */
  lemma MergeRoomUpdateIdempotent(prev: Option<RoomView>, row: Room)
    ensures MergeRoomUpdate(Some(MergeRoomUpdate(prev, row)), row) == MergeRoomUpdate(prev, row)
  {
  }

  /** The `chat_rooms` rows with id `id`. */
  function RoomsWithId(rooms: seq<Room>, id: RowId): (r: seq<Room>)
    ensures |r| <= |rooms|
    ensures forall x {:trigger x in r} :: x in r <==> x in rooms && x.id == id
  {
    if rooms == [] then []
    else (if rooms[0].id == id then [rooms[0]] else []) + RoomsWithId(rooms[1..], id)
  }

  /** A `type` other than 'user' marks a system message. */
  predicate IsSystemMessage(m: RoomMessage)
  {
    m.kind != "user"
  }

  /** `m.sender_email === user?.email`. A stored row's missing email is `null` while a
      missing user or email is `undefined`, and strict equality tells them apart, so only
      a signed-in user with an email can own a message. */
  predicate IsOwnMessage(m: RoomMessage, user: Option<AuthUser>)
  {
    user.Some? && user.value.email.Some? && m.senderEmail == user.value.email
  }

  /** How the message list draws a row: system rows centred, the user's own on the right,
      everyone else's on the left. */
  datatype Placement = Centered | Right | Left

  function PlacementOf(m: RoomMessage, user: Option<AuthUser>): (r: Placement)
    ensures r == Centered <==> IsSystemMessage(m)
    ensures r == Right <==> !IsSystemMessage(m) && IsOwnMessage(m, user)
    ensures r == Left <==> !IsSystemMessage(m) && !IsOwnMessage(m, user)
  {
    if IsSystemMessage(m) then Centered
    else if IsOwnMessage(m, user) then Right
    else Left
  }

  /** Whose side a message is drawn on: a message without a sender email is nobody's, a
      user without an email owns none, and two users who both own a message share its
      email. */
  lemma OwnMessageSpec(m: RoomMessage, user: Option<AuthUser>, other: AuthUser)
    ensures m.senderEmail.None? ==> !IsOwnMessage(m, user)
    ensures user.None? || user.value.email.None? ==> !IsOwnMessage(m, user)
    ensures IsOwnMessage(m, user) && IsOwnMessage(m, Some(other)) ==> user.value.email == other.email
    ensures IsOwnMessage(m, user) ==> m.senderEmail.Some? && m.senderEmail.value == user.value.email.value
  {
  }

  /** How the start of `handleKickUser` ends: with the `TypeError` of reading `room.id`,
      by returning at the guard, or by going on to the delete. */
  datatype KickEntry = Throws | Returns | Proceeds

  /** The start of `handleKickUser` as written: the log line reads `room.id` before the
      guard `!room` is evaluated, so without a room the handler throws. */
  function KickEntryAsWritten(room: Option<RoomView>, confirmed: bool): KickEntry
  {
    if room.None? then Throws
    else if !confirmed then Returns
    else Proceeds
  }

  /** The start of `handleKickUser` as its guard intends: no room, or no confirmation,
      returns quietly. */
  function KickStart(room: Option<RoomView>, confirmed: bool): (e: KickEntry)
    ensures e != Throws
    ensures e == Proceeds <==> room.Some? && confirmed
  {
    if room.None? || !confirmed then Returns else Proceeds
  }

  /** The guard `!room` can never fire as written: without a room the handler has already
      thrown. With a room both starts agree, so the store is touched in the same cases. */
  lemma KickGuardUnreachable(confirmed: bool)
    ensures KickEntryAsWritten(None, confirmed) == Throws
    ensures KickStart(None, confirmed) == Returns
    ensures forall v :: KickEntryAsWritten(Some(v), confirmed) == KickStart(Some(v), confirmed)
  {
  }

  class ChatPanel {
    const user: Option<AuthUser>
    /** The `room` prop. */
    const room: Option<RoomView>
    var text: string
    var roomMessages: seq<RoomMessage>
    var currentRoom: Option<RoomView>

    constructor (user: Option<AuthUser>, room: Option<RoomView>)
      ensures this.user == user && this.room == room
      ensures text == "" && roomMessages == [] && currentRoom == room
    {
      this.user := user;
      this.room := room;
      text := "";
      roomMessages := [];
      currentRoom := room;
    }

    /** The messages effect: without a room the list is emptied; otherwise a successful
        fetch replaces it with the room's history and an error keeps it. */
    method LoadRoomMessages(stored: seq<RoomMessage>, ok: bool)
      modifies this
      ensures room.None? ==> roomMessages == []
      ensures room.Some? && ok ==> roomMessages == RoomHistory(stored, room.value.row.id)
      ensures room.Some? && !ok ==> roomMessages == old(roomMessages)
      ensures text == old(text) && currentRoom == old(currentRoom)
    {
      if room.None? {
        roomMessages := [];
      } else if ok {
        roomMessages := RoomHistory(stored, room.value.row.id);
      }
    }

    /** The `room_messages` INSERT handler: the message goes at the end. */
    method OnRoomMessage(m: RoomMessage)
      modifies this
      ensures roomMessages == old(roomMessages) + [m]
      ensures text == old(text) && currentRoom == old(currentRoom)
    {
      roomMessages := roomMessages + [m];
    }

    /** The `chat_rooms` UPDATE handler for this room. */
    method OnRoomUpdated(row: Room)
      modifies this
      ensures currentRoom == Some(MergeRoomUpdate(old(currentRoom), row))
      ensures text == old(text) && roomMessages == old(roomMessages)
    {
      currentRoom := Some(MergeRoomUpdate(currentRoom, row));
    }

    /** `refreshRoomData`, run on every membership change of the room: `single()` succeeds
        only when exactly one row has the id, and then the bare row replaces the current
        room, which drops its `creator_email`; otherwise nothing changes. */
    method RefreshRoomData(store: Store, ok: bool)
      modifies this
      ensures room.Some? && ok && |RoomsWithId(store.rooms, room.value.row.id)| == 1 ==>
        currentRoom == Some(RoomView(RoomsWithId(store.rooms, room.value.row.id)[0], None))
      ensures !(room.Some? && ok && |RoomsWithId(store.rooms, room.value.row.id)| == 1) ==>
        currentRoom == old(currentRoom)
      ensures text == old(text) && roomMessages == old(roomMessages)
    {
      if room.None? || !ok {
        return;
      }
      var rows := RoomsWithId(store.rooms, room.value.row.id);
      if |rows| == 1 {
        currentRoom := Some(RoomView(rows[0], None));
      }
    }

    /** `handleSubmit`: blank text or no room sends nothing and keeps the text; otherwise
        the trimmed text goes to `onSendMessage` when one was passed (`sent`), and the text
        is cleared. */
    method HandleSubmit(hasSender: bool) returns (sent: Option<string>)
      modifies this
      ensures Trim(old(text)) == [] || room.None? ==> sent == None && text == old(text)
      ensures Trim(old(text)) != [] && room.Some? ==>
        text == "" && sent == (if hasSender then Some(Trim(old(text))) else None)
      ensures sent.Some? ==> !IsBlank(sent.value)
      ensures roomMessages == old(roomMessages) && currentRoom == old(currentRoom)
    {
      if Trim(text) == [] || room.None? {
        return None;
      }
      sent := if hasSender then Some(Trim(text)) else None;
      if hasSender {
        TrimIdempotent(text);
        TrimEmptyIffBlank(Trim(text));
      }
      text := "";
    }

    /** `handleKickUser(userId)` after its guard: only the user's membership rows in this
        room are deleted, when the delete succeeds; the slot count, the other rows and the
        bans are left alone. */
    method HandleKickUser(userId: UserId, store: Store, confirmed: bool, ok: bool) returns (entry: KickEntry)
      requires store.Valid()
      modifies store
      ensures store.Valid()
      ensures entry == KickStart(room, confirmed)
      ensures entry == Proceeds && ok ==>
        store.memberships == WithoutMember(old(store.memberships), userId, room.value.row.id)
      ensures !(entry == Proceeds && ok) ==> store.memberships == old(store.memberships)
      ensures store.rooms == old(store.rooms) && store.bans == old(store.bans) && store.nextId == old(store.nextId)
    {
      entry := KickStart(room, confirmed);
      if entry == Proceeds {
        var _ := store.DeleteMembership(userId, room.value.row.id, ok);
      }
    }

    /** `handleTransferOwnership(newOwnerId)`: without a room or a confirmation nothing
        happens; otherwise only `owner_id` of this room is written, when the update
        succeeds, after which a page reload is scheduled (`reload`). */
    method HandleTransferOwnership(newOwner: UserId, store: Store, confirmed: bool, ok: bool) returns (reload: bool)
      requires store.Valid()
      modifies store
      ensures store.Valid()
      ensures room.Some? && confirmed && ok ==>
        reload && store.rooms == WithOwner(old(store.rooms), room.value.row.id, newOwner)
      ensures !(room.Some? && confirmed && ok) ==> !reload && store.rooms == old(store.rooms)
      ensures store.memberships == old(store.memberships) && store.bans == old(store.bans) && store.nextId == old(store.nextId)
    {
      if room.None? || !confirmed {
        return false;
      }
      var failed := store.UpdateOwner(room.value.row.id, newOwner, ok);
      reload := !failed;
    }
  }

  /** A transfer leaves every room's slot count, capacity and visibility as they were. */
  lemma TransferKeepsSlots(rooms: seq<Room>, room: RowId, newOwner: UserId)
    ensures forall i :: 0 <= i < |rooms| ==>
      var r := WithOwner(rooms, room, newOwner)[i];
      r.currentSlots == rooms[i].currentSlots && r.maxSlots == rooms[i].maxSlots &&
      r.isPublic == rooms[i].isPublic && r.id == rooms[i].id
  {
  }
}

/** The room list panel src/components/RoomListPanel.jsx: its own listing with the owner's
    email embedded, the join sequence, its view of the current room, the room realtime
    handlers and the join button. */
module RoomList {
  import opened Common
  import opened Users
  import opened RoomStore
  import opened Rooms

  /** The owner email `user_positions!chat_rooms_owner_id_fkey (email)` embeds: the email of
      the owner's position row, `None` when there is no such row or its email is null. */
  function EmbeddedEmail(positions: seq<UserRow>, owner: UserId): (e: Option<string>)
    ensures e.Some? <==> OwnerRows(positions, owner) != [] && OwnerRows(positions, owner)[0].email.Has?
    ensures e.Some? ==>
      OwnerRows(positions, owner)[0] in positions &&
      OwnerRows(positions, owner)[0].userId == Has(owner) && OwnerRows(positions, owner)[0].email == Has(e.value)
  {
    var rows := OwnerRows(positions, owner);
    if rows != [] && rows[0].email.Has? then
      assert rows[0] in rows;
      Some(rows[0].email.value)
    else None
  }

  /** The rows a successful panel `fetchRooms` stores: the public rooms, newest first, each
      with the embedded owner email. */
  function PanelListing(rooms: seq<Room>, positions: seq<UserRow>): (r: seq<RoomView>)
    ensures var sorted := SortBy(PublicRooms(rooms), NewestFirst);
      |r| == |sorted| &&
      forall i :: 0 <= i < |r| ==> r[i] == RoomView(sorted[i], EmbeddedEmail(positions, sorted[i].ownerId))
  {
    var sorted := SortBy(PublicRooms(rooms), NewestFirst);
    seq(|sorted|, i requires 0 <= i < |sorted| => RoomView(sorted[i], EmbeddedEmail(positions, sorted[i].ownerId)))
  }

  /** `room.user_positions?.email || 'Unknown'`: the creator line of a listed room. */
  function CreatorLabel(v: RoomView): (s: string)
    ensures v.creatorEmail.Some? && v.creatorEmail.value != "" ==> s == v.creatorEmail.value
    ensures v.creatorEmail.None? || v.creatorEmail.value == "" ==> s == "Unknown"
  {
    if v.creatorEmail.Some? && v.creatorEmail.value != "" then v.creatorEmail.value else "Unknown"
  }

  /** `room.current_slots >= room.max_slots`. */
  predicate IsRoomFull(r: Room)
  {
    r.currentSlots >= r.maxSlots
  }

  /** The text of a room's join button. */
  datatype JoinLabel = JoinedLabel | JoiningLabel | FullLabel | JoinLabel

  /** The button text, chosen in the order: already in, joining, full, join. */
  function ButtonLabel(joiningRoomId: Option<RowId>, currentUserRoom: Option<RowId>, r: Room): JoinLabel
  {
    if currentUserRoom == Some(r.id) then JoinedLabel
    else if joiningRoomId == Some(r.id) then JoiningLabel
    else if IsRoomFull(r) then FullLabel
    else JoinLabel
  }

  /** `disabled={isJoining || isRoomFull || isUserInThisRoom}`. */
  predicate JoinDisabled(joiningRoomId: Option<RowId>, currentUserRoom: Option<RowId>, r: Room)
  {
    joiningRoomId == Some(r.id) || IsRoomFull(r) || currentUserRoom == Some(r.id)
  }

  /** The button can be pressed exactly when it reads "Join": a full room, the room being
      joined and the room the user is in are never offered. */
  lemma DisabledUnlessJoinLabel(joiningRoomId: Option<RowId>, currentUserRoom: Option<RowId>, r: Room)
    ensures JoinDisabled(joiningRoomId, currentUserRoom, r) <==> ButtonLabel(joiningRoomId, currentUserRoom, r) != JoinLabel
    ensures IsRoomFull(r) ==> JoinDisabled(joiningRoomId, currentUserRoom, r)
  {
  }

  /** The rooms after the DELETE handler: `prev.filter(room => room.id !== id)`. */
  function WithoutRoom(vs: seq<RoomView>, id: RowId): (r: seq<RoomView>)
    ensures |r| <= |vs|
    ensures forall v {:trigger v in r} :: v in r <==> v in vs && v.row.id != id
  {
    if vs == [] then []
    else (if vs[0].row.id != id then [vs[0]] else []) + WithoutRoom(vs[1..], id)
  }

  /** Deleting a room that was just prepended, with an id no other listed room has, gives
      back the list as it was before the insert. */
  lemma {:induction false} InsertThenDelete(vs: seq<RoomView>, row: Room)
    requires forall v :: v in vs ==> v.row.id != row.id
    ensures WithoutRoom([RoomView(row, None)] + vs, row.id) == vs
  {
    KeepsOtherIds(vs, row.id);
    assert ([RoomView(row, None)] + vs)[1..] == vs;
  }

  lemma {:induction false} KeepsOtherIds(vs: seq<RoomView>, id: RowId)
    requires forall v :: v in vs ==> v.row.id != id
    ensures WithoutRoom(vs, id) == vs
  {
    if vs != [] {
      assert vs[0] in vs;
      assert forall v :: v in vs[1..] ==> v in vs;
      KeepsOtherIds(vs[1..], id);
      assert vs == [vs[0]] + vs[1..];
    }
  }

  /** The memberships after the leave step of a join or a room creation: all of the user's
      rows are gone when the delete succeeds, and none when it fails. */
  function AfterLeave(ms: seq<Membership>, uid: UserId, leaveOk: bool): (r: seq<Membership>)
  {
    if leaveOk then WithoutUser(ms, uid) else ms
  }

  class RoomListPanel {
    const user: Option<AuthUser>
    var rooms: seq<RoomView>
    var loading: bool
    var joiningRoomId: Option<RowId>
    var currentUserRoom: Option<RowId>
    var userRoomsLoading: bool

    constructor (user: Option<AuthUser>)
      ensures this.user == user && rooms == [] && loading && joiningRoomId == None
      ensures currentUserRoom == None && userRoomsLoading
    {
      this.user := user;
      rooms := [];
      loading := true;
      joiningRoomId := None;
      currentUserRoom := None;
      userRoomsLoading := true;
    }

    /** The panel's `fetchRooms`: on success the listing replaces `rooms`, on an error it
        is kept; loading ends either way. */
    method FetchRooms(store: Store, positions: seq<UserRow>, ok: bool)
      modifies this
      ensures rooms == if ok then PanelListing(store.rooms, positions) else old(rooms)
      ensures !loading
      ensures joiningRoomId == old(joiningRoomId) && currentUserRoom == old(currentUserRoom)
      ensures userRoomsLoading == old(userRoomsLoading)
    {
      if ok {
        rooms := PanelListing(store.rooms, positions);
      }
      loading := false;
    }

    /** The panel's `fetchCurrentUserRoom`: without a user it returns before the `try`, so
        nothing changes, not even the loading flag; on a query error the current room is
        kept; otherwise it becomes the room of the user's first membership row, or `None`. */
    method FetchCurrentUserRoom(store: Store, ok: bool)
      modifies this
      ensures user.None? ==> currentUserRoom == old(currentUserRoom) && userRoomsLoading == old(userRoomsLoading)
      ensures user.Some? ==> !userRoomsLoading
      ensures user.Some? && !ok ==> currentUserRoom == old(currentUserRoom)
      ensures user.Some? && ok ==> currentUserRoom == FirstRoom(store.memberships, user.value.id)
      ensures rooms == old(rooms) && loading == old(loading) && joiningRoomId == old(joiningRoomId)
    {
      if user.None? {
        return;
      }
      var ids := store.SelectRoomsOf(user.value.id, ok);
      if ids.Some? {
        currentUserRoom := if ids.value == [] then None else Some(ids.value[0]);
      }
      userRoomsLoading := false;
    }

    /** `joinRoom(roomId)`. Without a user nothing happens. Otherwise: the leave step
        deletes every membership row of the user, and its failure is only logged; if the
        insert of the new membership fails the function returns with no recount, no
        refresh and the current room unchanged; otherwise the room becomes current and only
        the joined room is recounted, from the rows now stored, when both the count and the
        update succeed, and the listing is refreshed. Capacity and bans are not looked at.
        `joiningRoomId` is `None` after every outcome. */
    method JoinRoom(roomId: RowId, store: Store, positions: seq<UserRow>,
                    leaveOk: bool, insertOk: bool, countOk: bool, updateOk: bool, fetchOk: bool)
      requires store.Valid()
      modifies this, store
      ensures store.Valid()
      ensures user.None? ==>
        store.memberships == old(store.memberships) && store.rooms == old(store.rooms) &&
        store.nextId == old(store.nextId) && rooms == old(rooms) &&
        currentUserRoom == old(currentUserRoom) && joiningRoomId == old(joiningRoomId)
      ensures user.Some? ==> joiningRoomId == None
      ensures user.Some? && !insertOk ==>
        store.memberships == AfterLeave(old(store.memberships), user.value.id, leaveOk) &&
        store.rooms == old(store.rooms) && rooms == old(rooms) && currentUserRoom == old(currentUserRoom)
      ensures user.Some? && insertOk ==>
        store.memberships == AfterLeave(old(store.memberships), user.value.id, leaveOk) +
          [Membership(old(store.nextId), user.value.id, roomId)] &&
        currentUserRoom == Some(roomId) &&
        store.rooms == (if countOk && updateOk
                        then WithSlots(old(store.rooms), roomId, |MembersOf(store.memberships, roomId)|)
                        else old(store.rooms)) &&
        rooms == (if fetchOk then PanelListing(store.rooms, positions) else old(rooms))
      ensures user.Some? && leaveOk && insertOk ==>
        RowsOf(store.memberships, user.value.id) == [Membership(old(store.nextId), user.value.id, roomId)]
      ensures store.bans == old(store.bans)
      ensures userRoomsLoading == old(userRoomsLoading)
      ensures loading == if user.Some? && insertOk then false else old(loading)
    {
      if user.None? {
        return;
      }
      var uid := user.value.id;
      joiningRoomId := Some(roomId);
      var _ := store.DeleteMembershipsOf(uid, leaveOk);
      ghost var left := store.memberships;
      ghost var id := store.nextId;
      assert left == AfterLeave(old(store.memberships), uid, leaveOk);
      var insertFailed := store.InsertMembership(uid, roomId, insertOk);
      if insertFailed {
        joiningRoomId := None;
        return;
      }
      currentUserRoom := Some(roomId);
      if leaveOk {
        LeaveThenJoin(old(store.memberships), uid, id, roomId);
      }
      var members := store.SelectMembersOf(roomId, countOk);
      if members.Some? {
        var _ := store.UpdateSlots(roomId, |members.value|, updateOk);
      }
      FetchRooms(store, positions, fetchOk);
      joiningRoomId := None;
    }

    /** The `chat_rooms` INSERT handler: the new row goes first. */
    method OnRoomInserted(row: Room)
      modifies this
      ensures rooms == [RoomView(row, None)] + old(rooms)
      ensures currentUserRoom == old(currentUserRoom) && joiningRoomId == old(joiningRoomId)
      ensures loading == old(loading) && userRoomsLoading == old(userRoomsLoading)
    {
      rooms := [RoomView(row, None)] + rooms;
    }

    /** The `chat_rooms` DELETE handler: every listed room with that id goes. */
    method OnRoomDeleted(id: RowId)
      modifies this
      ensures rooms == WithoutRoom(old(rooms), id)
      ensures currentUserRoom == old(currentUserRoom) && joiningRoomId == old(joiningRoomId)
      ensures loading == old(loading) && userRoomsLoading == old(userRoomsLoading)
    {
      rooms := WithoutRoom(rooms, id);
    }

    /** The handler on the user's own memberships: INSERT makes its room current, DELETE
        clears it, and every event refreshes the listing. */
    method OnOwnMembershipEvent(e: MembershipEvent, store: Store, positions: seq<UserRow>, fetchOk: bool)
      modifies this
      ensures e.Inserted? ==> currentUserRoom == Some(e.newRow.roomId)
      ensures e.Deleted? ==> currentUserRoom == None
      ensures e.Updated? ==> currentUserRoom == old(currentUserRoom)
      ensures rooms == if fetchOk then PanelListing(store.rooms, positions) else old(rooms)
      ensures joiningRoomId == old(joiningRoomId)
      ensures !loading && userRoomsLoading == old(userRoomsLoading)
    {
      match e {
        case Inserted(row) =>
          currentUserRoom := Some(row.roomId);
        case Deleted(_) =>
          currentUserRoom := None;
        case Updated(_) =>
      }
      FetchRooms(store, positions, fetchOk);
    }
  }
}

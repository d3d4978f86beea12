/** The popup src/components/rooms/CreateRoomPopup.jsx: leave the current room, insert a
    public room with one occupant, then add the creator's membership. */
module CreateRoom {
  import opened Common
  import opened RoomStore
  import opened RoomList

  /** The default of the slot slider. */
  const DefaultMaxSlots: int := 10
  /** The bounds of the slot slider (`min="2" max="20"`). */
  const MinSlots: int := 2
  const MaxSlots: int := 20

  /** How one submission ended. `Crashed` is the `catch` of the `TypeError` raised by
      reading `user.id` without a user; `Created` carries the row handed to `onCreateRoom`
      and whether the creator's membership was stored. */
  datatype CreateOutcome = Ignored | Crashed | InsertFailed | Created(room: Room, joined: bool)

  /** The row the popup inserts: trimmed name and description, the user as owner, the
      chosen slot limit, one occupant, public. */
  function NewRoomRow(id: RowId, name: string, description: string, owner: UserId, maxSlots: int, now: int): (r: Room)
    ensures r.id == id && r.name == Trim(name) && r.description == Trim(description)
    ensures r.ownerId == owner && r.maxSlots == maxSlots && r.currentSlots == 1 && r.isPublic
    ensures r.createdAt == now
  {
    Room(id, Trim(name), Trim(description), owner, maxSlots, 1, true, now)
  }

  /** The three store steps of a submission by `uid`: leave, insert the room, insert the
      creator's membership. The leave failing does not stop the sequence; the room insert
      failing does, so no membership is added; the membership insert failing leaves the
      room stored with one occupant. */
  method CreateSteps(store: Store, uid: UserId, name: string, description: string, maxSlots: int,
                     leaveOk: bool, insertOk: bool, joinOk: bool, now: int)
    returns (room: Option<Room>, joined: bool)
    requires store.Valid()
    modifies store
    ensures store.Valid()
    ensures !insertOk ==>
      room == None && !joined && store.rooms == old(store.rooms) &&
      store.memberships == AfterLeave(old(store.memberships), uid, leaveOk)
    ensures insertOk ==>
      room == Some(NewRoomRow(old(store.nextId), name, description, uid, maxSlots, now)) && joined == joinOk &&
      store.rooms == old(store.rooms) + [room.value] &&
      store.memberships == AfterLeave(old(store.memberships), uid, leaveOk) +
        (if joinOk then [Membership(old(store.nextId) + 1, uid, room.value.id)] else [])
    ensures insertOk && leaveOk ==>
      RowsOf(store.memberships, uid) == (if joinOk then [Membership(old(store.nextId) + 1, uid, old(store.nextId))] else [])
    ensures store.bans == old(store.bans)
  {
    var _ := store.DeleteMembershipsOf(uid, leaveOk);
    room := store.InsertRoom(Trim(name), Trim(description), uid, maxSlots, 1, true, now, insertOk);
    if room.None? {
      return None, false;
    }
    ghost var id := store.nextId;
    var joinFailed := store.InsertMembership(uid, room.value.id, joinOk);
    joined := !joinFailed;
    if leaveOk {
      LeaveThenJoin(old(store.memberships), uid, id, room.value.id);
    }
  }

  class CreateRoomPopup {
    const user: Option<AuthUser>
    var roomName: string
    var description: string
    var maxSlots: int
    var isCreating: bool

    /** The slider keeps the slot limit within its bounds. */
    ghost predicate Valid()
      reads this
    {
      MinSlots <= maxSlots <= MaxSlots
    }

    constructor (user: Option<AuthUser>)
      ensures Valid() && this.user == user
      ensures roomName == "" && description == "" && maxSlots == DefaultMaxSlots && !isCreating
    {
      this.user := user;
      roomName := "";
      description := "";
      maxSlots := DefaultMaxSlots;
      isCreating := false;
    }

    /** The slider's `onChange`: the range input only produces values within its bounds. */
    method SetMaxSlots(v: int)
      requires Valid() && MinSlots <= v <= MaxSlots
      modifies this
      ensures Valid() && maxSlots == v
      ensures roomName == old(roomName) && description == old(description) && isCreating == old(isCreating)
    {
      maxSlots := v;
    }

    /** `handleSubmit`. A blank name, or a submission while one is in progress, does
        nothing. Otherwise: without a user the first step throws and nothing is written;
        the leave step deletes every membership of the user and its failure does not stop
        creation; an insert error stops the sequence, so no membership is added; after a
        stored room the creator's membership is inserted, and if that fails the room stays
        with one occupant and no membership row. `isCreating` is down after every outcome
        that got past the guard. */
    method HandleSubmit(store: Store, leaveOk: bool, insertOk: bool, joinOk: bool, now: int)
      returns (outcome: CreateOutcome)
      requires Valid() && store.Valid()
      modifies this, store
      ensures Valid() && store.Valid()
      ensures roomName == old(roomName) && description == old(description) && maxSlots == old(maxSlots)
      ensures Trim(roomName) == [] || old(isCreating) ==>
        outcome == Ignored && isCreating == old(isCreating) &&
        store.rooms == old(store.rooms) && store.memberships == old(store.memberships) && store.nextId == old(store.nextId)
      ensures Trim(roomName) != [] && !old(isCreating) ==> !isCreating
      ensures Trim(roomName) != [] && !old(isCreating) && user.None? ==>
        outcome == Crashed && store.rooms == old(store.rooms) && store.memberships == old(store.memberships) &&
        store.nextId == old(store.nextId)
      ensures Trim(roomName) != [] && !old(isCreating) && user.Some? && !insertOk ==>
        outcome == InsertFailed && store.rooms == old(store.rooms) &&
        store.memberships == AfterLeave(old(store.memberships), user.value.id, leaveOk)
      ensures Trim(roomName) != [] && !old(isCreating) && user.Some? && insertOk ==>
        var room := NewRoomRow(old(store.nextId), roomName, description, user.value.id, maxSlots, now);
        outcome == Created(room, joinOk) &&
        store.rooms == old(store.rooms) + [room] &&
        store.memberships == AfterLeave(old(store.memberships), user.value.id, leaveOk) +
          (if joinOk then [Membership(old(store.nextId) + 1, user.value.id, room.id)] else [])
      ensures Trim(roomName) != [] && !old(isCreating) && user.Some? && insertOk && leaveOk ==>
        RowsOf(store.memberships, user.value.id) ==
          (if joinOk then [Membership(old(store.nextId) + 1, user.value.id, old(store.nextId))] else [])
      ensures store.bans == old(store.bans)
    {
      if Trim(roomName) == [] || isCreating {
        return Ignored;
      }
      isCreating := true;
      if user.None? {
        isCreating := false;
        return Crashed;
      }
      var room, joined := CreateSteps(store, user.value.id, roomName, description, maxSlots, leaveOk, insertOk, joinOk, now);
      outcome := if room.None? then InsertFailed else Created(room.value, joined);
      isCreating := false;
    }
  }
}

/** The hook src/hooks/useRooms.js: the public room listing with creator emails, the
    signed-in user's current room, and the slot recount. */
module Rooms {
  import opened Common
  import opened Users
  import opened RoomStore

  /** The `user_positions` rows whose `user_id` is `owner`, in table order. */
  function OwnerRows(positions: seq<UserRow>, owner: UserId): (r: seq<UserRow>)
    ensures |r| <= |positions|
    ensures forall u {:trigger u in r} :: u in r <==> u in positions && u.userId == Has(owner)
  {
    if positions == [] then []
    else (if positions[0].userId == Has(owner) then [positions[0]] else []) + OwnerRows(positions[1..], owner)
  }

  /** `creator?.email || 'Unknown'` after `.eq('user_id', owner).single()`: `single` yields
      no row unless exactly one matches, and a lookup that errors (`lookupOk` false) yields
      none either. */
  function CreatorEmail(positions: seq<UserRow>, owner: UserId, lookupOk: bool): (e: string)
    ensures e == "Unknown" ||
      (lookupOk && |OwnerRows(positions, owner)| == 1 && OwnerRows(positions, owner)[0].email == Has(e) && e != "")
    ensures (lookupOk && |OwnerRows(positions, owner)| == 1 && OwnerRows(positions, owner)[0].email.Has? &&
      OwnerRows(positions, owner)[0].email.value != "") ==> e == OwnerRows(positions, owner)[0].email.value
  {
    var rows := OwnerRows(positions, owner);
    if lookupOk && |rows| == 1 && rows[0].email.Has? && rows[0].email.value != "" then rows[0].email.value
    else "Unknown"
  }

  /** The rows of `.eq('is_public', true)`, in table order. */
  function PublicRooms(rooms: seq<Room>): (r: seq<Room>)
    ensures |r| <= |rooms|
    ensures forall x {:trigger x in r} :: x in r <==> x in rooms && x.isPublic
  {
    if rooms == [] then []
    else (if rooms[0].isPublic then [rooms[0]] else []) + PublicRooms(rooms[1..])
  }

  /** The sort key of `.order('created_at', { ascending: false })`. */
  function NewestFirst(r: Room): int
  {
    -r.createdAt
  }

  /** The room rows of a listing, in listing order. */
  function Rows(vs: seq<RoomView>): (r: seq<Room>)
    ensures |r| == |vs| && forall i :: 0 <= i < |vs| ==> r[i] == vs[i].row
  {
    seq(|vs|, i requires 0 <= i < |vs| => vs[i].row)
  }

  /** `roomsData.map(...)`: each room with its creator email attached; the rooms whose id is
      in `lookupFailed` are those whose lookup errored or threw. */
  function WithCreators(rs: seq<Room>, positions: seq<UserRow>, lookupFailed: set<RowId>): (r: seq<RoomView>)
    ensures |r| == |rs|
    ensures forall i :: 0 <= i < |rs| ==> r[i] == RoomView(rs[i], Some(CreatorEmail(positions, rs[i].ownerId, rs[i].id !in lookupFailed)))
  {
    seq(|rs|, i requires 0 <= i < |rs| => RoomView(rs[i], Some(CreatorEmail(positions, rs[i].ownerId, rs[i].id !in lookupFailed))))
  }

  /** What a successful `fetchRooms` stores and returns. */
  function Listing(rooms: seq<Room>, positions: seq<UserRow>, lookupFailed: set<RowId>): seq<RoomView>
  {
    WithCreators(SortBy(PublicRooms(rooms), NewestFirst), positions, lookupFailed)
  }

  /** The listing holds exactly the public rooms of the table, each once per row, newest
      first, and every entry carries its owner's email or 'Unknown'. */
  lemma ListingSpec(rooms: seq<Room>, positions: seq<UserRow>, lookupFailed: set<RowId>)
    ensures var r := Listing(rooms, positions, lookupFailed);
      multiset(Rows(r)) == multiset(PublicRooms(rooms)) &&
      (forall x :: x in Rows(r) <==> x in rooms && x.isPublic) &&
      (forall i, j :: 0 <= i < j < |r| ==> r[i].row.createdAt >= r[j].row.createdAt) &&
      (forall i :: 0 <= i < |r| ==> r[i].creatorEmail == Some(CreatorEmail(positions, r[i].row.ownerId, r[i].row.id !in lookupFailed)))
  {
    var sorted := SortBy(PublicRooms(rooms), NewestFirst);
    var r := Listing(rooms, positions, lookupFailed);
    assert Rows(r) == sorted;
    forall x
      ensures x in Rows(r) <==> x in rooms && x.isPublic
    {
      assert x in sorted <==> x in multiset(sorted);
      assert x in PublicRooms(rooms) <==> x in multiset(PublicRooms(rooms));
    }
    forall i, j | 0 <= i < j < |r|
      ensures r[i].row.createdAt >= r[j].row.createdAt
    {
      assert NewestFirst(sorted[i]) <= NewestFirst(sorted[j]);
    }
  }

  /** An event on the signed-in user's `user_room_memberships` rows. */
  datatype MembershipEvent = Inserted(newRow: Membership) | Deleted(oldRow: Membership) | Updated(newRow: Membership)

  /** `currentUser || user`: the user `fetchCurrentUserRoom` looks up. */
  function UserToCheck(currentUser: Option<AuthUser>, user: Option<AuthUser>): (r: Option<AuthUser>)
    ensures currentUser.Some? ==> r == currentUser
    ensures currentUser.None? ==> r == user
  {
    if currentUser.Some? then currentUser else user
  }

  /** The room `fetchCurrentUserRoom` settles on for a user: the `room_id` of the first
      membership row the query returns, or `None` when it returns none. */
  function FirstRoom(ms: seq<Membership>, uid: UserId): (r: Option<RowId>)
    ensures r.None? <==> RowsOf(ms, uid) == []
    ensures r.Some? ==> r.value == RowsOf(ms, uid)[0].roomId && RowsOf(ms, uid)[0] in ms
  {
    var ids := RoomsOfUser(ms, uid);
    if ids == [] then None
    else
      assert RowsOf(ms, uid)[0] in RowsOf(ms, uid);
      Some(ids[0])
  }

  class RoomsHook {
    /** The `user` the hook was rendered with. */
    const user: Option<AuthUser>
    var rooms: seq<RoomView>
    var currentUserRoom: Option<RowId>

    constructor (user: Option<AuthUser>)
      ensures this.user == user && rooms == [] && currentUserRoom == None
    {
      this.user := user;
      rooms := [];
      currentUserRoom := None;
    }

    /** `fetchRooms`: on success the listing replaces `rooms` and is returned; when the room
        query errors the `catch` returns [] and `rooms` is left as it was. This is also what
        the handlers for any membership change and any `chat_rooms` change run. */
    method FetchRooms(store: Store, positions: seq<UserRow>, ok: bool, lookupFailed: set<RowId>)
      returns (r: seq<RoomView>)
      modifies this
      ensures ok ==> r == Listing(store.rooms, positions, lookupFailed) && rooms == r
      ensures !ok ==> r == [] && rooms == old(rooms)
      ensures currentUserRoom == old(currentUserRoom)
    {
      if !ok {
        return [];
      }
      r := Listing(store.rooms, positions, lookupFailed);
      rooms := r;
    }

    /** The handler on the user's own memberships: an INSERT makes its room current, a
        DELETE clears the current room and passes the old room id to the global
        `clearRoomMessages` when one is installed (`cleared`), and every event refreshes the
        listing. */
    method OnOwnMembershipEvent(e: MembershipEvent, clearInstalled: bool, store: Store,
                                positions: seq<UserRow>, fetchOk: bool, lookupFailed: set<RowId>)
      returns (cleared: Option<RowId>)
      modifies this
      ensures e.Inserted? ==> currentUserRoom == Some(e.newRow.roomId)
      ensures e.Deleted? ==> currentUserRoom == None
      ensures e.Updated? ==> currentUserRoom == old(currentUserRoom)
      ensures cleared == if e.Deleted? && clearInstalled then Some(e.oldRow.roomId) else None
      ensures rooms == if fetchOk then Listing(store.rooms, positions, lookupFailed) else old(rooms)
    {
      cleared := None;
      match e {
        case Inserted(row) =>
          currentUserRoom := Some(row.roomId);
        case Deleted(row) =>
          currentUserRoom := None;
          if clearInstalled {
            cleared := Some(row.roomId);
          }
        case Updated(_) =>
      }
      var _ := FetchRooms(store, positions, fetchOk, lookupFailed);
    }

    /** `fetchCurrentUserRoom(currentUser)`: the returned value is always the value stored;
        it is `None` without a user to check, when the query errors, or when the user has
        no membership row, and otherwise the room of the user's first row. */
    method FetchCurrentUserRoom(currentUser: Option<AuthUser>, store: Store, ok: bool) returns (r: Option<RowId>)
      modifies this
      ensures currentUserRoom == r
      ensures UserToCheck(currentUser, user).None? || !ok ==> r == None
      ensures UserToCheck(currentUser, user).Some? && ok ==>
        r == FirstRoom(store.memberships, UserToCheck(currentUser, user).value.id)
      ensures rooms == old(rooms)
    {
      var who := UserToCheck(currentUser, user);
      if who.None? || !ok {
        currentUserRoom := None;
        return None;
      }
      var ids := store.SelectRoomsOf(who.value.id, ok);
      r := if ids.value == [] then None else Some(ids.value[0]);
      currentUserRoom := r;
    }

    /** `updateRoomSlots(roomId)`: without a room id, or when the count query errors,
        nothing is written; otherwise the room's `current_slots` is set to the number of
        membership rows of that room, if the update succeeds, and no other room, column or
        table changes. */
    method UpdateRoomSlots(roomId: Option<RowId>, store: Store, countOk: bool, updateOk: bool)
      requires store.Valid()
      modifies store
      ensures store.Valid()
      ensures roomId.None? || !countOk || !updateOk ==> store.rooms == old(store.rooms)
      ensures roomId.Some? && countOk && updateOk ==>
        store.rooms == WithSlots(old(store.rooms), roomId.value, |MembersOf(store.memberships, roomId.value)|)
      ensures store.memberships == old(store.memberships) && store.bans == old(store.bans) && store.nextId == old(store.nextId)
    {
      if roomId.None? {
        return;
      }
      var members := store.SelectMembersOf(roomId.value, countOk);
      if members.None? {
        return;
      }
      var _ := store.UpdateSlots(roomId.value, |members.value|, updateOk);
    }
  }
}

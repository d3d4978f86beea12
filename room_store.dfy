/** The three room tables of the remote store — `chat_rooms`, `user_room_memberships` and
    `room_bans` — and the single Supabase calls the client makes on them. Each call takes
    `ok`, whether the store carried it out; a failed call changes nothing. */
module RoomStore {
  import opened Common

  /** A `chat_rooms` row; `created_at` is in milliseconds. */
  datatype Room = Room(id: RowId, name: string, description: string, ownerId: UserId,
                       maxSlots: int, currentSlots: int, isPublic: bool, createdAt: int)

  /** A `user_room_memberships` row. */
  datatype Membership = Membership(id: RowId, userId: UserId, roomId: RowId)

  /** A `room_bans` row; `expiresAt` is `None` for a permanent ban. */
  datatype Ban = Ban(id: RowId, roomId: RowId, bannedUserId: UserId, bannedByUserId: UserId,
                     reason: string, expiresAt: Option<int>)

  /** A room as the client lists it: the row and the creator email the listing attached to
      it (`creator_email`, or the embedded owner's `email`), `None` when it has none. */
  datatype RoomView = RoomView(row: Room, creatorEmail: Option<string>)

  // ---------------------------------------------------------------------------
  // The rows each query selects or keeps

  /** The memberships left by `.delete().eq('user_id', uid)`. */
  function WithoutUser(ms: seq<Membership>, uid: UserId): (r: seq<Membership>)
    ensures |r| <= |ms| && forall m :: m in r ==> m in ms
  {
    if ms == [] then []
    else (if ms[0].userId != uid then [ms[0]] else []) + WithoutUser(ms[1..], uid)
  }

  /** The memberships left by `.delete().eq('user_id', uid).eq('room_id', room)`. */
  function WithoutMember(ms: seq<Membership>, uid: UserId, room: RowId): (r: seq<Membership>)
    ensures |r| <= |ms| && forall m :: m in r ==> m in ms
  {
    if ms == [] then []
    else (if !(ms[0].userId == uid && ms[0].roomId == room) then [ms[0]] else []) + WithoutMember(ms[1..], uid, room)
  }

  /** The rows of `.select(...).eq('room_id', room)` on memberships, in table order. */
  function MembersOf(ms: seq<Membership>, room: RowId): (r: seq<Membership>)
    ensures |r| <= |ms|
    ensures forall m {:trigger m in r} :: m in r <==> m in ms && m.roomId == room
  {
    if ms == [] then []
    else (if ms[0].roomId == room then [ms[0]] else []) + MembersOf(ms[1..], room)
  }

  /** The membership rows of one user, in table order. */
  function RowsOf(ms: seq<Membership>, uid: UserId): (r: seq<Membership>)
    ensures |r| <= |ms|
    ensures forall m {:trigger m in r} :: m in r <==> m in ms && m.userId == uid
  {
    if ms == [] then []
    else (if ms[0].userId == uid then [ms[0]] else []) + RowsOf(ms[1..], uid)
  }

  /** The rows of `.select('room_id').eq('user_id', uid)`, as room ids. */
  function RoomsOfUser(ms: seq<Membership>, uid: UserId): (r: seq<RowId>)
    ensures |r| == |RowsOf(ms, uid)|
    ensures forall i :: 0 <= i < |r| ==> r[i] == RowsOf(ms, uid)[i].roomId
  {
    if ms == [] then []
    else (if ms[0].userId == uid then [ms[0].roomId] else []) + RoomsOfUser(ms[1..], uid)
  }

  /** The rooms after `.update({ current_slots: n }).eq('id', room)`. */
  function WithSlots(rooms: seq<Room>, room: RowId, n: int): (r: seq<Room>)
    ensures |r| == |rooms|
    ensures forall i :: 0 <= i < |rooms| ==>
      r[i] == if rooms[i].id == room then rooms[i].(currentSlots := n) else rooms[i]
  {
    seq(|rooms|, i requires 0 <= i < |rooms| => if rooms[i].id == room then rooms[i].(currentSlots := n) else rooms[i])
  }

  /** The rooms after `.update({ owner_id: newOwner }).eq('id', room)`. */
  function WithOwner(rooms: seq<Room>, room: RowId, newOwner: UserId): (r: seq<Room>)
    ensures |r| == |rooms|
    ensures forall i :: 0 <= i < |rooms| ==>
      r[i] == if rooms[i].id == room then rooms[i].(ownerId := newOwner) else rooms[i]
  {
    seq(|rooms|, i requires 0 <= i < |rooms| => if rooms[i].id == room then rooms[i].(ownerId := newOwner) else rooms[i])
  }

  /** The bans left by `.delete().eq('id', banId)`. */
  function WithoutBan(bans: seq<Ban>, banId: RowId): (r: seq<Ban>)
    ensures |r| <= |bans| && forall b {:trigger b in r} :: b in r <==> b in bans && b.id != banId
  {
    if bans == [] then []
    else (if bans[0].id != banId then [bans[0]] else []) + WithoutBan(bans[1..], banId)
  }

  // ---------------------------------------------------------------------------
  // Properties of the queries

  /** After the leave step the user has no membership row left, every row of every other
      user is kept in order, and no other row is kept. */
  lemma {:induction false} WithoutUserSpec(ms: seq<Membership>, uid: UserId)
    ensures RowsOf(WithoutUser(ms, uid), uid) == []
    ensures forall m :: m in WithoutUser(ms, uid) <==> m in ms && m.userId != uid
    ensures forall u :: u != uid ==> RowsOf(WithoutUser(ms, uid), u) == RowsOf(ms, u)
  {
    if ms != [] {
      var tail := ms[1..];
      WithoutUserSpec(tail, uid);
      assert ms == [ms[0]] + tail;
      var rest := WithoutUser(tail, uid);
      if ms[0].userId != uid {
        var w := [ms[0]] + rest;
        assert WithoutUser(ms, uid) == w;
        assert w[0] == ms[0] && w[1..] == rest;
        assert RowsOf(w, uid) == RowsOf(rest, uid);
        forall u | u != uid
          ensures RowsOf(w, u) == RowsOf(ms, u)
        {
          assert RowsOf(w, u) == (if ms[0].userId == u then [ms[0]] else []) + RowsOf(rest, u);
          assert RowsOf(ms, u) == (if ms[0].userId == u then [ms[0]] else []) + RowsOf(tail, u);
        }
      } else {
        assert WithoutUser(ms, uid) == rest;
        forall u | u != uid
          ensures RowsOf(rest, u) == RowsOf(ms, u)
        {
          assert RowsOf(ms, u) == RowsOf(tail, u);
        }
      }
    }
  }

  /** Removing one user's rows in one room removes exactly those rows. */
  lemma {:induction false} WithoutMemberSpec(ms: seq<Membership>, uid: UserId, room: RowId)
    ensures forall m :: m in WithoutMember(ms, uid, room) <==> m in ms && !(m.userId == uid && m.roomId == room)
  {
    if ms != [] {
      WithoutMemberSpec(ms[1..], uid, room);
      assert ms == [ms[0]] + ms[1..];
    }
  }

  /** A delete whose filter matches no row leaves the table as it was: this is what the
      second kick after a ban does. */
  lemma {:induction false} WithoutMemberAbsent(ms: seq<Membership>, uid: UserId, room: RowId)
    requires forall m :: m in ms ==> !(m.userId == uid && m.roomId == room)
    ensures WithoutMember(ms, uid, room) == ms
  {
    if ms != [] {
      assert ms[0] in ms;
      assert forall m :: m in ms[1..] ==> m in ms;
      WithoutMemberAbsent(ms[1..], uid, room);
      assert ms == [ms[0]] + ms[1..];
    }
  }

  /** Repeating the same membership delete changes nothing more. */
  lemma WithoutMemberIdempotent(ms: seq<Membership>, uid: UserId, room: RowId)
    ensures WithoutMember(WithoutMember(ms, uid, room), uid, room) == WithoutMember(ms, uid, room)
  {
    WithoutMemberSpec(ms, uid, room);
    WithoutMemberAbsent(WithoutMember(ms, uid, room), uid, room);
  }

  /** Appending a row for (`uid`, `room`) to a table without rows of `uid` leaves `uid`
      with exactly one row, and it is for `room`. */
  lemma OneMembershipAfterJoin(ms: seq<Membership>, uid: UserId, id: RowId, room: RowId)
    requires RowsOf(ms, uid) == []
    ensures RowsOf(ms + [Membership(id, uid, room)], uid) == [Membership(id, uid, room)]
    ensures RoomsOfUser(ms + [Membership(id, uid, room)], uid) == [room]
  {
    RowsOfAppend(ms, Membership(id, uid, room), uid);
  }

  /** The leave-then-join sequence with both steps successful: the user ends with exactly
      the new row, and in between with none. */
  lemma LeaveThenJoin(ms: seq<Membership>, uid: UserId, id: RowId, room: RowId)
    ensures RowsOf(WithoutUser(ms, uid), uid) == []
    ensures RowsOf(WithoutUser(ms, uid) + [Membership(id, uid, room)], uid) == [Membership(id, uid, room)]
  {
    WithoutUserSpec(ms, uid);
    OneMembershipAfterJoin(WithoutUser(ms, uid), uid, id, room);
  }

  lemma {:induction false} RowsOfAppend(ms: seq<Membership>, m: Membership, uid: UserId)
    ensures RowsOf(ms + [m], uid) == RowsOf(ms, uid) + (if m.userId == uid then [m] else [])
  {
    var t := ms + [m];
    if ms == [] {
      assert t == [m] && t[1..] == [];
      assert RowsOf(t, uid) == (if m.userId == uid then [m] else []) + RowsOf([], uid);
    } else {
      var head := if ms[0].userId == uid then [ms[0]] else [];
      var last := if m.userId == uid then [m] else [];
      RowsOfAppend(ms[1..], m, uid);
      assert t[0] == ms[0] && t[1..] == ms[1..] + [m];
      assert RowsOf(t, uid) == head + RowsOf(ms[1..] + [m], uid);
      assert RowsOf(ms, uid) == head + RowsOf(ms[1..], uid);
      assert head + (RowsOf(ms[1..], uid) + last) == (head + RowsOf(ms[1..], uid)) + last;
    }
  }

  // ---------------------------------------------------------------------------
  // The store

  /** The rows of the three tables and the next row id the store will hand out. */
  class Store {
    var rooms: seq<Room>
    var memberships: seq<Membership>
    var bans: seq<Ban>
    var nextId: RowId

    /** Ids start at 1, so none is falsy in JavaScript, and every id handed out so far is
        below `nextId`, so the next one is fresh. */
    ghost predicate Valid()
      reads this
    {
      nextId > 0 &&
      (forall r :: r in rooms ==> 0 < r.id < nextId) &&
      (forall m :: m in memberships ==> 0 < m.id < nextId) &&
      (forall b :: b in bans ==> 0 < b.id < nextId)
    }

    constructor ()
      ensures Valid() && rooms == [] && memberships == [] && bans == []
    {
      rooms := [];
      memberships := [];
      bans := [];
      nextId := 1;
    }

    /** `from('user_room_memberships').delete().eq('user_id', uid)`. */
    method DeleteMembershipsOf(uid: UserId, ok: bool) returns (failed: bool)
      requires Valid()
      modifies this
      ensures Valid() && failed == !ok
      ensures memberships == if ok then WithoutUser(old(memberships), uid) else old(memberships)
      ensures rooms == old(rooms) && bans == old(bans) && nextId == old(nextId)
    {
      failed := !ok;
      if ok {
        memberships := WithoutUser(memberships, uid);
      }
    }

    /** `from('user_room_memberships').delete().eq('user_id', uid).eq('room_id', room)`. */
    method DeleteMembership(uid: UserId, room: RowId, ok: bool) returns (failed: bool)
      requires Valid()
      modifies this
      ensures Valid() && failed == !ok
      ensures memberships == if ok then WithoutMember(old(memberships), uid, room) else old(memberships)
      ensures rooms == old(rooms) && bans == old(bans) && nextId == old(nextId)
    {
      failed := !ok;
      if ok {
        memberships := WithoutMember(memberships, uid, room);
      }
    }

    /** `from('user_room_memberships').insert({ user_id, room_id })`. */
    method InsertMembership(uid: UserId, room: RowId, ok: bool) returns (failed: bool)
      requires Valid()
      modifies this
      ensures Valid() && failed == !ok
      ensures ok ==> memberships == old(memberships) + [Membership(old(nextId), uid, room)] && nextId == old(nextId) + 1
      ensures !ok ==> memberships == old(memberships) && nextId == old(nextId)
      ensures rooms == old(rooms) && bans == old(bans)
    {
      failed := !ok;
      if ok {
        memberships := memberships + [Membership(nextId, uid, room)];
        nextId := nextId + 1;
      }
    }

    /** `from('user_room_memberships').select(...).eq('room_id', room)`: the rows of that
        room, or `None` on an error. */
    method SelectMembersOf(room: RowId, ok: bool) returns (rows: Option<seq<Membership>>)
      ensures ok ==> rows == Some(MembersOf(memberships, room))
      ensures !ok ==> rows == None
    {
      rows := if ok then Some(MembersOf(memberships, room)) else None;
    }

    /** `from('user_room_memberships').select('room_id').eq('user_id', uid)`. */
    method SelectRoomsOf(uid: UserId, ok: bool) returns (ids: Option<seq<RowId>>)
      ensures ok ==> ids == Some(RoomsOfUser(memberships, uid))
      ensures !ok ==> ids == None
    {
      ids := if ok then Some(RoomsOfUser(memberships, uid)) else None;
    }

    /** `from('chat_rooms').update({ current_slots: n }).eq('id', room)`. */
    method UpdateSlots(room: RowId, n: int, ok: bool) returns (failed: bool)
      requires Valid()
      modifies this
      ensures Valid() && failed == !ok
      ensures rooms == if ok then WithSlots(old(rooms), room, n) else old(rooms)
      ensures memberships == old(memberships) && bans == old(bans) && nextId == old(nextId)
    {
      failed := !ok;
      if ok {
        rooms := WithSlots(rooms, room, n);
      }
    }

    /** `from('chat_rooms').update({ owner_id: newOwner }).eq('id', room)`. */
    method UpdateOwner(room: RowId, newOwner: UserId, ok: bool) returns (failed: bool)
      requires Valid()
      modifies this
      ensures Valid() && failed == !ok
      ensures rooms == if ok then WithOwner(old(rooms), room, newOwner) else old(rooms)
      ensures memberships == old(memberships) && bans == old(bans) && nextId == old(nextId)
    {
      failed := !ok;
      if ok {
        rooms := WithOwner(rooms, room, newOwner);
      }
    }

    /** `from('chat_rooms').insert({...}).select().single()`: the stored row, with a fresh id
        and creation time `now`, or `None` on an error. */
    method InsertRoom(name: string, description: string, owner: UserId, maxSlots: int,
                      currentSlots: int, isPublic: bool, now: int, ok: bool) returns (room: Option<Room>)
      requires Valid()
      modifies this
      ensures Valid()
      ensures ok ==>
        room == Some(Room(old(nextId), name, description, owner, maxSlots, currentSlots, isPublic, now)) &&
        rooms == old(rooms) + [room.value] && nextId == old(nextId) + 1
      ensures !ok ==> room == None && rooms == old(rooms) && nextId == old(nextId)
      ensures memberships == old(memberships) && bans == old(bans)
    {
      room := None;
      if ok {
        room := Some(Room(nextId, name, description, owner, maxSlots, currentSlots, isPublic, now));
        rooms := rooms + [room.value];
        nextId := nextId + 1;
      }
    }

    /** `from('room_bans').insert({ room_id, banned_user_id, banned_by_user_id, reason })`;
        existing bans are not looked at, so the same ban can be stored twice. */
    method InsertBan(room: RowId, banned: UserId, bannedBy: UserId, reason: string, ok: bool) returns (failed: bool)
      requires Valid()
      modifies this
      ensures Valid() && failed == !ok
      ensures ok ==> bans == old(bans) + [Ban(old(nextId), room, banned, bannedBy, reason, None)] && nextId == old(nextId) + 1
      ensures !ok ==> bans == old(bans) && nextId == old(nextId)
      ensures rooms == old(rooms) && memberships == old(memberships)
    {
      failed := !ok;
      if ok {
        bans := bans + [Ban(nextId, room, banned, bannedBy, reason, None)];
        nextId := nextId + 1;
      }
    }

    /** `from('room_bans').delete().eq('id', banId)`. */
    method DeleteBan(banId: RowId, ok: bool) returns (failed: bool)
      requires Valid()
      modifies this
      ensures Valid() && failed == !ok
      ensures bans == if ok then WithoutBan(old(bans), banId) else old(bans)
      ensures rooms == old(rooms) && memberships == old(memberships) && nextId == old(nextId)
    {
      failed := !ok;
      if ok {
        bans := WithoutBan(bans, banId);
      }
    }
  }
}

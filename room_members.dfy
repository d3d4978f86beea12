/** The members panel src/components/RoomMembersPanel.jsx: the room's members and permanent
    bans, the owner's ban and unban, and who sees the owner's controls. */
module RoomMembers {
  import opened Common
  import opened RoomStore
  import opened RoomChat

  /** The reason stored with every ban. */
  const BanReason: string := "Spinning back kick by room owner"

  /** The bans `.eq('room_id', room).is('expires_at', null)` selects, in table order. */
  function PermanentBans(bans: seq<Ban>, room: RowId): (r: seq<Ban>)
    ensures |r| <= |bans|
    ensures forall b {:trigger b in r} :: b in r <==> b in bans && b.roomId == room && b.expiresAt.None?
  {
    if bans == [] then []
    else (if bans[0].roomId == room && bans[0].expiresAt.None? then [bans[0]] else []) + PermanentBans(bans[1..], room)
  }

  /** `user?.id === room?.owner_id`: with neither a user nor a room both sides are
      `undefined`, which compares equal. */
  predicate IsOwner(user: Option<AuthUser>, room: Option<RoomView>)
  {
    match (user, room)
    case (Some(u), Some(r)) => u.id == r.row.ownerId
    case (None, None) => true
    case _ => false
  }

  /** `isOwner && member.user_id !== user.id`: whether the kick, transfer and ban buttons
      appear on a member's row of a listed room. */
  predicate ShowActions(user: Option<AuthUser>, room: RoomView, memberId: UserId)
  {
    IsOwner(user, Some(room)) && user.Some? && memberId != user.value.id
  }

  /** The controls appear exactly for the room's owner, on every member row but the
      owner's own. */
  lemma ShowActionsSpec(user: Option<AuthUser>, room: RoomView, memberId: UserId)
    ensures ShowActions(user, room, memberId) <==>
      user.Some? && user.value.id == room.row.ownerId && memberId != room.row.ownerId
    ensures user.Some? ==> !ShowActions(user, room, user.value.id)
  {
  }

  /** How `handleBanUser` ended. `Crashed` is the `TypeError` of reading `user.id` without a
      user, raised after the kick. */
  datatype BanOutcome = BanCancelled | KickFailed | Crashed | BanFailed | Banned

  class RoomMembersPanel {
    const room: Option<RoomView>
    const user: Option<AuthUser>
    var roomMembers: seq<Membership>
    var bannedUsers: seq<Ban>
    var loading: bool

    constructor (room: Option<RoomView>, user: Option<AuthUser>)
      ensures this.room == room && this.user == user
      ensures roomMembers == [] && bannedUsers == [] && !loading
    {
      this.room := room;
      this.user := user;
      roomMembers := [];
      bannedUsers := [];
      loading := false;
    }

    /** `fetchRoomMembers`: the room's membership rows on success; kept on an error. */
    method FetchRoomMembers(store: Store, ok: bool)
      modifies this
      ensures room.Some? && ok ==> roomMembers == MembersOf(store.memberships, room.value.row.id)
      ensures room.None? || !ok ==> roomMembers == old(roomMembers)
      ensures room.Some? ==> !loading
      ensures room.None? ==> loading == old(loading)
      ensures bannedUsers == old(bannedUsers)
    {
      if room.None? {
        return;
      }
      var rows := store.SelectMembersOf(room.value.row.id, ok);
      if rows.Some? {
        roomMembers := rows.value;
      }
      loading := false;
    }

    /** `fetchBannedUsers`: this room's permanent bans on success; kept on an error. */
    method FetchBannedUsers(store: Store, ok: bool)
      modifies this
      ensures room.Some? && ok ==> bannedUsers == PermanentBans(store.bans, room.value.row.id)
      ensures room.None? || !ok ==> bannedUsers == old(bannedUsers)
      ensures roomMembers == old(roomMembers) && loading == old(loading)
    {
      if room.Some? && ok {
        bannedUsers := PermanentBans(store.bans, room.value.row.id);
      }
    }

    /** `handleBanUser(userId)`. With no room or no confirmation nothing happens. The kick
        deletes only the target's membership in this room; if it fails the ban is not
        stored. Then a ban row is inserted, with no look at existing bans, recording the
        room, the target, the acting user and the fixed reason. After both lists are
        refreshed, `onKickUser` (the chat panel's kick for the same room, with its own
        confirmation) deletes the membership again, which changes nothing more. */
    method HandleBanUser(userId: UserId, store: Store, chat: ChatPanel, confirmed: bool,
                         kickOk: bool, banOk: bool, membersOk: bool, bansOk: bool,
                         secondConfirmed: bool, secondKickOk: bool)
      returns (outcome: BanOutcome)
      requires store.Valid() && chat.room == room
      modifies this, store
      ensures store.Valid()
      ensures room.None? || !confirmed ==>
        outcome == BanCancelled && store.memberships == old(store.memberships) && store.bans == old(store.bans)
      ensures room.Some? && confirmed ==>
        store.memberships == (if kickOk then WithoutMember(old(store.memberships), userId, room.value.row.id)
                              else old(store.memberships))
      ensures room.Some? && confirmed && !kickOk ==> outcome == KickFailed && store.bans == old(store.bans)
      ensures room.Some? && confirmed && kickOk && user.None? ==> outcome == Crashed && store.bans == old(store.bans)
      ensures room.Some? && confirmed && kickOk && user.Some? ==>
        store.bans == old(store.bans) +
          (if banOk then [Ban(old(store.nextId), room.value.row.id, userId, user.value.id, BanReason, None)] else []) &&
        outcome == (if banOk then Banned else BanFailed)
      ensures outcome == Banned ==>
        bannedUsers == (if bansOk then PermanentBans(store.bans, room.value.row.id) else old(bannedUsers)) &&
        roomMembers == (if membersOk then MembersOf(store.memberships, room.value.row.id) else old(roomMembers)) &&
        !loading
      ensures outcome != Banned ==>
        roomMembers == old(roomMembers) && bannedUsers == old(bannedUsers) && loading == old(loading)
      ensures store.rooms == old(store.rooms)
    {
      if room.None? || !confirmed {
        return BanCancelled;
      }
      var roomId := room.value.row.id;
      var kickFailed := store.DeleteMembership(userId, roomId, kickOk);
      if kickFailed {
        return KickFailed;
      }
      if user.None? {
        return Crashed;
      }
      var banFailed := store.InsertBan(roomId, userId, user.value.id, BanReason, banOk);
      if banFailed {
        return BanFailed;
      }
      FetchRoomMembers(store, membersOk);
      FetchBannedUsers(store, bansOk);
      ghost var afterKick := store.memberships;
      var _ := chat.HandleKickUser(userId, store, secondConfirmed, secondKickOk);
      WithoutMemberIdempotent(old(store.memberships), userId, roomId);
      assert store.memberships == afterKick;
      outcome := Banned;
    }

    /** `handleUnbanUser(banId)`: after a confirmation only the ban row with that id is
        deleted, when the delete succeeds, and the list is refreshed; memberships are not
        touched. */
    method HandleUnbanUser(banId: RowId, store: Store, confirmed: bool, ok: bool, bansOk: bool)
      requires store.Valid()
      modifies this, store
      ensures store.Valid()
      ensures confirmed && ok ==> store.bans == WithoutBan(old(store.bans), banId)
      ensures !(confirmed && ok) ==> store.bans == old(store.bans)
      ensures confirmed && ok ==>
        bannedUsers == (if room.Some? && bansOk then PermanentBans(store.bans, room.value.row.id) else old(bannedUsers))
      ensures !(confirmed && ok) ==> bannedUsers == old(bannedUsers)
      ensures store.memberships == old(store.memberships) && store.rooms == old(store.rooms)
      ensures roomMembers == old(roomMembers) && loading == old(loading)
    {
      if !confirmed {
        return;
      }
      var failed := store.DeleteBan(banId, ok);
      if failed {
        return;
      }
      FetchBannedUsers(store, bansOk);
    }
  }

  /** Banning the same member twice stores two ban rows for the same room and member:
      nothing removes or refuses the duplicate. */
  lemma BansAccumulate(bans: seq<Ban>, id1: RowId, id2: RowId, room: RowId, target: UserId, actor: UserId)
    requires id1 != id2
    ensures var after := bans + [Ban(id1, room, target, actor, BanReason, None)] + [Ban(id2, room, target, actor, BanReason, None)];
      |PermanentBans(after, room)| == |PermanentBans(bans, room)| + 2
  {
    var b1, b2 := Ban(id1, room, target, actor, BanReason, None), Ban(id2, room, target, actor, BanReason, None);
    PermanentBansAppend(bans, b1, room);
    PermanentBansAppend(bans + [b1], b2, room);
  }

  lemma {:induction false} PermanentBansAppend(bans: seq<Ban>, b: Ban, room: RowId)
    ensures PermanentBans(bans + [b], room) ==
      PermanentBans(bans, room) + (if b.roomId == room && b.expiresAt.None? then [b] else [])
  {
    if bans == [] {
      assert bans + [b] == [b];
    } else {
      var h := if bans[0].roomId == room && bans[0].expiresAt.None? then [bans[0]] else [];
      assert (bans + [b])[0] == bans[0];
      assert (bans + [b])[1..] == bans[1..] + [b];
      assert PermanentBans(bans + [b], room) == h + PermanentBans(bans[1..] + [b], room);
      PermanentBansAppend(bans[1..], b, room);
    }
  }
}

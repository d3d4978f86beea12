/** The local list of `user_positions` rows and the realtime upsert that keeps it in step
    with the store (src/App.jsx and src/hooks/useUsers.js hold the same updater). */
module Users {
  import opened Common

  /** A `user_positions` row as the client holds it. Every column is a `Slot`, so that a
      pushed row that leaves a column out, or carries it as `null`, merges as an object
      spread merges it. */
  datatype UserRow = UserRow(
    id: Slot<string>,
    userId: Slot<string>,
    email: Slot<string>,
    isOnline: Slot<bool>,
    luminosity: Slot<real>,
    currentX: Slot<real>,
    currentY: Slot<real>,
    initialX: Slot<real>,
    initialY: Slot<real>,
    lastSeen: Slot<int>)

  /** The arguments of one `get_or_create_user_position` call. */
  datatype PositionRequest = PositionRequest(userId: UserId, email: string)

  /** `(u.email || "").toLowerCase()`. */
  function EmailKey(u: UserRow): string
  {
    Lower(Coalesce(u.email, ""))
  }

  /** `!u.is_online` is false exactly when the column holds `true`. */
  predicate IsOnline(u: UserRow)
  {
    u.isOnline == Has(true)
  }

  /** `{ ...base, ...row }`: each column the incoming row carries replaces the local one. */
  function Merge(base: UserRow, row: UserRow): (r: UserRow)
  {
    UserRow(
      Overlay(base.id, row.id), Overlay(base.userId, row.userId), Overlay(base.email, row.email),
      Overlay(base.isOnline, row.isOnline), Overlay(base.luminosity, row.luminosity),
      Overlay(base.currentX, row.currentX), Overlay(base.currentY, row.currentY),
      Overlay(base.initialX, row.initialX), Overlay(base.initialY, row.initialY),
      Overlay(base.lastSeen, row.lastSeen))
  }

  /** The incoming row wins on every column it carries; columns it leaves out keep their
      local value; merging the same row again changes nothing. */
  lemma MergeSpec(base: UserRow, row: UserRow)
    ensures var m := Merge(base, row);
      (row.email != Absent ==> m.email == row.email) && (row.email == Absent ==> m.email == base.email) &&
      (row.isOnline != Absent ==> m.isOnline == row.isOnline) && (row.isOnline == Absent ==> m.isOnline == base.isOnline) &&
      (row.currentX != Absent ==> m.currentX == row.currentX) && (row.currentX == Absent ==> m.currentX == base.currentX) &&
      (row.currentY != Absent ==> m.currentY == row.currentY) && (row.currentY == Absent ==> m.currentY == base.currentY)
    ensures Merge(Merge(base, row), row) == Merge(base, row)
    ensures Merge(row, row) == row
  {
  }

  /** Merging into an entry with the same email key keeps that key. */
  lemma MergeKeepsKey(base: UserRow, row: UserRow)
    requires EmailKey(base) == EmailKey(row)
    ensures EmailKey(Merge(base, row)) == EmailKey(row)
  {
  }

  /** `prev.findIndex(p => (p.email || "").toLowerCase() === email)`. */
  function IndexOfKey(users: seq<UserRow>, key: string): (r: Option<nat>)
    ensures r.Some? ==> r.value < |users| && EmailKey(users[r.value]) == key
    ensures r.Some? ==> forall j :: 0 <= j < r.value ==> EmailKey(users[j]) != key
    ensures r.None? ==> forall j :: 0 <= j < |users| ==> EmailKey(users[j]) != key
  {
    FindIndex(users, u => EmailKey(u) == key)
  }

  /** The realtime handler on `user_positions`: a payload without a `new` row is ignored;
      otherwise the row is merged into the first entry with the same lower-cased email, or
      appended when there is none. */
  function Upsert(users: seq<UserRow>, payload: Option<UserRow>): seq<UserRow>
  {
    match payload
    case None => users
    case Some(row) =>
      match IndexOfKey(users, EmailKey(row))
      case Some(i) => users[i := Merge(users[i], row)]
      case None => users + [row]
  }

  /** What one push does to the list: nothing without a row; with a row whose email matches
      the entry at `i` (and none before it), that entry alone is merged in place; with a new
      email the row is appended, growing the list by exactly one. */
  lemma UpsertSpec(users: seq<UserRow>, payload: Option<UserRow>)
    ensures payload.None? ==> Upsert(users, payload) == users
    ensures payload.Some? ==> |users| <= |Upsert(users, payload)| <= |users| + 1
    ensures payload.Some? ==> forall i :: (0 <= i < |users| && EmailKey(users[i]) == EmailKey(payload.value)
        && forall j :: 0 <= j < i ==> EmailKey(users[j]) != EmailKey(payload.value)) ==>
      |Upsert(users, payload)| == |users| &&
      Upsert(users, payload)[i] == Merge(users[i], payload.value) &&
      forall j :: 0 <= j < |users| && j != i ==> Upsert(users, payload)[j] == users[j]
    ensures payload.Some? && (forall i :: 0 <= i < |users| ==> EmailKey(users[i]) != EmailKey(payload.value)) ==>
      Upsert(users, payload) == users + [payload.value]
  {
    if payload.Some? {
      var key := EmailKey(payload.value);
      match IndexOfKey(users, key)
      case Some(k) =>
        forall i | 0 <= i < |users| && EmailKey(users[i]) == key && (forall j :: 0 <= j < i ==> EmailKey(users[j]) != key)
          ensures i == k
        {
        }
      case None =>
    }
  }

  /** Delivering the same push twice leaves the list as delivering it once. */
  lemma {:induction false} UpsertIdempotent(users: seq<UserRow>, payload: Option<UserRow>)
    ensures Upsert(Upsert(users, payload), payload) == Upsert(users, payload)
  {
    if payload.Some? {
      var row := payload.value;
      var key := EmailKey(row);
      var once := Upsert(users, payload);
      match IndexOfKey(users, key)
      case Some(i) =>
        MergeKeepsKey(users[i], row);
        assert EmailKey(once[i]) == key;
        assert forall j :: 0 <= j < i ==> once[j] == users[j];
        assert IndexOfKey(once, key) == Some(i);
        MergeSpec(users[i], row);
      case None =>
        assert once == users + [row];
        assert forall j :: 0 <= j < |users| ==> once[j] == users[j];
        assert EmailKey(once[|users|]) == key;
        assert IndexOfKey(once, key) == Some(|users|);
        MergeSpec(row, row);
        assert once[|users| := Merge(row, row)] == once;
    }
  }

  /** The number of entries whose lower-cased email is `key`. */
  function CountKey(users: seq<UserRow>, key: string): (n: nat)
    ensures n <= |users|
  {
    if users == [] then 0 else (if EmailKey(users[0]) == key then 1 else 0) + CountKey(users[1..], key)
  }

  lemma {:induction false} CountKeyUpdate(users: seq<UserRow>, i: nat, u: UserRow, key: string)
    requires i < |users| && (EmailKey(users[i]) == key) == (EmailKey(u) == key)
    ensures CountKey(users[i := u], key) == CountKey(users, key)
  {
    if i > 0 {
      CountKeyUpdate(users[1..], i - 1, u, key);
      assert users[i := u][1..] == users[1..][i - 1 := u];
    }
  }

  lemma {:induction false} CountKeyAppend(users: seq<UserRow>, u: UserRow, key: string)
    ensures CountKey(users + [u], key) == CountKey(users, key) + (if EmailKey(u) == key then 1 else 0)
  {
    if users != [] {
      CountKeyAppend(users[1..], u, key);
      assert (users + [u])[1..] == users[1..] + [u];
    }
  }

  /** A pushed row never duplicates an email: when no entry had it, exactly one has it
      afterwards; otherwise the number of entries with it is unchanged. */
  lemma UpsertKeyCount(users: seq<UserRow>, row: UserRow)
    ensures CountKey(users, EmailKey(row)) == 0 ==> CountKey(Upsert(users, Some(row)), EmailKey(row)) == 1
    ensures CountKey(users, EmailKey(row)) > 0 ==>
      CountKey(Upsert(users, Some(row)), EmailKey(row)) == CountKey(users, EmailKey(row))
  {
    var key := EmailKey(row);
    match IndexOfKey(users, key)
    case Some(i) =>
      MergeKeepsKey(users[i], row);
      CountKeyUpdate(users, i, Merge(users[i], row), key);
      CountKeyPositive(users, i, key);
    case None =>
      CountKeyAppend(users, row, key);
      CountKeyZero(users, key);
  }

  lemma {:induction false} CountKeyPositive(users: seq<UserRow>, i: nat, key: string)
    requires i < |users| && EmailKey(users[i]) == key
    ensures CountKey(users, key) > 0
  {
    if i > 0 { CountKeyPositive(users[1..], i - 1, key); }
  }

  lemma {:induction false} CountKeyZero(users: seq<UserRow>, key: string)
    requires forall j :: 0 <= j < |users| ==> EmailKey(users[j]) != key
    ensures CountKey(users, key) == 0
  {
    if users != [] { CountKeyZero(users[1..], key); }
  }

  /** `setUsers(data || [])` after `select("*")` on `user_positions`: a successful reply
      replaces the whole list, an error leaves it as it was. */
  function Refreshed(users: seq<UserRow>, reply: Reply<seq<UserRow>>): (r: seq<UserRow>)
    ensures reply.Failed? ==> r == users
    ensures reply.Ok? && reply.data.Some? ==> r == reply.data.value
    ensures reply.Ok? && reply.data.None? ==> r == []
  {
    if reply.Ok? then OrEmpty(reply.data) else users
  }

  /** The hook src/hooks/useUsers.js: the user list and the ids the signed-in user follows. */
  class UsersHook {
    var users: seq<UserRow>
    var followingList: seq<UserId>

    constructor ()
      ensures users == [] && followingList == []
    {
      users := [];
      followingList := [];
    }

    /** The `user_positions` realtime handler. */
    method OnPositionChange(payload: Option<UserRow>)
      modifies this
      ensures users == Upsert(old(users), payload)
      ensures followingList == old(followingList)
    {
      users := Upsert(users, payload);
    }

    /** `fetchAllUsers`. */
    method FetchAllUsers(reply: Reply<seq<UserRow>>)
      modifies this
      ensures users == Refreshed(old(users), reply)
      ensures followingList == old(followingList)
    {
      users := Refreshed(users, reply);
    }

    /** `fetchFollowingList`: with a user and a successful reply of `user_follows` rows, the
        list becomes their `followee_id`s in reply order; a `null` reply makes `data.map`
        throw inside the `try`, which leaves the list as it was. */
    method FetchFollowingList(user: Option<AuthUser>, reply: Reply<seq<UserId>>)
      modifies this
      ensures user.None? || reply.Failed? || reply.data.None? ==> followingList == old(followingList)
      ensures user.Some? && reply.Ok? && reply.data.Some? ==> followingList == reply.data.value
      ensures users == old(users)
    {
      if user.Some? && reply.Ok? && reply.data.Some? {
        followingList := reply.data.value;
      }
    }
  }
}

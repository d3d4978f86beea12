/** The drift of the signed-in user's star: a per-session drift vector per email, and the
    interval tick that moves only that user's entry and wraps each coordinate at the edges
    (src/App.jsx:157-198 and src/hooks/useUserMovement.js). */
module Movement {
  import opened Common
  import opened Users

  /** The drift vector `{dx, dy}` kept in `driftRef.current[email]`. */
  datatype Drift = Drift(dx: real, dy: real)

  /** The arguments of one `update_user_position` call. */
  datatype PositionWrite = PositionWrite(email: string, x: real, y: real)

  /** Drift scale of the App.jsx revision: `(Math.random() - 0.5) * 0.002`. */
  const AppDriftScale: real := 0.002
  /** Drift scale of the useUserMovement.js revision: `(Math.random() - 0.5) * 0.01`. */
  const HookDriftScale: real := 0.01

  /** One drift component from one `Math.random()` draw `rand`. */
  function DriftComponent(rand: real, scale: real): (d: real)
    requires 0.0 <= rand < 1.0 && scale > 0.0
    ensures -scale / 2.0 <= d < scale / 2.0
  {
    (rand - 0.5) * scale
  }

  /** `if (v > 1) v = 0; if (v < 0) v = 1;`, applied in that order. */
  function Wrap(v: real): (r: real)
    ensures 0.0 <= r <= 1.0
    ensures 0.0 <= v <= 1.0 ==> r == v
    ensures v > 1.0 ==> r == 0.0
    ensures v < 0.0 ==> r == 1.0
  {
    var a := if v > 1.0 then 0.0 else v;
    if a < 0.0 then 1.0 else a
  }

  /** `u.current_x ?? u.initial_x ?? 0.5`. */
  function BaseX(u: UserRow): real
  {
    Coalesce(u.currentX, Coalesce(u.initialX, 0.5))
  }

  /** `u.current_y ?? u.initial_y ?? 0.5`. */
  function BaseY(u: UserRow): real
  {
    Coalesce(u.currentY, Coalesce(u.initialY, 0.5))
  }

  /** Whether the tick moves this entry: the signed-in user's lower-cased email, online. */
  predicate Moves(u: UserRow, email: string)
  {
    EmailKey(u) == email && IsOnline(u)
  }

  /** The new state of a moving entry: both coordinates advanced by the drift and wrapped. */
  function Moved(u: UserRow, d: Drift): UserRow
  {
    u.(currentX := Has(Wrap(BaseX(u) + d.dx)), currentY := Has(Wrap(BaseY(u) + d.dy)))
  }

  /** The list after one tick, and the position writes issued, in list order. */
  datatype TickResult = TickResult(users: seq<UserRow>, writes: seq<PositionWrite>)

  /** The `setUsers(prev => prev.map(...))` updater of one tick: each moving entry is
      advanced and written through; every other entry is returned as it is. */
  function Tick(users: seq<UserRow>, email: string, d: Drift): (r: TickResult)
    ensures |r.users| == |users|
  {
    if users == [] then TickResult([], [])
    else
      var rest := Tick(users[1..], email, d);
      if Moves(users[0], email) then
        var m := Moved(users[0], d);
        TickResult([m] + rest.users, [PositionWrite(email, m.currentX.value, m.currentY.value)] + rest.writes)
      else
        TickResult([users[0]] + rest.users, rest.writes)
  }

  /** One tick changes only the entries of the signed-in, online user; each of those gets
      both coordinates from the `current` -> `initial` -> 0.5 fallback plus the drift,
      wrapped into [0,1] (a sum already in range is kept exactly); no other column of it
      changes. */
  lemma {:induction false} TickMovesOnlyOwnEntry(users: seq<UserRow>, email: string, d: Drift, i: nat)
    requires i < |users|
    ensures !Moves(users[i], email) ==> Tick(users, email, d).users[i] == users[i]
    ensures Moves(users[i], email) ==>
      var u, v := users[i], Tick(users, email, d).users[i];
      v == u.(currentX := v.currentX, currentY := v.currentY) &&
      v.currentX == Has(Wrap(BaseX(u) + d.dx)) && v.currentY == Has(Wrap(BaseY(u) + d.dy)) &&
      0.0 <= v.currentX.value <= 1.0 && 0.0 <= v.currentY.value <= 1.0 &&
      (0.0 <= BaseX(u) + d.dx <= 1.0 ==> v.currentX.value == BaseX(u) + d.dx) &&
      (0.0 <= BaseY(u) + d.dy <= 1.0 ==> v.currentY.value == BaseY(u) + d.dy)
  {
    if i > 0 {
      TickMovesOnlyOwnEntry(users[1..], email, d, i - 1);
    }
  }

  /** The number of entries a tick moves. */
  function CountMoving(users: seq<UserRow>, email: string): (n: nat)
    ensures n <= |users|
  {
    if users == [] then 0 else (if Moves(users[0], email) then 1 else 0) + CountMoving(users[1..], email)
  }

  /** The number of writes of a tick is the number of entries it moves. */
  lemma {:induction false} TickWriteCount(users: seq<UserRow>, email: string, d: Drift)
    ensures |Tick(users, email, d).writes| == CountMoving(users, email)
  {
    if users != [] {
      TickWriteCount(users[1..], email, d);
    }
  }

  /** The entry the `k`-th write of a tick comes from: a moved entry whose stored
      coordinates are the ones written. */
  lemma {:induction false} WriteSource(users: seq<UserRow>, email: string, d: Drift, k: nat) returns (i: nat)
    requires k < |Tick(users, email, d).writes|
    ensures i < |users| && Moves(users[i], email)
    ensures Tick(users, email, d).writes[k].email == email
    ensures Tick(users, email, d).users[i].currentX == Has(Tick(users, email, d).writes[k].x)
    ensures Tick(users, email, d).users[i].currentY == Has(Tick(users, email, d).writes[k].y)
  {
    var tail := users[1..];
    var r, rest := Tick(users, email, d), Tick(tail, email, d);
    if Moves(users[0], email) {
      var m := Moved(users[0], d);
      assert r.users == [m] + rest.users;
      assert r.writes == [PositionWrite(email, m.currentX.value, m.currentY.value)] + rest.writes;
      if k == 0 {
        i := 0;
      } else {
        var j := WriteSource(tail, email, d, k - 1);
        i := j + 1;
        assert users[i] == tail[j] && r.users[i] == rest.users[j] && r.writes[k] == rest.writes[k - 1];
      }
    } else {
      assert r.users == [users[0]] + rest.users;
      assert r.writes == rest.writes;
      var j := WriteSource(tail, email, d, k);
      i := j + 1;
      assert users[i] == tail[j] && r.users[i] == rest.users[j];
    }
  }

  /** Write-through: one `update_user_position` call per moved entry, for the signed-in
      email, and each call sends exactly the coordinates stored in some moved entry. */
  lemma {:induction false} TickWritesMatchStored(users: seq<UserRow>, email: string, d: Drift)
    ensures |Tick(users, email, d).writes| == CountMoving(users, email)
    ensures forall k :: 0 <= k < |Tick(users, email, d).writes| ==>
      var w := Tick(users, email, d).writes[k];
      w.email == email &&
      exists i :: 0 <= i < |users| && Moves(users[i], email) &&
        Tick(users, email, d).users[i].currentX == Has(w.x) && Tick(users, email, d).users[i].currentY == Has(w.y)
  {
    TickWriteCount(users, email, d);
    var r := Tick(users, email, d);
    forall k | 0 <= k < |r.writes|
      ensures var w := r.writes[k];
        w.email == email &&
        exists i :: 0 <= i < |users| && Moves(users[i], email) &&
          r.users[i].currentX == Has(w.x) && r.users[i].currentY == Has(w.y)
    {
      var i := WriteSource(users, email, d, k);
    }
  }

  /** The per-user drift table and the interval of one signed-in session. `running` is the
      lower-cased email the interval was started for, or `None` when no interval is set. */
  class Mover {
    const scale: real
    var drift: map<string, Drift>
    var running: Option<string>

    ghost predicate Valid()
      reads this
    {
      scale > 0.0 && (running.Some? ==> running.value in drift)
    }

    constructor (scale: real)
      requires scale > 0.0
      ensures Valid() && this.scale == scale && drift == map[] && running == None
    {
      this.scale := scale;
      drift := map[];
      running := None;
    }

    /** The effect that runs whenever the signed-in user changes: the cleanup clears any
        previous interval; without a user no interval is started; otherwise a drift vector
        is drawn from `randX`, `randY` only if that email has none yet, and an interval is
        started for it. */
    method Start(user: Option<AuthUser>, randX: real, randY: real)
      requires Valid() && 0.0 <= randX < 1.0 && 0.0 <= randY < 1.0
      modifies this
      ensures Valid()
      ensures user.None? ==> running == None && drift == old(drift)
      ensures user.Some? ==> running == Some(UserKey(user.value))
      ensures user.Some? && UserKey(user.value) in old(drift) ==> drift == old(drift)
      ensures user.Some? && UserKey(user.value) !in old(drift) ==>
        drift == old(drift)[UserKey(user.value) := Drift(DriftComponent(randX, scale), DriftComponent(randY, scale))]
    {
      if user.None? {
        running := None;
        return;
      }
      var email := UserKey(user.value);
      if email !in drift {
        drift := drift[email := Drift(DriftComponent(randX, scale), DriftComponent(randY, scale))];
      }
      running := Some(email);
    }

    /** The cleanup of the effect when the user goes away: the interval is cleared and the
        drift table, a ref, is kept. */
    method Stop()
      requires Valid()
      modifies this
      ensures Valid() && running == None && drift == old(drift)
    {
      running := None;
    }

    /** One firing of the interval over the current list: with no interval nothing happens;
        otherwise the tick of the running email with its drift vector. */
    method OnInterval(users: seq<UserRow>) returns (r: TickResult)
      requires Valid()
      ensures running.None? ==> r == TickResult(users, [])
      ensures running.Some? ==> r == Tick(users, running.value, drift[running.value])
      ensures forall i :: 0 <= i < |users| && (running.None? || !Moves(users[i], running.value)) ==>
        i < |r.users| && r.users[i] == users[i]
    {
      if running.None? {
        return TickResult(users, []);
      }
      r := Tick(users, running.value, drift[running.value]);
      forall i | 0 <= i < |users| && !Moves(users[i], running.value)
        ensures r.users[i] == users[i]
      {
        TickMovesOnlyOwnEntry(users, running.value, drift[running.value], i);
      }
    }
  }

  /** Every drift component either revision draws lies in [-scale/2, scale/2): for the hook
      revision that is [-0.005, 0.005). */
  lemma DriftBounds(rand: real)
    requires 0.0 <= rand < 1.0
    ensures -0.001 <= DriftComponent(rand, AppDriftScale) < 0.001
    ensures -0.005 <= DriftComponent(rand, HookDriftScale) < 0.005
  {
  }
}

/** The top-level component src/App.jsx: session tracking, the user list, the drift
    interval of the signed-in user and the guarded sign-out sequence. */
module App {
  import opened Common
  import opened Users
  import opened Movement

  /** The auth events the listener distinguishes; any other event is ignored. */
  datatype AuthEvent = SignedIn(sessionUser: Option<AuthUser>) | SignedOut | OtherEvent

  /** The optimistic offline update of sign-out: entries whose lower-cased email is `email`
      become `is_online: false, luminosity: 0.1`; the others are returned as they are. */
  function Dimmed(users: seq<UserRow>, email: string): (r: seq<UserRow>)
    ensures |r| == |users|
  {
    if users == [] then []
    else
      var u := users[0];
      [if EmailKey(u) == email then u.(isOnline := Has(false), luminosity := Has(0.1)) else u]
        + Dimmed(users[1..], email)
  }

  /** Dimming touches exactly the entries of the signing-out email, and in those exactly the
      two columns; applying it twice is applying it once. */
  lemma {:induction false} DimmedSpec(users: seq<UserRow>, email: string)
    ensures forall i :: 0 <= i < |users| && EmailKey(users[i]) != email ==> Dimmed(users, email)[i] == users[i]
    ensures forall i :: 0 <= i < |users| && EmailKey(users[i]) == email ==>
      Dimmed(users, email)[i] == users[i].(isOnline := Has(false), luminosity := Has(0.1)) &&
      !IsOnline(Dimmed(users, email)[i])
    ensures Dimmed(Dimmed(users, email), email) == Dimmed(users, email)
  {
    if users != [] {
      DimmedSpec(users[1..], email);
      var u := users[0];
      var v := if EmailKey(u) == email then u.(isOnline := Has(false), luminosity := Has(0.1)) else u;
      assert EmailKey(v) == EmailKey(u);
      assert Dimmed(users, email)[1..] == Dimmed(users[1..], email);
    }
  }

  class AppState {
    var user: Option<AuthUser>
    var users: seq<UserRow>
    /** `isSigningOutRef.current`. */
    var isSigningOut: bool
    /** `driftRef` and the movement interval. */
    const mover: Mover
    /** The emails passed to `mark_user_offline_by_email`, oldest first. */
    var offlineRequests: seq<string>
    /** The arguments passed to `get_or_create_user_position`, oldest first. */
    var positionRequests: seq<PositionRequest>

    ghost predicate Valid()
      reads this, mover
    {
      mover.Valid() && mover.scale == AppDriftScale
    }

    constructor ()
      ensures Valid() && fresh(mover)
      ensures user == None && users == [] && !isSigningOut && offlineRequests == [] && positionRequests == []
      ensures mover.running == None && mover.drift == map[]
    {
      user := None;
      users := [];
      isSigningOut := false;
      mover := new Mover(AppDriftScale);
      offlineRequests := [];
      positionRequests := [];
    }

    /** The `user_positions` realtime handler (src/App.jsx:63-76). */
    method OnPositionChange(payload: Option<UserRow>)
      modifies this
      ensures users == Upsert(old(users), payload)
      ensures user == old(user) && isSigningOut == old(isSigningOut)
      ensures offlineRequests == old(offlineRequests) && positionRequests == old(positionRequests)
    {
      users := Upsert(users, payload);
    }

    /** `fetchAllUsers`. */
    method FetchAllUsers(reply: Reply<seq<UserRow>>)
      modifies this
      ensures users == Refreshed(old(users), reply)
      ensures user == old(user) && isSigningOut == old(isSigningOut)
      ensures offlineRequests == old(offlineRequests) && positionRequests == old(positionRequests)
    {
      users := Refreshed(users, reply);
    }

    /** The auth listener, followed by the movement effect that a change of `user` runs.
        `SIGNED_IN` with a session user records the user and marks it online: the
        procedure gets the lower-cased email and, when it succeeds, the list is refreshed.
        `SIGNED_OUT` clears the user and empties the list. */
    method OnAuthChange(event: AuthEvent, rpcOk: bool, refreshed: Reply<seq<UserRow>>, randX: real, randY: real)
      requires Valid() && 0.0 <= randX < 1.0 && 0.0 <= randY < 1.0
      modifies this, mover
      ensures Valid()
      ensures event.SignedIn? && event.sessionUser.Some? ==>
        user == event.sessionUser &&
        positionRequests == old(positionRequests) + [PositionRequest(user.value.id, UserKey(user.value))] &&
        users == (if rpcOk then Refreshed(old(users), refreshed) else old(users)) &&
        mover.running == Some(UserKey(user.value))
      ensures event.SignedOut? ==>
        user == None && users == [] && mover.running == None && positionRequests == old(positionRequests)
      ensures !(event.SignedIn? && event.sessionUser.Some?) && !event.SignedOut? ==>
        user == old(user) && users == old(users) && positionRequests == old(positionRequests) &&
        mover.running == old(mover.running)
      ensures isSigningOut == old(isSigningOut) && offlineRequests == old(offlineRequests)
    {
      if event.SignedIn? && event.sessionUser.Some? {
        var u := event.sessionUser.value;
        user := Some(u);
        positionRequests := positionRequests + [PositionRequest(u.id, UserKey(u))];
        if rpcOk {
          users := Refreshed(users, refreshed);
        }
        mover.Start(user, randX, randY);
      } else if event.SignedOut? {
        user := None;
        users := [];
        mover.Stop();
      }
    }

    /** One firing of the movement interval: the list takes the tick's result and the
        position writes it issues are returned. */
    method OnInterval() returns (writes: seq<PositionWrite>)
      requires Valid()
      modifies this
      ensures mover.running.None? ==> users == old(users) && writes == []
      ensures mover.running.Some? ==>
        var r := Tick(old(users), mover.running.value, mover.drift[mover.running.value]);
        users == r.users && writes == r.writes
      ensures user == old(user) && isSigningOut == old(isSigningOut)
      ensures offlineRequests == old(offlineRequests) && positionRequests == old(positionRequests)
    {
      var r := mover.OnInterval(users);
      users := r.users;
      writes := r.writes;
    }

    /** The synchronous head of `handleSignOut`: nothing without a user or while a sign-out
        is in progress; otherwise the flag is raised and the user's own entries are dimmed.
        `email` is the lower-cased email the rest of the sequence uses. */
    method BeginSignOut() returns (started: bool, email: string)
      modifies this
      ensures started <==> old(user).Some? && !old(isSigningOut)
      ensures !started ==> users == old(users) && isSigningOut == old(isSigningOut)
      ensures started ==>
        email == UserKey(old(user).value) && isSigningOut && users == Dimmed(old(users), email)
      ensures user == old(user) && offlineRequests == old(offlineRequests)
      ensures positionRequests == old(positionRequests)
    {
      started, email := false, "";
      if user.None? {
        return;
      }
      email := UserKey(user.value);
      if isSigningOut {
        return;
      }
      isSigningOut := true;
      users := Dimmed(users, email);
      started := true;
    }

    /** The awaited rest of `handleSignOut` for `email`: the elevated-privilege offline
        procedure is called (its own `try` swallows every failure, and a call that throws
        skips the refresh that follows it), channels are removed and the session is ended
        (failures only logged), the user is cleared, the user's entries are dimmed again, and
        the `finally` lowers the flag. Every outcome reaches the end. */
    method FinishSignOut(email: string, offlineThrew: bool, refreshed: Reply<seq<UserRow>>)
      requires Valid()
      modifies this, mover
      ensures Valid()
      ensures offlineRequests == old(offlineRequests) + [email]
      ensures users == Dimmed(if offlineThrew then old(users) else Refreshed(old(users), refreshed), email)
      ensures user == None && !isSigningOut && mover.running == None
      ensures positionRequests == old(positionRequests) && mover.drift == old(mover.drift)
    {
      offlineRequests := offlineRequests + [email];
      if !offlineThrew {
        users := Refreshed(users, refreshed);
      }
      user := None;
      mover.Stop();
      users := Dimmed(users, email);
      isSigningOut := false;
    }
  }

  /** While a sign-out is in progress a second click does nothing, and once it finishes the
      user's own entries are offline, whatever the refresh in between returned. */
  method SignOutIsGuarded(app: AppState, offlineThrew: bool, refreshed: Reply<seq<UserRow>>)
    requires app.Valid() && app.user.Some? && !app.isSigningOut
    modifies app, app.mover
    ensures app.user == None && !app.isSigningOut
    ensures forall i :: 0 <= i < |app.users| && EmailKey(app.users[i]) == UserKey(old(app.user).value) ==>
      !IsOnline(app.users[i])
  {
    var started, email := app.BeginSignOut();
    assert started;
    var again, _ := app.BeginSignOut();
    assert !again;
    var before := app.users;
    app.FinishSignOut(email, offlineThrew, refreshed);
    DimmedSpec(if offlineThrew then before else Refreshed(before, refreshed), email);
  }
}

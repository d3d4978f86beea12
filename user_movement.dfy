/** The hook src/hooks/useUserMovement.js, whose interval updates the list of the hook
    src/hooks/useUsers.js through its `setUsers`. */
module UserMovement {
  import opened Common
  import opened Users
  import opened Movement

  /** One firing of the hook's interval: the shared list takes the tick of the running email
      and the writes sent through `updateUserPosition` are returned. */
  method OnInterval(mover: Mover, hook: UsersHook) returns (writes: seq<PositionWrite>)
    requires mover.Valid() && mover.scale == HookDriftScale
    modifies hook
    ensures mover.running.None? ==> hook.users == old(hook.users) && writes == []
    ensures mover.running.Some? ==>
      var r := Tick(old(hook.users), mover.running.value, mover.drift[mover.running.value]);
      hook.users == r.users && writes == r.writes
    ensures hook.followingList == old(hook.followingList)
  {
    var r := mover.OnInterval(hook.users);
    hook.users := r.users;
    writes := r.writes;
  }
}

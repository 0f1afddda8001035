/** The fixed-timestep loop of server/server.js: `Game.prototype.run` catches
    the simulation up with the clock in steps of `interval` milliseconds,
    integer arithmetic on `_lastTime`. The clock is a parameter; the timer
    that calls `run` again after 5 ms is not modelled, each call of `Run` is
    one such call. */
module Clock {
  import opened Sync
  import opened Tick
  import opened Sweep
  import opened GameServer
  import opened Timestep


  class Game {
    /** The server (`this.$`). */
    const srv: Server
    var lastTime: int
    var running: bool

    /** `Server.prototype.Game(interval)`: the game of the server, whose
        interval the sessions are told on MSG_GAME_START. `running` and
        `_lastTime` start out unset. */
    constructor (srv: Server, interval: int)
      modifies srv`interval
      ensures this.srv == srv && srv.interval == interval
      ensures !running && lastTime == 0
    {
      this.srv := srv;
      srv.interval := interval;
      running := false;
      lastTime := 0;
    }

    /** `run` at time `now`: when running, the fields are broadcast if they
        changed, the clock is read, and `updateActors` runs once for every
        interval the last step is behind. Each session's `onUpdate` and the
        game's `onUpdate` hook are not modelled. */
    method Run(now: int, hooks: nat -> int -> Effect) returns (steps: nat)
      requires srv.Valid() && srv.interval > 0
      modifies this`lastTime, srv`clients, srv`actors, srv`actorCount, srv`outbox, srv`seen, srv`time
      modifies srv`fieldsChanged
      ensures srv.Valid()
      ensures !running ==> steps == 0 && lastTime == old(lastTime) && unchanged(srv)
      ensures running ==>
                && srv.time == now && !srv.fieldsChanged
                && steps == CatchUp(old(lastTime), now, srv.interval)
                && lastTime == old(lastTime) + steps * srv.interval && lastTime > now
      ensures running ==>
                && |old(srv.outbox)| + (if old(srv.fieldsChanged) then 1 else 0) <= |srv.outbox|
                && srv.outbox[..|old(srv.outbox)|] == old(srv.outbox)
                && (old(srv.fieldsChanged) ==> srv.outbox[|old(srv.outbox)|] == FieldsOut(srv.fields))
    {
      steps := 0;
      if running {
        steps := Running(now, hooks);
      }
    }

    /** The body of `run` once `running` holds. */
    method Running(now: int, hooks: nat -> int -> Effect) returns (steps: nat)
      requires srv.Valid() && srv.interval > 0
      modifies this`lastTime, srv`clients, srv`actors, srv`actorCount, srv`outbox, srv`seen, srv`time
      modifies srv`fieldsChanged
      ensures srv.Valid() && srv.time == now && !srv.fieldsChanged
      ensures steps == CatchUp(old(lastTime), now, srv.interval)
      ensures lastTime == old(lastTime) + steps * srv.interval && lastTime > now
      ensures |old(srv.outbox)| + (if old(srv.fieldsChanged) then 1 else 0) <= |srv.outbox|
      ensures srv.outbox[..|old(srv.outbox)|] == old(srv.outbox)
      ensures old(srv.fieldsChanged) ==> srv.outbox[|old(srv.outbox)|] == FieldsOut(srv.fields)
    {
      srv.UpdateFields(false);
      ghost var o1 := srv.outbox;
      srv.time := now;
      steps := CatchUpSteps(hooks);
      assert srv.outbox[..|o1|] == o1;
      assert srv.outbox[..|old(srv.outbox)|] == o1[..|old(srv.outbox)|];
    }

    /** The `while (this._lastTime <= this.$.time)` loop of `run`: one
        `updateActors` per step, with the hooks `hooks(i)` in step i. */
    method CatchUpSteps(hooks: nat -> int -> Effect) returns (steps: nat)
      requires srv.Valid() && srv.interval > 0
      modifies this`lastTime, srv`clients, srv`actors, srv`actorCount, srv`outbox, srv`seen
      ensures srv.Valid()
      ensures steps == CatchUp(old(lastTime), srv.time, srv.interval)
      ensures lastTime == old(lastTime) + steps * srv.interval && lastTime > srv.time
      ensures |old(srv.outbox)| <= |srv.outbox| && srv.outbox[..|old(srv.outbox)|] == old(srv.outbox)
    {
      steps := 0;
      while lastTime <= srv.time
        invariant srv.Valid()
        invariant lastTime == old(lastTime) + steps * srv.interval
        invariant steps > 0 ==> old(lastTime) + (steps - 1) * srv.interval <= srv.time
        invariant |old(srv.outbox)| <= |srv.outbox| && srv.outbox[..|old(srv.outbox)|] == old(srv.outbox)
        decreases srv.time - lastTime
      {
        Advance(hooks(steps));
        assert old(lastTime) + (steps + 1) * srv.interval == lastTime + srv.interval;
        lastTime := lastTime + srv.interval;
        steps := steps + 1;
      }
      CatchUpUnique(old(lastTime), srv.time, srv.interval, steps);
    }

    /** One step of the loop: `updateClients` (the sessions' `onUpdate`
        hooks, not modelled), `updateActors`, and the game's `onUpdate` hook
        (not modelled). What the step does to the sessions, the actors and
        the outbox is the contract of `Server.UpdateActors`. */
    method Advance(hook: int -> Effect)
      requires srv.Valid()
      modifies srv`clients, srv`actors, srv`actorCount, srv`outbox, srv`seen
      ensures srv.Valid()
      ensures |old(srv.outbox)| <= |srv.outbox| && srv.outbox[..|old(srv.outbox)|] == old(srv.outbox)
    {
      srv.UpdateActors(hook);
      assert srv.outbox[..|old(srv.outbox)|] == old(srv.outbox);
    }

    /** `start`: the first step is due at the server's time, the game runs,
        and `run` is called at once (at time `now`). The `onInit` hook is not
        modelled. */
    method Start(now: int, hooks: nat -> int -> Effect) returns (steps: nat)
      requires srv.Valid() && srv.interval > 0
      modifies this`lastTime, this`running, srv`clients, srv`actors, srv`actorCount, srv`outbox, srv`seen
      modifies srv`time, srv`fieldsChanged
      ensures srv.Valid() && running && srv.time == now && lastTime > now
      ensures steps == CatchUp(old(srv.time), now, srv.interval)
    {
      lastTime := srv.time;
      running := true;
      steps := Run(now, hooks);
    }

    /** The server's `start` together with the `start` of its game it ends
        with: the class lists are set up at time `started`, and the first
        `run` happens at time `now`, `started <= now`; it takes at least one
        step. */
    method Launch(started: int, now: int, hooks: nat -> int -> Effect) returns (steps: nat)
      requires srv.Valid() && srv.interval > 0 && started <= now
      modifies this`lastTime, this`running, srv`clients, srv`actors, srv`actorCount, srv`outbox, srv`seen
      modifies srv`time, srv`fieldsChanged, srv`classes, srv`logs, srv`history
      ensures srv.Valid() && running && lastTime > now
      ensures steps == CatchUp(started, now, srv.interval) && steps >= 1
    {
      srv.Start(started);
      steps := Start(now, hooks);
    }
  }
}

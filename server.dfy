/** The `Server` object of server/server.js: its session registry, its actor
    registry with the loops that step, destroy and introduce the actors, the
    send loop, the shared fields with their dirty flag and the log. The
    sessions and the actors are values held in the server's fields; what
    the network would carry is appended to `outbox`. */
module GameServer {
  import opened Js
  import opened Fields
  import opened Sync
  import opened Tick
  import opened Sweep

  /** The log keeps this many entries (server/server.js:164). */
  const LOG_SIZE := 18

  /** The last `LOG_SIZE` entries of a history, all of it when shorter. */
  function Recent<T>(h: seq<T>): (r: seq<T>)
    ensures |r| == if |h| > LOG_SIZE then LOG_SIZE else |h|
    ensures r == h[|h| - |r|..]
  {
    if |h| > LOG_SIZE then h[|h| - LOG_SIZE..] else h
  }

  /** The keys `for (var i in this.actorTypes) this.actors[i] = []` leaves in
      `this.actors`, in insertion order: the old keys, then every type not yet
      a key, in the order of the types. Type names are taken not to be array
      indices such as "0", which a for-in would visit first. */
  function Added(keys: seq<string>, types: seq<string>): seq<string>
    decreases |types|
  {
    if |types| == 0 then keys
    else
      var p := Added(keys, types[..|types| - 1]);
      var t := types[|types| - 1];
      if t in p then p else p + [t]
  }

  /** `Added` keeps the old keys first, adds exactly the types, and adds no
      key twice. */
  lemma {:induction false} AddedKeys(keys: seq<string>, types: seq<string>)
    requires NoDup(keys)
    ensures var r := Added(keys, types);
            && NoDup(r) && |keys| <= |r| && r[..|keys|] == keys
            && forall x :: x in r <==> x in keys || x in types
    decreases |types|
  {
    if |types| != 0 {
      var n := |types| - 1;
      AddedKeys(keys, types[..n]);
      var p := Added(keys, types[..n]);
      var t := types[n];
      forall x ensures x in types <==> x in types[..n] || x == t {
        assert types == types[..n] + [t];
      }
      if t !in p {
        assert (p + [t])[..|keys|] == p[..|keys|];
      }
    }
  }

  /** The sessions after `emit` has handled the sessions in `done`. */
  function EmitSome(sessions: map<int, Session>, done: seq<int>, a: Actor, kind: Kind): (r: map<int, Session>)
    ensures r.Keys == sessions.Keys
  {
    map k | k in sessions :: if k in done then EmitTo(sessions[k], a, kind) else sessions[k]
  }

  /** Whether `emit` has set `updated` once it has handled the sessions in `done`. */
  function AnyIntroduces(sessions: map<int, Session>, done: seq<int>, a: Actor, kind: Kind): bool
    decreases |done|
  {
    if |done| == 0 then a.updated
    else
      var k := done[|done| - 1];
      AnyIntroduces(sessions, done[..|done| - 1], a, kind) || (k in sessions && Introduces(sessions[k], a, kind))
  }

  /** Handling one more session, not handled before, updates that session alone. */
  lemma EmitSomeStep(sessions: map<int, Session>, done: seq<int>, a: Actor, kind: Kind)
    requires |done| != 0 && NoDup(done) && done[|done| - 1] in sessions
    ensures var n := |done| - 1;
            var k := done[n];
            EmitSome(sessions, done, a, kind) ==
              EmitSome(sessions, done[..n], a, kind)[k := EmitTo(EmitSome(sessions, done[..n], a, kind)[k], a, kind)]
  {
    var n := |done| - 1;
    var k := done[n];
    assert k !in done[..n];
    assert forall x :: x in done <==> x in done[..n] || x == k;
    assert done == done[..n] + [k];
  }

  /** Once every session is handled, `EmitSome` and `AnyIntroduces` are
      `Sync.EmitAll` and `Sync.Emitted`. */
  lemma EmitSomeAll(sessions: map<int, Session>, done: seq<int>, a: Actor, kind: Kind)
    requires forall k :: k in sessions <==> k in done
    ensures EmitSome(sessions, done, a, kind) == EmitAll(sessions, a, kind)
    ensures a.(updated := AnyIntroduces(sessions, done, a, kind)) == Emitted(sessions, a, kind)
  {
    EmitSomeKeys(sessions, done, a, kind);
    AnyIntroducesExists(sessions, done, a, kind);
  }

  lemma EmitSomeKeys(sessions: map<int, Session>, done: seq<int>, a: Actor, kind: Kind)
    requires forall k :: k in sessions ==> k in done
    ensures EmitSome(sessions, done, a, kind) == EmitAll(sessions, a, kind)
  {
    var r := EmitSome(sessions, done, a, kind);
    forall k | k in sessions ensures r[k] == EmitAll(sessions, a, kind)[k] {
    }
  }

  lemma {:induction false} AnyIntroducesExists(sessions: map<int, Session>, done: seq<int>, a: Actor, kind: Kind)
    ensures AnyIntroduces(sessions, done, a, kind) <==>
              a.updated || exists k :: k in done && k in sessions && Introduces(sessions[k], a, kind)
    decreases |done|
  {
    if |done| != 0 {
      var n := |done| - 1;
      AnyIntroducesExists(sessions, done[..n], a, kind);
      assert forall x :: x in done <==> x in done[..n] || x == done[n];
    }
  }

  /** The sessions after the send loop has handled the sessions in `done`. */
  function ClearSome(sessions: map<int, Session>, done: seq<int>): (r: map<int, Session>)
    ensures r.Keys == sessions.Keys
  {
    map k | k in sessions :: if k in done then Cleared(sessions[k]) else sessions[k]
  }

  /** One turn of the send loop on the values: the session it reaches is
      still untouched, and the loop's two invariants move one step on. */
  lemma SendStep(sessions: map<int, Session>, order: seq<int>, i: int, sent: seq<Wire>)
    requires NoDup(order) && (forall k :: k in sessions <==> k in order) && 0 <= i < |order|
    ensures var k := order[i];
            && k in sessions && ClearSome(sessions, order[..i])[k] == sessions[k]
            && ClearSome(sessions, order[..i])[k := Cleared(sessions[k])] == ClearSome(sessions, order[..i + 1])
            && sent + FlushAll(sessions, order[..i]) + Flush(sessions[k]) == sent + FlushAll(sessions, order[..i + 1])
  {
    var k := order[i];
    assert k !in order[..i];
    var l := ClearSome(sessions, order[..i])[k := Cleared(sessions[k])];
    var r := ClearSome(sessions, order[..i + 1]);
    assert order[..i + 1] == order[..i] + [k];
    forall x | x in sessions ensures l[x] == r[x] {
      assert x in order[..i + 1] <==> x in order[..i] || x == k;
    }
    assert l == r;
    assert order[..i + 1][..i] == order[..i];
  }

  lemma ClearSomeAll(sessions: map<int, Session>, done: seq<int>)
    requires forall k :: k in sessions <==> k in done
    ensures ClearSome(sessions, done) == ClearAll(sessions)
  {
    var l := ClearSome(sessions, done);
    var r := ClearAll(sessions);
    forall x | x in sessions ensures l[x] == r[x] {
    }
    assert l == r;
  }

  /** The session registry: every session is filed under its own id and
      knows no actor twice, `order` lists the ids once each in ascending
      order, and every id has been issued. */
  ghost predicate Registry(clients: map<int, Session>, order: seq<int>, clientID: int) {
    && 0 <= clientID && SessionsOk(clients) && Increasing(order) && NoDup(order)
    && (forall k :: k in clients <==> k in order)
    && forall k :: k in clients ==> 1 <= k <= clientID
  }

  /** Dropping a session keeps the registry. */
  lemma RegistryRemove(clients: map<int, Session>, order: seq<int>, clientID: int, id: int)
    requires Registry(clients, order, clientID) && id in clients
    ensures var o := SpliceOne(order, IndexOf(order, id));
            Registry(clients - {id}, o, clientID) && |o| == |order| - 1
  {
    var o := SpliceOne(order, IndexOf(order, id));
    var c := clients - {id};
    assert |o| == |order| - 1;
    SpliceIndexOf(order, id);
    assert forall k :: k in c <==> k in o;
    SpliceIncreasing(order, IndexOf(order, id));
    assert SessionsOk(c);
  }

  /** Registering a new session under the next id keeps the registry. */
  lemma RegistryAdd(clients: map<int, Session>, order: seq<int>, id: int)
    requires Registry(clients, order, id) && id !in clients && 1 <= id
    ensures Registry(clients[id := NewSession(id)], order + [id], id)
  {
    var o := order + [id];
    var c := clients[id := NewSession(id)];
    assert forall k :: k in o <==> k in order || k == id;
    assert id !in clients;
    forall i, j | 0 <= i < j < |o| ensures o[i] < o[j] {
      if j == |order| {
        assert o[i] == order[i] && order[i] in clients;
      } else {
        assert o[i] == order[i] && o[j] == order[j];
      }
    }
    assert SessionsOk(c);
    IncreasingNoDup(o);
  }

  /** The invariant of a server's sessions and actors. */
  ghost predicate Inv(clients: map<int, Session>, order: seq<int>, clientID: int, clientCount: int,
                      classes: seq<string>, actors: map<string, seq<Actor>>, types: seq<string>,
                      actorID: int, seen: map<int, set<int>>) {
    && Registry(clients, order, clientID) && clientCount == |order|
    && NoDup(classes) && (forall t :: t in actors <==> t in classes)
    && NoDup(types)
    && 0 <= actorID && ListsOk(actors, actorID)
    && AllSound(clients, seen)
  }

  /** What `addClient` keeps: the INIT loop and the registration of the new
      session keep the invariant. */
  lemma AddValid(clients: map<int, Session>, order: seq<int>, clientID: int, count: int, classes: seq<string>,
                 actors: map<string, seq<Actor>>, types: seq<string>, bound: int, seen: map<int, set<int>>)
    requires Inv(clients, order, clientID, count, classes, actors, types, bound, seen)
    ensures var p := Pass(Introduce, World(clients, actors), classes);
            var id := clientID + 1;
            Inv(p.sessions[id := NewSession(id)], order + [id], id, count + 1, classes, p.actors, types, bound, seen[id := {}])
  {
    var w := World(clients, actors);
    var p := Pass(Introduce, w, classes);
    var id := clientID + 1;
    PassOk(Introduce, w, classes, bound);
    PassSound(Introduce, w, classes, seen);
    assert Registry(p.sessions, order, id);
    RegistryAdd(p.sessions, order, id);
  }

  /** A pass over every class list keeps the invariant. */
  lemma PassValid(op: Op, clients: map<int, Session>, order: seq<int>, clientID: int, count: int, classes: seq<string>,
                  actors: map<string, seq<Actor>>, types: seq<string>, bound: int, seen: map<int, set<int>>)
    requires Inv(clients, order, clientID, count, classes, actors, types, bound, seen)
    ensures var p := Pass(op, World(clients, actors), classes);
            Inv(p.sessions, order, clientID, count, classes, p.actors, types, bound, seen)
  {
    var w := World(clients, actors);
    PassOk(op, w, classes, bound);
    PassSound(op, w, classes, seen);
  }

  /** The send loop keeps the invariant, each session now measured against
      what it knows. */
  lemma FlushValid(clients: map<int, Session>, order: seq<int>, clientID: int, count: int, classes: seq<string>,
                   actors: map<string, seq<Actor>>, types: seq<string>, bound: int, seen: map<int, set<int>>)
    requires Inv(clients, order, clientID, count, classes, actors, types, bound, seen)
    ensures Inv(ClearAll(clients), order, clientID, count, classes, actors, types, bound, SeenOf(clients))
  {
    ClearAllSound(clients);
  }

  /** `createActor` keeps the invariant once it has taken the id of the new
      actor a. */
  lemma TakeValid(clients: map<int, Session>, order: seq<int>, clientID: int, count: int, classes: seq<string>,
                  actors: map<string, seq<Actor>>, types: seq<string>, bound: int, seen: map<int, set<int>>, a: Actor)
    requires Inv(clients, order, clientID, count, classes, actors, types, bound, seen) && a.id == bound + 1
    ensures Inv(clients, order, clientID, count, classes, actors, types, a.id, seen)
  {
    forall t | t in actors ensures ListOk(t, actors[t], a.id) {
      ListWeaken(t, actors[t], bound, a.id);
    }
  }

  /** ... and once a has emitted CREATE. */
  lemma CreateValid(clients: map<int, Session>, order: seq<int>, clientID: int, count: int, classes: seq<string>,
                    actors: map<string, seq<Actor>>, types: seq<string>, bound: int, seen: map<int, set<int>>, a: Actor)
    requires Inv(clients, order, clientID, count, classes, actors, types, a.id, seen)
    ensures Inv(EmitAll(clients, a, Create), order, clientID, count, classes, actors, types, a.id, seen)
  {
    EmitAllKnown(clients, a, Create);
    EmitAllSound(clients, a, Create, seen);
  }

  /** ... and once a, newer than every actor listed, is appended to its class
      list. */
  lemma PlaceValid(clients: map<int, Session>, order: seq<int>, clientID: int, count: int, classes: seq<string>,
                   actors: map<string, seq<Actor>>, types: seq<string>, seen: map<int, set<int>>, a: Actor)
    requires Inv(clients, order, clientID, count, classes, actors, types, a.id, seen)
    requires ListsOk(actors, a.id - 1) && 1 <= a.id && a.clas in actors
    ensures Inv(clients, order, clientID, count, classes, actors[a.clas := actors[a.clas] + [a]], types, a.id, seen)
  {
    ListAppend(a.clas, actors[a.clas], a, a.id);
    var r := actors[a.clas := actors[a.clas] + [a]];
    assert ListsOk(r, a.id);
  }

  /** Every key of `actors` and every type, each type's list emptied. */
  function Emptied(actors: map<string, seq<Actor>>, types: seq<string>): (r: map<string, seq<Actor>>)
    ensures forall t :: t in r <==> t in actors || t in types
    ensures forall t :: t in r ==> r[t] == if t in types then [] else actors[t]
  {
    map t | t in actors.Keys + (set x | x in types) :: if t in types then [] else actors[t]
  }

  /** One turn of the loop of `start` on the values: the key order gains the
      type when it is new, and the type's list is emptied. */
  lemma StartStep(keys: seq<string>, actors: map<string, seq<Actor>>, types: seq<string>, j: int)
    requires 0 <= j < |types|
    ensures var t := types[j];
            var p := Added(keys, types[..j]);
            && Added(keys, types[..j + 1]) == (if t in p then p else p + [t])
            && Emptied(actors, types[..j])[t := []] == Emptied(actors, types[..j + 1])
  {
    assert types[..j + 1][..j] == types[..j];
    EmptiedStep(actors, types[..j], types[j]);
    assert types[..j + 1] == types[..j] + [types[j]];
  }

  lemma EmptiedStep(actors: map<string, seq<Actor>>, types: seq<string>, t: string)
    ensures Emptied(actors, types)[t := []] == Emptied(actors, types + [t])
  {
    var l := Emptied(actors, types)[t := []];
    var r := Emptied(actors, types + [t]);
    forall x ensures x in types + [t] <==> x in types || x == t {
    }
    forall x | x in r ensures x in l && l[x] == r[x] {
    }
    assert l.Keys == r.Keys;
  }

  /** `start` keeps the invariant. */
  lemma StartValid(clients: map<int, Session>, order: seq<int>, clientID: int, count: int, classes: seq<string>,
                   actors: map<string, seq<Actor>>, types: seq<string>, bound: int, seen: map<int, set<int>>)
    requires Inv(clients, order, clientID, count, classes, actors, types, bound, seen)
    ensures Inv(clients, order, clientID, count, Added(classes, types), Emptied(actors, types), types, bound, seen)
  {
    AddedKeys(classes, types);
    var r := Emptied(actors, types);
    forall t | t in r ensures ListOk(t, r[t], bound) {
      if t !in types {
        assert ListOk(t, actors[t], bound);
      }
    }
  }

  class Server {
    /** `maxChars || 128`: the longest message accepted from a session. */
    const maxChars: int
    /** `maxClients || 64`. */
    const maxClients: int

    var fields: map<string, Value>
    var fieldsChanged: bool
    var logs: seq<(int, string)>
    /** Every entry ever logged, oldest first. */
    ghost var history: seq<(int, string)>

    /** The registered sessions (`this.clients`), by id. */
    var clients: map<int, Session>
    /** The ids of `clients` in the order `for (var i in this.clients)` visits
        them: integer keys, so ascending. */
    var order: seq<int>
    var clientCount: int
    var clientID: int

    var actorCount: int
    var actorID: int
    /** The keys of `this.actorTypes`, in insertion order (no type name is an
        array index). */
    var types: seq<string>
    /** The keys of `this.actors`, in insertion order (no type name is an
        array index). */
    var classes: seq<string>
    var actors: map<string, seq<Actor>>

    var time: int
    /** The interval of the server's `Game` (`this.$g.interval`). */
    var interval: int
    /** What has been written to connections or broadcast, in order. */
    var outbox: seq<Wire>
    /** For every session, the actors it knew when its queues were last sent. */
    ghost var seen: map<int, set<int>>

    /** `order` lists the ids of `clients` once each. */
    ghost predicate Keyed()
      reads this`order, this`clients
    {
      NoDup(order) && forall k :: k in clients <==> k in order
    }

    ghost predicate Valid()
      reads this`clients, this`order, this`clientID, this`clientCount, this`classes, this`actors
      reads this`types, this`actorID, this`seen, this`logs, this`history
    {
      && Inv(clients, order, clientID, clientCount, classes, actors, types, actorID, seen)
      && logs == Recent(history)
    }

    /** The invariant, read off the current fields. */
    ghost method Holds()
      requires Inv(clients, order, clientID, clientCount, classes, actors, types, actorID, seen)
      requires logs == Recent(history)
      ensures Valid()
    {
    }

    /** `new Server(port, maxClients, maxChars)`: an argument that is 0 (or
        omitted) takes the default. The port and the socket are not modelled. */
    constructor (maxClients: int, maxChars: int)
      ensures Valid()
      ensures this.maxChars == (if maxChars == 0 then 128 else maxChars)
      ensures this.maxClients == (if maxClients == 0 then 64 else maxClients)
      ensures fields == map[] && !fieldsChanged && logs == [] && history == []
      ensures clients == map[] && order == [] && clientCount == 0 && clientID == 0
      ensures actorCount == 0 && actorID == 0 && types == [] && classes == [] && actors == map[]
      ensures outbox == []
    {
      this.maxChars := if maxChars == 0 then 128 else maxChars;
      this.maxClients := if maxClients == 0 then 64 else maxClients;
      fields := map[];
      fieldsChanged := false;
      logs := [];
      history := [];
      clients := map[];
      order := [];
      clientCount := 0;
      clientID := 0;
      actorCount := 0;
      actorID := 0;
      types := [];
      classes := [];
      actors := map[];
      time := 0;
      interval := 0;
      outbox := [];
      seen := map[];
    }

    /** The length check of the message handler: a longer message closes the
        connection instead of reaching the session. */
    predicate Accepts(msg: string) {
      |msg| <= maxChars
    }

    /** `log`: push the entry, and drop the oldest once there are more than
        `LOG_SIZE`; the log is always the last `LOG_SIZE` entries logged. */
    method Log(str: string)
      requires logs == Recent(history)
      modifies this`logs, this`history
      ensures history == old(history) + [(time, str)]
      ensures logs == Recent(history)
    {
      ghost var h := history + [(time, str)];
      logs := logs + [(time, str)];
      if |logs| > LOG_SIZE {
        logs := logs[1..];
      }
      history := h;
    }

    // -------------------------------------------------------------------------
    // Sessions

    /** `addClient`: the next id, the `Client` constructor, and only then the
        registration. The constructor sends MSG_GAME_START and runs the INIT
        loop over every actor while the new session is not yet in `clients`,
        so the loop reaches the sessions already there and not the new one. */
    method AddClient() returns (id: int)
      requires Valid()
      modifies this`clientID, this`outbox, this`clients, this`actors, this`order, this`clientCount, this`seen
      ensures Valid()
      ensures id == clientID == old(clientID) + 1 && id !in old(clients)
      ensures outbox == old(outbox) + [Wire.Start(id, id, interval, fields)]
      ensures var w := Pass(Introduce, World(old(clients), old(actors)), classes);
              && actors == w.actors
              && clients == w.sessions[id := NewSession(id)]
      ensures order == old(order) + [id] && clientCount == old(clientCount) + 1
    {
      Open();
      id := clientID;
      Register(id);
    }

    /** `addClient` up to the registration: the next id, then the `Client`
        constructor, which sends MSG_GAME_START to the new session and runs
        the INIT loop over every actor. */
    method Open()
      requires Valid()
      modifies this`clientID, this`outbox, this`clients, this`actors
      ensures clientID == old(clientID) + 1 && clientID !in old(clients)
      ensures outbox == old(outbox) + [Wire.Start(clientID, clientID, interval, fields)]
      ensures World(clients, actors) == Pass(Introduce, World(old(clients), old(actors)), classes)
      ensures Inv(clients[clientID := NewSession(clientID)], order + [clientID], clientID, clientCount + 1,
                  classes, actors, types, actorID, seen[clientID := {}])
      ensures logs == Recent(history)
    {
      AddValid(clients, order, clientID, clientCount, classes, actors, types, actorID, seen);
      ghost var p := Pass(Introduce, World(clients, actors), classes);
      clientID := clientID + 1;
      var id := clientID;
      outbox := outbox + [Wire.Start(id, id, interval, fields)];
      IntroduceAll();
    }

    /** The registration of a new session once its constructor has run. */
    method Register(id: int)
      requires Inv(clients[id := NewSession(id)], order + [id], clientID, clientCount + 1, classes, actors, types, actorID, seen[id := {}])
      requires logs == Recent(history)
      modifies this`clients, this`order, this`clientCount, this`seen
      ensures Valid()
      ensures clients == old(clients)[id := NewSession(id)] && order == old(order) + [id]
      ensures clientCount == old(clientCount) + 1
    {
      clients := clients[id := NewSession(id)];
      order := order + [id];
      clientCount := clientCount + 1;
      seen := seen[id := {}];
    }

    /** `removeClient`: a registered session is dropped; any other id changes
        nothing. */
    method RemoveClient(id: int)
      requires Valid()
      modifies this`clientCount, this`clients, this`order, this`seen
      ensures Valid()
      ensures id in old(clients) ==>
                && clients == old(clients) - {id} && clientCount == old(clientCount) - 1
                && order == SpliceOne(old(order), IndexOf(old(order), id))
      ensures id !in old(clients) ==>
                clients == old(clients) && clientCount == old(clientCount) && order == old(order)
    {
      if id in clients {
        clientCount := clientCount - 1;
        // the session's onRemove hook is not modelled
        RegistryRemove(clients, order, clientID, id);
        order := SpliceOne(order, IndexOf(order, id));
        clients := clients - {id};
        seen := seen - {id};
      }
    }

    // -------------------------------------------------------------------------
    // One actor

    /** `Actor.prototype.emit`: the reconciliation of one actor with every
        session, in `for (var i in this.clients)` order. */
    method EmitActor(a: Actor, kind: Kind) returns (b: Actor)
      requires Keyed()
      modifies this`clients
      ensures clients == EmitAll(old(clients), a, kind)
      ensures b == Emitted(old(clients), a, kind)
    {
      ghost var s0 := clients;
      b := a;
      var i := 0;
      while i < |order|
        invariant 0 <= i <= |order|
        invariant clients == EmitSome(s0, order[..i], a, kind)
        invariant b == a.(updated := AnyIntroduces(s0, order[..i], a, kind))
      {
        var k := order[i];
        assert order[..i + 1][..i] == order[..i];
        EmitSomeStep(s0, order[..i + 1], a, kind);
        var c, introduced := EmitSession(clients[k], a, kind);
        if introduced {
          b := b.(updated := true);
        }
        clients := clients[k := c];
        i := i + 1;
      }
      assert order[..i] == order;
      EmitSomeAll(s0, order, a, kind);
    }

    /** The body of the loop of `emit` for session c: its known list is
        updated with `push` and `splice`, and the queues with `push`;
        `introduced` says whether `this.updated = true` ran. */
    static method EmitSession(c: Session, a: Actor, kind: Kind) returns (r: Session, introduced: bool)
      ensures r == EmitTo(c, a, kind) && introduced == Introduces(c, a, kind)
    {
      r := c;
      introduced := false;
      var index := IndexOf(r.known, a.id);
      if |a.vis| == 0 || IndexOf(a.vis, r.id) != -1 {
        if kind == Destroy {
          if index == -1 {
            r := r.(known := r.known + [a.id], inits := r.inits + [Full(a.id, a.clas)]);
            introduced := true;
          }
          r := r.(known := SpliceOne(r.known, index), destroys := r.destroys + [Final(a.id)]);
        } else if kind == Update {
          if index == -1 {
            r := r.(known := r.known + [a.id], inits := r.inits + [Full(a.id, a.clas)]);
          }
          r := r.(updates := r.updates + [Partial(a.id)]);
        } else if kind == Create && index == -1 {
          r := r.(known := r.known + [a.id], creates := r.creates + [Full(a.id, a.clas)]);
          introduced := true;
        } else if kind == Init && index == -1 {
          r := r.(known := r.known + [a.id], inits := r.inits + [Full(a.id, a.clas)]);
          introduced := true;
        }
      } else if IndexOf(a.vis, r.id) == -1 && index != -1 {
        r := r.(known := SpliceOne(r.known, index), removes := r.removes + [Removal(a.id)]);
      }
    }

    /** `Actor.prototype.destroy`: only a live actor is destroyed; the class's
        destroy hook is not modelled. */
    method DestroyActor(a: Actor) returns (b: Actor)
      requires Keyed()
      modifies this`clients
      ensures Out(clients, b) == Apply(DestroyEach, old(clients), a)
    {
      b := a;
      if b.alive {
        b := b.(alive := false);
        b := EmitActor(b, Destroy);
      }
    }

    /** One actor's turn in `updateActors`: a live actor runs its class's
        `update` hook (its effect given by `hook`: it may call `destroy` or
        clear `alive` itself), and if still alive emits UPDATE, resetting
        `updated`, or INIT. */
    method Turn(a: Actor, hook: int -> Effect) returns (b: Actor)
      requires Keyed()
      modifies this`clients
      ensures Out(clients, b) == Apply(Step(hook), old(clients), a)
    {
      b := a;
      if b.alive {
        var e := hook(b.id);
        b := b.(updated := e.updated, vis := e.vis);
        if e.destroy {
          b := DestroyActor(b);
        } else if !e.alive {
          b := b.(alive := false);
        }
      }
      if b.alive {
        if b.updated {
          b := EmitActor(b, Update);
          b := b.(updated := false);
        } else {
          b := EmitActor(b, Init);
        }
      }
    }

    // -------------------------------------------------------------------------
    // The loops over one class list

    /** A turn of the update loop over the class list of `t`. */
    method UpdateClass(t: string, hook: int -> Effect)
      requires Keyed() && t in actors
      modifies this`clients, this`actors
      ensures World(clients, actors) == Visit(Step(hook), World(old(clients), old(actors)), t)
    {
      ghost var s0 := clients;
      var list := actors[t];
      var alive: seq<Actor> := [];
      var i := 0;
      AfterEmpty(Step(hook), s0);
      assert list[..0] == [];
      while i < |list|
        invariant 0 <= i <= |list| && actors == old(actors)
        invariant clients == After(Step(hook), s0, list[..i])
        invariant alive == Survivors(Step(hook), s0, list[..i])
      {
        LoopStep(Step(hook), s0, list, i);
        var a := Turn(list[i], hook);
        if a.alive {
          alive := alive + [a];
        }
        i := i + 1;
      }
      assert list[..i] == list;
      actors := actors[t := alive];
    }

    /** The loop of `destroyActors` over the class list of `t`. */
    method DestroyClass(t: string)
      requires Keyed() && t in actors
      modifies this`clients, this`actors
      ensures World(clients, actors) == Visit(DestroyEach, World(old(clients), old(actors)), t)
    {
      ghost var s0 := clients;
      var list := actors[t];
      var done: seq<Actor> := [];
      var i := 0;
      AfterEmpty(DestroyEach, s0);
      assert list[..0] == [];
      while i < |list|
        invariant 0 <= i <= |list| && actors == old(actors)
        invariant clients == After(DestroyEach, s0, list[..i])
        invariant done == Survivors(DestroyEach, s0, list[..i])
      {
        LoopStep(DestroyEach, s0, list, i);
        var a := DestroyActor(list[i]);
        done := done + [a];
        i := i + 1;
      }
      assert list[..i] == list;
      actors := actors[t := done];
    }

    /** The loop of the `Client` constructor over the class list of `t`. */
    method IntroduceClass(t: string)
      requires Keyed() && t in actors
      modifies this`clients, this`actors
      ensures World(clients, actors) == Visit(Introduce, World(old(clients), old(actors)), t)
    {
      ghost var s0 := clients;
      var list := actors[t];
      var done: seq<Actor> := [];
      var i := 0;
      AfterEmpty(Introduce, s0);
      assert list[..0] == [];
      while i < |list|
        invariant 0 <= i <= |list| && actors == old(actors)
        invariant clients == After(Introduce, s0, list[..i])
        invariant done == Survivors(Introduce, s0, list[..i])
      {
        LoopStep(Introduce, s0, list, i);
        var a := EmitActor(list[i], Init);
        done := done + [a];
        i := i + 1;
      }
      assert list[..i] == list;
      actors := actors[t := done];
    }
 
    // -------------------------------------------------------------------------
    // The loops over every class list, `for (var t in this.actors)`

    /** The INIT loop of the `Client` constructor (server/server.js:464-468). */
    method IntroduceAll()
      requires Keyed() && forall t :: t in actors <==> t in classes
      modifies this`clients, this`actors
      ensures World(clients, actors) == Pass(Introduce, World(old(clients), old(actors)), classes)
      ensures var p := Pass(Introduce, World(old(clients), old(actors)), classes);
              clients == p.sessions && actors == p.actors
    {
      var j := 0;
      while j < |classes|
        invariant 0 <= j <= |classes| && Keyed() && actors.Keys == old(actors).Keys
        invariant World(clients, actors) == Pass(Introduce, World(old(clients), old(actors)), classes[..j])
      {
        IntroduceClass(classes[j]);
        assert classes[..j + 1][..j] == classes[..j];
        j := j + 1;
      }
      assert classes[..j] == classes;
    }

    /** The update loop of `updateActors` over every class list, which also
        recounts `actorCount`. */
    method StepAll(hook: int -> Effect)
      requires Keyed() && NoDup(classes) && forall t :: t in actors <==> t in classes
      modifies this`clients, this`actors, this`actorCount
      ensures World(clients, actors) == Pass(Step(hook), World(old(clients), old(actors)), classes)
      ensures actorCount == Total(classes, actors)
    {
      actorCount := 0;
      var j := 0;
      while j < |classes|
        invariant 0 <= j <= |classes| && Keyed() && actors.Keys == old(actors).Keys
        invariant World(clients, actors) == Pass(Step(hook), World(old(clients), old(actors)), classes[..j])
        invariant actorCount == Total(classes[..j], actors)
      {
        StepClass(j, hook);
        assert classes[..j + 1][..j] == classes[..j];
        j := j + 1;
      }
      assert classes[..j] == classes;
    }

    /** The turn of the loop of `updateActors` for the class at position j:
        its list stepped and its new length added to `actorCount`. */
    method StepClass(j: int, hook: int -> Effect)
      requires 0 <= j < |classes| && NoDup(classes) && classes[j] in actors && Keyed()
      requires actorCount == Total(classes[..j], actors)
      modifies this`clients, this`actors, this`actorCount
      ensures Keyed() && actors.Keys == old(actors).Keys
      ensures World(clients, actors) == Visit(Step(hook), World(old(clients), old(actors)), classes[j])
      ensures actorCount == Total(classes[..j + 1], actors)
    {
      var t := classes[j];
      ghost var a0 := actors;
      UpdateClass(t, hook);
      assert t !in classes[..j];
      TotalFrame(classes[..j], a0, t, actors[t]);
      assert actors == a0[t := actors[t]];
      actorCount := actorCount + |actors[t]|;
      assert classes[..j + 1][..j] == classes[..j];
    }

    /** The send loop of `updateActors`: every session in `order`, its
        non-empty queues sent and all five cleared. */
    method SendQueues()
      requires Keyed()
      modifies this`clients, this`outbox
      ensures outbox == old(outbox) + FlushAll(old(clients), order)
      ensures clients == ClearAll(old(clients))
    {
      ghost var s0, o0 := clients, outbox;
      var i := 0;
      while i < |order|
        invariant 0 <= i <= |order|
        invariant outbox == o0 + FlushAll(s0, order[..i])
        invariant clients == ClearSome(s0, order[..i])
      {
        var k := order[i];
        SendStep(s0, order, i, o0);
        SendSession(k);
        i := i + 1;
      }
      assert order[..i] == order;
      ClearSomeAll(s0, order);
    }

    /** The body of the send loop for the session filed under `k`. */
    method SendSession(k: int)
      requires k in clients
      modifies this`clients, this`outbox
      ensures outbox == old(outbox) + Flush(old(clients)[k])
      ensures clients == old(clients)[k := Cleared(old(clients)[k])]
    {
      var w, c := FlushSession(clients[k]);
      outbox := outbox + w;
      clients := clients[k := c];
    }

    /** The five `if (q.length > 0) { c.send(code, q); q = []; }` of the send
        loop on session `c`: what it writes to the connection, in order, and
        the session it leaves. */
    static method FlushSession(c: Session) returns (w: seq<Wire>, r: Session)
      ensures w == Flush(c) && r == Cleared(c)
    {
      FlushUnfold(c);
      w := [];
      r := c;
      if |r.inits| > 0 {
        w := w + [Batch(r.id, MSG_ACTORS_INIT, r.inits)];
        r := r.(inits := []);
      }
      assert w == Packet(c.id, MSG_ACTORS_INIT, c.inits) && r == c.(inits := []);
      if |r.creates| > 0 {
        w := w + [Batch(r.id, MSG_ACTORS_CREATE, r.creates)];
        r := r.(creates := []);
      }
      ghost var w2 := Packet(c.id, MSG_ACTORS_INIT, c.inits) + Packet(c.id, MSG_ACTORS_CREATE, c.creates);
      assert w == w2 && r == c.(inits := [], creates := []);
      if |r.updates| > 0 {
        w := w + [Batch(r.id, MSG_ACTORS_UPDATE, r.updates)];
        r := r.(updates := []);
      }
      ghost var w3 := w2 + Packet(c.id, MSG_ACTORS_UPDATE, c.updates);
      assert w == w3 && r == c.(inits := [], creates := [], updates := []);
      if |r.removes| > 0 {
        w := w + [Batch(r.id, MSG_ACTORS_REMOVE, r.removes)];
        r := r.(removes := []);
      }
      ghost var w4 := w3 + Packet(c.id, MSG_ACTORS_REMOVE, c.removes);
      assert w == w4 && r == c.(inits := [], creates := [], updates := [], removes := []);
      if |r.destroys| > 0 {
        w := w + [Batch(r.id, MSG_ACTORS_DESTROY, r.destroys)];
        r := r.(destroys := []);
      }
      assert w == w4 + Packet(c.id, MSG_ACTORS_DESTROY, c.destroys);
    }

    /** The loop of `destroyActors`. */
    method DestroyAll()
      requires Keyed() && forall t :: t in actors <==> t in classes
      modifies this`clients, this`actors
      ensures World(clients, actors) == Pass(DestroyEach, World(old(clients), old(actors)), classes)
    {
      var j := 0;
      while j < |classes|
        invariant 0 <= j <= |classes| && Keyed() && actors.Keys == old(actors).Keys
        invariant World(clients, actors) == Pass(DestroyEach, World(old(clients), old(actors)), classes[..j])
      {
        DestroyClass(classes[j]);
        assert classes[..j + 1][..j] == classes[..j];
        j := j + 1;
      }
      assert classes[..j] == classes;
    }

    /** Records what each session knows once the sessions satisfy the
        invariant against it. */
    ghost method Settle(s: map<int, set<int>>)
      requires Inv(clients, order, clientID, clientCount, classes, actors, types, actorID, s)
      requires logs == Recent(history)
      modifies this`seen
      ensures Valid() && seen == s
    {
      seen := s;
    }

    // -------------------------------------------------------------------------
    // The server's operations on actors

    /** `updateActors`: every class list stepped and filtered down to its
        survivors, `actorCount` recounted, then every session's queues sent in
        `order` and cleared. */
    method UpdateActors(hook: int -> Effect)
      requires Valid()
      modifies this`clients, this`actors, this`actorCount, this`outbox, this`seen
      ensures Valid()
      ensures var p := Pass(Step(hook), World(old(clients), old(actors)), classes);
              && actors == p.actors
              && outbox == old(outbox) + FlushAll(p.sessions, order)
              && clients == ClearAll(p.sessions)
      ensures actorCount == Total(classes, actors)
    {
      UpdateStep(hook);
      UpdateSend();
    }

    /** The first half of `updateActors`: the loop over the class lists. */
    method UpdateStep(hook: int -> Effect)
      requires Valid()
      modifies this`clients, this`actors, this`actorCount
      ensures Valid()
      ensures World(clients, actors) == Pass(Step(hook), World(old(clients), old(actors)), classes)
      ensures actorCount == Total(classes, actors)
    {
      ghost var p := Pass(Step(hook), World(clients, actors), classes);
      PassValid(Step(hook), clients, order, clientID, clientCount, classes, actors, types, actorID, seen);
      StepAll(hook);
      assert clients == p.sessions && actors == p.actors;
      Holds();
    }

    /** The second half of `updateActors`: the send loop, after which every
        session is measured against what it knows. */
    method UpdateSend()
      requires Valid()
      modifies this`clients, this`outbox, this`seen
      ensures Valid()
      ensures outbox == old(outbox) + FlushAll(old(clients), order)
      ensures clients == ClearAll(old(clients))
    {
      ghost var c := clients;
      FlushValid(clients, order, clientID, clientCount, classes, actors, types, actorID, seen);
      SendQueues();
      Settle(SeenOf(c));
    }

    /** `destroyActors`: `destroy` on every actor of every class list; the
        lists keep the destroyed actors. */
    method DestroyActors()
      requires Valid()
      modifies this`clients, this`actors
      ensures Valid()
      ensures World(clients, actors) == Pass(DestroyEach, World(old(clients), old(actors)), classes)
    {
      ghost var p := Pass(DestroyEach, World(clients, actors), classes);
      PassValid(DestroyEach, clients, order, clientID, clientCount, classes, actors, types, actorID, seen);
      DestroyAll();
      assert clients == p.sessions && actors == p.actors;
      Holds();
    }

    /** `createActor(clas, data)`: the `Actor` constructor takes the id
        `++actorID`, runs the type's `create` hook (which installs the
        visibility list `vis`) and emits CREATE; then the actor is pushed onto
        its class list. Without a type of that name the call of `create`
        throws, and without a class list (before `start`) the `push` does. */
    method CreateActor(clas: string, vis: seq<int>) returns (r: Result<Actor>)
      requires Valid()
      modifies this`actorID, this`clients, this`actors
      ensures Valid()
      ensures actorID == old(actorID) + 1
      ensures var a := Actor(actorID, clas, true, false, vis);
              if clas !in types then
                r == TypeError && clients == old(clients) && actors == old(actors)
              else if clas !in old(actors) then
                r == TypeError && clients == EmitAll(old(clients), a, Create) && actors == old(actors)
              else
                && r == Ok(Emitted(old(clients), a, Create))
                && clients == EmitAll(old(clients), a, Create)
                && actors == old(actors)[clas := old(actors)[clas] + [r.value]]
    {
      TakeValid(clients, order, clientID, clientCount, classes, actors, types, actorID, seen,
                Actor(actorID + 1, clas, true, false, vis));
      actorID := actorID + 1;
      if clas !in types {
        Holds();
        return TypeError;
      }
      var a := Actor(actorID, clas, true, false, vis);
      CreateValid(clients, order, clientID, clientCount, classes, actors, types, actorID, seen, a);
      a := EmitActor(a, Create);
      if clas !in actors {
        Holds();
        return TypeError;
      }
      assert ListsOk(actors, a.id - 1);
      PlaceValid(clients, order, clientID, clientCount, classes, actors, types, seen, a);
      Place(a);
      r := Ok(a);
    }

    /** The `push` of `createActor`, once the new actor keeps the invariant. */
    method Place(a: Actor)
      requires a.clas in actors
      requires Inv(clients, order, clientID, clientCount, classes, actors[a.clas := actors[a.clas] + [a]], types, actorID, seen)
      requires logs == Recent(history)
      modifies this`actors
      ensures Valid() && actors == old(actors)[a.clas := old(actors)[a.clas] + [a]]
    {
      actors := actors[a.clas := actors[a.clas] + [a]];
    }

    /** `createActorType(id)`: a new type name is added to the keys of
        `actorTypes`; assigning an existing one keeps its place. */
    method CreateActorType(id: string)
      requires Valid()
      modifies this`types
      ensures Valid()
      ensures types == if id in old(types) then old(types) else old(types) + [id]
    {
      if id !in types {
        forall i, j | 0 <= i < j < |types| + 1 ensures (types + [id])[i] != (types + [id])[j] {
        }
        types := types + [id];
      }
    }

    /** `start`: every type's class list set to `[]`, a type not yet a key
        added at the end, the clock read and the start logged. The status
        screen and the signal handler are not modelled; the game loop is
        started by `Clock.Game.Start`. */
    method Start(now: int)
      requires Valid()
      modifies this`classes, this`actors, this`time, this`logs, this`history
      ensures Valid()
      ensures classes == Added(old(classes), types) && actors == Emptied(old(actors), types)
      ensures time == now && history == old(history) + [(now, ">> Server started")]
    {
      StartValid(clients, order, clientID, clientCount, classes, actors, types, actorID, seen);
      ghost var c1, a1 := Added(classes, types), Emptied(actors, types);
      EmptyLists();
      assert classes == c1 && actors == a1;
      time := now;
      Log(">> Server started");
      assert classes == c1 && actors == a1 && clients == old(clients) && seen == old(seen);
      Holds();
    }

    /** The loop of `start`: `for (var i in this.actorTypes) this.actors[i] = []`. */
    method EmptyLists()
      modifies this`classes, this`actors
      ensures classes == Added(old(classes), types) && actors == Emptied(old(actors), types)
    {
      ghost var c0, a0 := classes, actors;
      var j := 0;
      while j < |types|
        invariant 0 <= j <= |types|
        invariant classes == Added(c0, types[..j]) && actors == Emptied(a0, types[..j])
      {
        var t := types[j];
        StartStep(c0, a0, types, j);
        if t !in classes {
          classes := classes + [t];
        }
        actors := actors[t := []];
        j := j + 1;
      }
      assert types[..j] == types;
    }

    // -------------------------------------------------------------------------
    // Shared fields

    /** `setField`: the value stored under `key`; the flag is set unless
        `send` is `false`. */
    method SetField(key: string, value: Value, send: Option)
      modifies this`fields, this`fieldsChanged
      ensures fields == old(fields)[key := value]
      ensures fieldsChanged == (old(fieldsChanged) || Marks(send))
    {
      fields := fields[key := value];
      if Marks(send) {
        fieldsChanged := true;
      }
    }

    /** `setFieldItem`: `this.fields[key][item] = value` throws when the field
        is missing or `null` (and the flag stays as it was); on an object field
        it stores the item, and on a primitive, or on a built-in method the
        fields object inherits, nothing is stored in the fields. The flag is
        then set unless `send` is `false`. */
    method SetFieldItem(key: string, item: string, value: Value, send: Option) returns (r: Result<()>)
      modifies this`fields, this`fieldsChanged
      ensures r.TypeError? <==> ItemThrows(Get(old(fields), key))
      ensures r.TypeError? ==> fields == old(fields) && fieldsChanged == old(fieldsChanged)
      ensures r.Ok? ==> fieldsChanged == (old(fieldsChanged) || Marks(send))
      ensures r.Ok? ==> fields == if key in old(fields) && old(fields)[key].Obj?
                                  then old(fields)[key := Obj(old(fields)[key].items[item := value])]
                                  else old(fields)
    {
      var v := Get(fields, key);
      if ItemThrows(v) {
        return TypeError;
      }
      if v.Found? && v.value.Obj? {
        fields := fields[key := Obj(v.value.items[item := value])];
      }
      if Marks(send) {
        fieldsChanged := true;
      }
      r := Ok(());
    }

    /** `delField`: a truthy field is deleted and the flag set; a missing or
        falsy one changes nothing. An inherited built-in method is truthy:
        its `delete` removes nothing, but the flag is set. */
    method DelField(key: string)
      modifies this`fields, this`fieldsChanged
      ensures Truthy(Get(old(fields), key)) ==> fields == old(fields) - {key} && fieldsChanged
      ensures !Truthy(Get(old(fields), key)) ==> fields == old(fields) && fieldsChanged == old(fieldsChanged)
    {
      if Truthy(Get(fields, key)) {
        fields := fields - {key};
        fieldsChanged := true;
      }
    }

    /** `delFieldItem`: reading `this.fields[key][item]` throws when the field
        is missing or `null`. A truthy item sets the flag; it is deleted when
        it is an own property of an object field. A string's `length` and its
        characters cannot be deleted, and deleting an inherited method removes
        nothing, so those only set the flag. Anything falsy changes nothing. */
    method DelFieldItem(key: string, item: string) returns (r: Result<()>)
      modifies this`fields, this`fieldsChanged
      ensures r.TypeError? <==> ItemThrows(Get(old(fields), key))
      ensures r.Ok? && Truthy(Item(Get(old(fields), key), item)) ==>
                && fields == (if key in old(fields) && old(fields)[key].Obj?
                              then old(fields)[key := Obj(old(fields)[key].items - {item})]
                              else old(fields))
                && fieldsChanged
      ensures !(r.Ok? && Truthy(Item(Get(old(fields), key), item))) ==>
                fields == old(fields) && fieldsChanged == old(fieldsChanged)
    {
      var v := Get(fields, key);
      if ItemThrows(v) {
        return TypeError;
      }
      if Truthy(Item(v, item)) {
        if v.Found? && v.value.Obj? {
          fields := fields[key := Obj(v.value.items - {item})];
        }
        fieldsChanged := true;
      }
      r := Ok(());
    }

    /** `updateFields(mode)`: a truthy mode only sets the flag; otherwise the
        fields are broadcast, and the flag cleared, only when the flag is set. */
    method UpdateFields(mode: bool)
      modifies this`fieldsChanged, this`outbox
      ensures mode ==> fieldsChanged && outbox == old(outbox)
      ensures !mode && old(fieldsChanged) ==> !fieldsChanged && outbox == old(outbox) + [FieldsOut(fields)]
      ensures !mode && !old(fieldsChanged) ==> !fieldsChanged && outbox == old(outbox)
    {
      if mode {
        fieldsChanged := true;
      } else if fieldsChanged {
        outbox := outbox + [FieldsOut(fields)];
        fieldsChanged := false;
      }
    }

    /** `emitFields`: the fields broadcast unconditionally, the flag cleared. */
    method EmitFields()
      modifies this`fieldsChanged, this`outbox
      ensures outbox == old(outbox) + [FieldsOut(fields)] && !fieldsChanged
    {
      outbox := outbox + [FieldsOut(fields)];
      fieldsChanged := false;
    }
  }
}

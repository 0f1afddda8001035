/** The loops of the server over its actors, on values: one simulation step
    of `Server.updateActors` (server/server.js:278-330), `destroyActors`
    (server/server.js:332-338), the INIT loop of the `Client` constructor
    (server/server.js:464-468), and `Actor.prototype.destroy`
    (server/server.js:589-595). These functions are the specification the
    `Server` class's loops are proved against. */
module Tick {
  import opened Js
  import opened Fields
  import opened Sync

  /** What an actor class's `update` hook does to its actor, as far as
      synchronisation can see: the value it leaves in `updated`, the
      visibility list it leaves in `clients`, whether it leaves `alive` set
      when it does not call `destroy`, and whether it calls `this.destroy()`
      while the actor is alive. Everything else a hook can do is not
      modelled. */
  datatype Effect = Effect(updated: bool, vis: seq<int>, alive: bool, destroy: bool)

  /** Whether an actor is still alive after its turn in a step: it was alive,
      its hook did not destroy it and did not clear `alive` itself. */
  predicate Survives(a: Actor, e: Effect) {
    a.alive && !e.destroy && e.alive
  }

  /** The sessions and the actor after an operation on one actor. */
  datatype Out = Out(sessions: map<int, Session>, actor: Actor)

  /** The sessions of a registry: each is filed under its own id and knows
      no actor twice. */
  predicate SessionsOk(sessions: map<int, Session>) {
    forall k :: k in sessions ==> sessions[k].id == k && NoDup(sessions[k].known)
  }

  /** The ids of a list of actors, in order. */
  function Ids(list: seq<Actor>): (r: seq<int>)
    ensures |r| == |list|
    ensures forall i :: 0 <= i < |list| ==> r[i] == list[i].id
  {
    seq(|list|, i requires 0 <= i < |list| => list[i].id)
  }

  /** The three loops over the actor lists: the `Client` constructor's
      `emit(MSG_ACTORS_INIT)` on every actor, `destroyActors`, and the update
      loop of `updateActors` with the hooks' effects given per actor id. */
  datatype Op = Introduce | DestroyEach | Step(hook: int -> Effect)

  /** What an actor's turn emits: nothing, or one kind, with the actor as it
      is after the turn or at the moment of the emission. */
  datatype Emission = Silent(actor: Actor) | Emits(kind: Kind, actor: Actor)

  /** The message an actor's turn emits.
      - The INIT loop emits INIT on every actor, dead or alive.
      - `destroy` (server/server.js:589-595) emits DESTROY only on the first
        call on a live actor, after clearing `alive`; the class's destroy
        hook is not modelled.
      - A step (server/server.js:284-297) runs the hook of a live actor; a
        hook that calls `this.destroy()` makes that the DESTROY; a hook that
        clears `alive` itself leaves the actor dead and nothing is emitted;
        an actor still alive then emits UPDATE if `updated` is set, INIT
        otherwise. */
  function EmissionOf(op: Op, a: Actor): (r: Emission)
    ensures r.actor.id == a.id && r.actor.clas == a.clas
  {
    match op
    case Introduce => Emits(Init, a)
    case DestroyEach => if a.alive then Emits(Destroy, a.(alive := false)) else Silent(a)
    case Step(hook) =>
      var e := hook(a.id);
      var h := a.(updated := e.updated, vis := e.vis);
      if !a.alive then Silent(a)
      else if e.destroy then Emits(Destroy, h.(alive := false))
      else if !e.alive then Silent(h.(alive := false))
      else if h.updated then Emits(Update, h)
      else Emits(Init, h)
  }

  /** One actor's turn: the emission goes to every session, and an UPDATE is
      followed by `a.updated = false`. */
  function Apply(op: Op, sessions: map<int, Session>, a: Actor): (r: Out)
    ensures r.sessions.Keys == sessions.Keys
    ensures r.actor.id == a.id && r.actor.clas == a.clas
  {
    match EmissionOf(op, a)
    case Silent(b) => Out(sessions, b)
    case Emits(kind, b) =>
      var c := Emitted(sessions, b, kind);
      Out(EmitAll(sessions, b, kind), if kind == Update then c.(updated := false) else c)
  }

  /** Whether the list still holds the actor afterwards: `updateActors` keeps
      only the actors alive after their turn, the other loops keep all. */
  predicate Stays(op: Op, a: Actor) {
    !op.Step? || a.alive
  }

  /** The sessions after the loop of an `Op` over one class list: each
      session sees the actors' turns, in list order, on its own. */
  function After(op: Op, sessions: map<int, Session>, list: seq<Actor>): (r: map<int, Session>)
    ensures r.Keys == sessions.Keys
  {
    map k | k in sessions :: FoldTo(op, sessions[k], list)
  }

  /** The class list after the loop of an `Op` over it: the actors as their
      turns left them, in order, without the ones `updateActors` drops. */
  function Survivors(op: Op, sessions: map<int, Session>, list: seq<Actor>): seq<Actor>
    decreases |list|
  {
    if |list| == 0 then []
    else
      var n := |list| - 1;
      var o := Apply(op, After(op, sessions, list[..n]), list[n]);
      Survivors(op, sessions, list[..n]) + if Stays(op, o.actor) then [o.actor] else []
  }

  /** Reference reading of the survivors of `updateActors`: the actors, in
      order, that are alive when their turn comes and that their own hook
      neither destroys nor kills. */
  function Keep(list: seq<Actor>, hook: int -> Effect): (r: seq<Actor>)
    ensures |r| <= |list|
    ensures forall a :: a in r ==> a in list && Survives(a, hook(a.id))
    decreases |list|
  {
    if |list| == 0 then []
    else
      var a := list[|list| - 1];
      Keep(list[..|list| - 1], hook) + if Survives(a, hook(a.id)) then [a] else []
  }

  /** Whether session k knows actor a after its turn, given whether it knew
      it before:
      - introducing (INIT) leaves it known exactly when it is visible to the
        session, dead or alive;
      - destroying a live actor leaves it unknown;
      - a step leaves a live actor unknown when its hook destroys it, as
        known as before when its hook clears `alive` itself, and otherwise
        known exactly when the session is in the visibility list the hook
        left;
      and a dead actor is otherwise not touched. */
  predicate KnowsAfter(op: Op, a: Actor, k: int, knew: bool) {
    match op
    case Introduce => Visible(a, k)
    case DestroyEach => if a.alive then false else knew
    case Step(hook) =>
      var e := hook(a.id);
      if !a.alive then knew
      else if e.destroy then false
      else if !e.alive then knew
      else Visible(a.(vis := e.vis), k)
  }

  // ---------------------------------------------------------------------------
  // Destroy

  /** `destroy` is idempotent: a second call changes nothing, and a call on a
      dead actor changes nothing. */
  lemma DestroyIdempotent(sessions: map<int, Session>, a: Actor)
    ensures var r := Apply(DestroyEach, sessions, a);
            !r.actor.alive && Apply(DestroyEach, r.sessions, r.actor) == r
    ensures !a.alive ==> Apply(DestroyEach, sessions, a) == Out(sessions, a)
  {
  }

  /** Emitting to every session keeps the registry well formed and moves only
      the emitted actor's id in or out of the known lists. */
  lemma EmitAllKnown(sessions: map<int, Session>, a: Actor, kind: Kind)
    requires SessionsOk(sessions)
    ensures var r := EmitAll(sessions, a, kind);
            && SessionsOk(r)
            && r.Keys == sessions.Keys
            && forall k, x :: k in sessions ==>
                 (x in r[k].known <==> if x == a.id then Visible(a, k) && kind != Destroy else x in sessions[k].known)
  {
    var r := EmitAll(sessions, a, kind);
    forall k | k in sessions
      ensures r[k].id == k && NoDup(r[k].known)
      ensures forall x :: x in r[k].known <==> if x == a.id then Visible(a, k) && kind != Destroy else x in sessions[k].known
    {
      EmitKnown(sessions[k], a, kind);
    }
  }

  /** After the first `destroy` of a live actor no session knows it, and
      every session that could see it has a DESTROY for it queued. */
  lemma DestroyForgets(sessions: map<int, Session>, a: Actor)
    requires SessionsOk(sessions) && a.alive
    ensures var r := Apply(DestroyEach, sessions, a);
            && SessionsOk(r.sessions)
            && r.sessions.Keys == sessions.Keys
            && forall k :: k in sessions ==>
                 && a.id !in r.sessions[k].known
                 && (Visible(a, k) ==> r.sessions[k].destroys == sessions[k].destroys + [Final(a.id)])
  {
    var d := a.(alive := false);
    EmitAllKnown(sessions, d, Destroy);
    forall k | k in sessions && Visible(a, k)
      ensures EmitAll(sessions, d, Destroy)[k].destroys == sessions[k].destroys + [Final(a.id)]
    {
      EmitDestroyQueues(sessions[k], d);
    }
  }

  // ---------------------------------------------------------------------------
  // The loops over a class list, one session at a time

  /** An actor's turn seen from one session. */
  function ApplyTo(op: Op, c: Session, a: Actor): Session {
    match EmissionOf(op, a)
    case Silent(_) => c
    case Emits(kind, b) => EmitTo(c, b, kind)
  }

  /** A loop over a class list seen from one session. */
  function FoldTo(op: Op, c: Session, list: seq<Actor>): Session
    decreases |list|
  {
    if |list| == 0 then c else ApplyTo(op, FoldTo(op, c, list[..|list| - 1]), list[|list| - 1])
  }

  /** Every session sees an actor's turn on its own. */
  lemma ApplyPointwise(op: Op, sessions: map<int, Session>, a: Actor)
    ensures Apply(op, sessions, a).sessions == map k | k in sessions :: ApplyTo(op, sessions[k], a)
  {
  }

  /** The loop's sessions after one more turn are the sessions after that
      turn: what the loop invariant of the `Server` methods needs. */
  lemma AfterStep(op: Op, sessions: map<int, Session>, list: seq<Actor>)
    requires |list| != 0
    ensures var n := |list| - 1;
            Apply(op, After(op, sessions, list[..n]), list[n]).sessions == After(op, sessions, list)
  {
    var n := |list| - 1;
    var p := After(op, sessions, list[..n]);
    ApplyPointwise(op, p, list[n]);
    var l := map k | k in p :: ApplyTo(op, p[k], list[n]);
    var r := After(op, sessions, list);
    forall k | k in sessions ensures l[k] == r[k] {
      assert FoldTo(op, sessions[k], list) == ApplyTo(op, FoldTo(op, sessions[k], list[..n]), list[n]);
    }
    assert l == r;
  }

  /** The turn at position i of a loop over a class list: the sessions and
      the survivors after it, from those before it. */
  lemma LoopStep(op: Op, sessions: map<int, Session>, list: seq<Actor>, i: int)
    requires 0 <= i < |list|
    ensures var o := Apply(op, After(op, sessions, list[..i]), list[i]);
            && After(op, sessions, list[..i + 1]) == o.sessions
            && Survivors(op, sessions, list[..i + 1]) ==
                 Survivors(op, sessions, list[..i]) + if Stays(op, o.actor) then [o.actor] else []
  {
    assert list[..i + 1][..i] == list[..i];
    AfterStep(op, sessions, list[..i + 1]);
  }

  /** Before the loop's first turn the sessions are as they were. */
  lemma AfterEmpty(op: Op, sessions: map<int, Session>)
    ensures After(op, sessions, []) == sessions
  {
    var r := After(op, sessions, []);
    forall k | k in sessions ensures r[k] == sessions[k] {
      assert FoldTo(op, sessions[k], []) == sessions[k];
    }
    assert r == sessions;
  }

  /** One actor's turn moves no other id in the session's known list and
      leaves the actor known as `KnowsAfter` says. */
  lemma ApplyToKnown(op: Op, c: Session, a: Actor)
    requires NoDup(c.known)
    ensures var r := ApplyTo(op, c, a);
            && NoDup(r.known) && r.id == c.id
            && forall x :: x in r.known <==>
                 if x == a.id then KnowsAfter(op, a, c.id, x in c.known) else x in c.known
  {
    match EmissionOf(op, a)
    case Silent(_) =>
    case Emits(kind, b) => EmitKnown(c, b, kind);
  }

  /** What a loop over a class list does to one session's known list: every
      actor of the list ends up known exactly as `KnowsAfter` says, and every
      other id keeps its membership. */
  lemma {:induction false} FoldToKnown(op: Op, c: Session, list: seq<Actor>)
    requires NoDup(c.known) && NoDup(Ids(list))
    ensures var r := FoldTo(op, c, list);
            && NoDup(r.known) && r.id == c.id
            && (forall i :: 0 <= i < |list| ==>
                  (list[i].id in r.known <==> KnowsAfter(op, list[i], c.id, list[i].id in c.known)))
            && forall x :: x !in Ids(list) ==> (x in r.known <==> x in c.known)
    decreases |list|
  {
    if |list| != 0 {
      var n := |list| - 1;
      IdsPrefix(list);
      FoldToKnown(op, c, list[..n]);
      var p := FoldTo(op, c, list[..n]);
      ApplyToKnown(op, p, list[n]);
      FoldKnownLast(op, c.known, p.known, ApplyTo(op, p, list[n]).known, list, c.id);
    }
  }

  lemma IdsPrefix(list: seq<Actor>)
    requires |list| != 0
    ensures Ids(list[..|list| - 1]) == Ids(list)[..|list| - 1]
    ensures NoDup(Ids(list)) ==> NoDup(Ids(list[..|list| - 1]))
  {
  }

  /** The induction step of `FoldToKnown`, on the three known lists alone. */
  lemma FoldKnownLast(op: Op, before: seq<int>, mid: seq<int>, after: seq<int>, list: seq<Actor>, k: int)
    requires |list| != 0 && NoDup(Ids(list))
    requires var n := |list| - 1;
             && (forall i :: 0 <= i < n ==>
                   (list[..n][i].id in mid <==> KnowsAfter(op, list[..n][i], k, list[..n][i].id in before)))
             && (forall x :: x !in Ids(list[..n]) ==> (x in mid <==> x in before))
             && (forall x :: x in after <==>
                   if x == list[n].id then KnowsAfter(op, list[n], k, x in mid) else x in mid)
    ensures forall i :: 0 <= i < |list| ==>
              (list[i].id in after <==> KnowsAfter(op, list[i], k, list[i].id in before))
    ensures forall x :: x !in Ids(list) ==> (x in after <==> x in before)
  {
    var n := |list| - 1;
    var a := list[n];
    var ids := Ids(list);
    var pre := Ids(list[..n]);
    assert pre == ids[..n];
    assert a.id !in pre by {
      forall i | 0 <= i < n ensures pre[i] != a.id {
        assert ids[i] == pre[i] && ids[n] == a.id;
      }
    }
    forall i | 0 <= i < n ensures list[i].id != a.id && list[..n][i] == list[i] {
      assert ids[i] == list[i].id && ids[n] == a.id;
    }
    forall x | x !in ids ensures x !in pre && x != a.id {
      assert ids[n] == a.id;
    }
  }

  /** A loop over a class list keeps a session's id and its known list free
      of duplicates. */
  lemma {:induction false} FoldToRegistry(op: Op, c: Session, list: seq<Actor>)
    requires NoDup(c.known)
    ensures FoldTo(op, c, list).id == c.id && NoDup(FoldTo(op, c, list).known)
    decreases |list|
  {
    if |list| != 0 {
      var n := |list| - 1;
      FoldToRegistry(op, c, list[..n]);
      ApplyToKnown(op, FoldTo(op, c, list[..n]), list[n]);
    }
  }

  /** A loop over a class list keeps the registry well formed. */
  lemma FoldOk(op: Op, sessions: map<int, Session>, list: seq<Actor>)
    requires SessionsOk(sessions)
    ensures SessionsOk(After(op, sessions, list))
  {
    forall k | k in sessions ensures FoldTo(op, sessions[k], list).id == k && NoDup(FoldTo(op, sessions[k], list).known) {
      FoldToRegistry(op, sessions[k], list);
    }
  }

  /** What a loop over a class list does to every known list: for every
      session k, every actor of the list ends up known by k exactly as
      `KnowsAfter` says, and every other id keeps its membership. In
      particular a step introduces a session added since the last step to
      every surviving actor it can see, and makes every session forget the
      actors destroyed during the step. */
  lemma FoldKnown(op: Op, sessions: map<int, Session>, list: seq<Actor>, k: int)
    requires SessionsOk(sessions) && NoDup(Ids(list)) && k in sessions
    ensures var r := After(op, sessions, list);
            && (forall i :: 0 <= i < |list| ==>
                  (list[i].id in r[k].known <==>
                     KnowsAfter(op, list[i], k, list[i].id in sessions[k].known)))
            && forall x :: x !in Ids(list) ==> (x in r[k].known <==> x in sessions[k].known)
  {
    FoldToKnown(op, sessions[k], list);
  }

  /** The survivors of a step are, in order, the actors `Keep` selects, with
      the class, the visibility list their hook left, still alive, and with
      `updated` reset where the hook had set it. */
  lemma {:induction false} StepSurvivors(sessions: map<int, Session>, list: seq<Actor>, hook: int -> Effect)
    ensures var r := Survivors(Step(hook), sessions, list);
            var kept := Keep(list, hook);
            && |r| == |kept|
            && forall i :: 0 <= i < |kept| ==>
                 && r[i].id == kept[i].id
                 && r[i].clas == kept[i].clas
                 && r[i].alive
                 && r[i].vis == hook(kept[i].id).vis
                 && (hook(kept[i].id).updated ==> !r[i].updated)
    decreases |list|
  {
    if |list| != 0 {
      var n := |list| - 1;
      var a := list[n];
      StepSurvivors(sessions, list[..n], hook);
      var p := After(Step(hook), sessions, list[..n]);
      var o := Apply(Step(hook), p, a);
      assert Survivors(Step(hook), sessions, list)
          == Survivors(Step(hook), sessions, list[..n]) + if o.actor.alive then [o.actor] else [];
      assert Keep(list, hook) == Keep(list[..n], hook) + if Survives(a, hook(a.id)) then [a] else [];
      StepActor(p, a, hook);
    }
  }

  /** The actor after its turn in a step: it survives exactly when it was
      alive and its hook neither destroyed it nor cleared `alive`; it keeps
      its id and class, carries the hook's visibility list, and has `updated`
      reset when the hook set it. A dead actor, and one whose hook cleared
      `alive` without `destroy`, sends nothing to any session. */
  lemma StepActor(sessions: map<int, Session>, a: Actor, hook: int -> Effect)
    ensures var r := Apply(Step(hook), sessions, a);
            var b := r.actor;
            var e := hook(a.id);
            && (b.alive <==> Survives(a, e))
            && b.id == a.id && b.clas == a.clas
            && (a.alive ==> b.vis == e.vis)
            && (Survives(a, e) && e.updated ==> !b.updated)
            && (!a.alive || (!e.destroy && !e.alive) ==> r.sessions == sessions)
  {
  }

  /** `destroyActors` and the INIT loop keep every actor in its list, with
      its id and class; after `destroyActors` none is alive. */
  lemma {:induction false} FoldKeepsAll(op: Op, sessions: map<int, Session>, list: seq<Actor>)
    requires !op.Step?
    ensures var r := Survivors(op, sessions, list);
            && |r| == |list|
            && forall i :: 0 <= i < |list| ==>
                 && r[i].id == list[i].id && r[i].clas == list[i].clas
                 && (op == DestroyEach ==> !r[i].alive)
    decreases |list|
  {
    if |list| != 0 {
      var n := |list| - 1;
      FoldKeepsAll(op, sessions, list[..n]);
      var p := After(op, sessions, list[..n]);
      var o := Apply(op, p, list[n]);
      ApplyActor(op, p, list[n]);
      assert Survivors(op, sessions, list) == Survivors(op, sessions, list[..n]) + [o.actor];
    }
  }

  /** An actor's turn keeps its id and class, and `destroy` leaves it dead. */
  lemma ApplyActor(op: Op, sessions: map<int, Session>, a: Actor)
    ensures var b := Apply(op, sessions, a).actor;
            && b.id == a.id && b.clas == a.clas
            && (op == DestroyEach ==> !b.alive)
            && (op.Step? ==> (b.alive <==> Survives(a, op.hook(a.id))))
  {
  }

  // ---------------------------------------------------------------------------
  // Nothing is sent before the actor is announced

  /** Every session is sound relative to what it knew at its last flush. */
  ghost predicate AllSound(sessions: map<int, Session>, before: map<int, set<int>>) {
    forall k :: k in sessions ==> k in before && Sound(sessions[k], before[k])
  }

  lemma {:induction false} FoldToSound(op: Op, c: Session, list: seq<Actor>, before: set<int>)
    requires NoDup(c.known) && Sound(c, before)
    ensures Sound(FoldTo(op, c, list), before) && NoDup(FoldTo(op, c, list).known)
    decreases |list|
  {
    if |list| != 0 {
      var n := |list| - 1;
      FoldToSound(op, c, list[..n], before);
      var p := FoldTo(op, c, list[..n]);
      match EmissionOf(op, list[n])
      case Silent(_) =>
      case Emits(kind, b) =>
        EmitSound(p, b, kind, before);
        EmitKnown(p, b, kind);
    }
  }

  /** Every loop over a class list keeps every session sound: no session is
      sent an update, a remove or a destroy for an actor it was never
      introduced to. */
  lemma FoldSound(op: Op, sessions: map<int, Session>, list: seq<Actor>, before: map<int, set<int>>)
    requires SessionsOk(sessions) && AllSound(sessions, before)
    ensures AllSound(After(op, sessions, list), before)
  {
    forall k | k in sessions ensures Sound(FoldTo(op, sessions[k], list), before[k]) {
      FoldToSound(op, sessions[k], list, before[k]);
    }
  }

  /** Right after a flush every session is sound relative to what it knows. */
  lemma ClearedSound(c: Session)
    ensures Sound(Cleared(c), set x | x in c.known)
  {
  }

  // ---------------------------------------------------------------------------
  // Flushing the queues

  /** A wire message. `Start` is MSG_GAME_START to one session, `FieldsOut`
      the MSG_GAME_FIELDS broadcast, `Batch` one queue sent to one session
      under its message type. The JSON text they are turned into is not
      modelled here. */
  datatype Wire =
    | Start(to: int, id: int, interval: int, fields: map<string, Value>)
    | FieldsOut(fields: map<string, Value>)
    | Batch(to: int, code: int, msgs: seq<Msg>)

  /** `if (q.length > 0) c.send(code, q)` */
  function Packet(to: int, code: int, q: seq<Msg>): seq<Wire> {
    if |q| > 0 then [Batch(to, code, q)] else []
  }

  /** The five queues of a session under the message types they go out as,
      in the order the send loop of `updateActors` visits them. */
  function Queues(c: Session): seq<(int, seq<Msg>)> {
    [(MSG_ACTORS_INIT, c.inits), (MSG_ACTORS_CREATE, c.creates), (MSG_ACTORS_UPDATE, c.updates),
     (MSG_ACTORS_REMOVE, c.removes), (MSG_ACTORS_DESTROY, c.destroys)]
  }

  /** One `Packet` per queue, in order. */
  function Packets(to: int, qs: seq<(int, seq<Msg>)>): seq<Wire>
    decreases |qs|
  {
    if |qs| == 0 then [] else Packet(to, qs[0].0, qs[0].1) + Packets(to, qs[1..])
  }

  /** What the send loop of `updateActors` writes to one session. */
  function Flush(c: Session): seq<Wire> {
    Packets(c.id, Queues(c))
  }

  /** The session with its five queues reassigned to `[]`. */
  function Cleared(c: Session): (r: Session)
    ensures Queued(r) == []
    ensures r.id == c.id && r.known == c.known
  {
    c.(inits := [], creates := [], updates := [], removes := [], destroys := [])
  }

  /** The messages of a list of wire batches, concatenated in order. */
  function Contents(w: seq<Wire>): seq<Msg>
    decreases |w|
  {
    if |w| == 0 then []
    else (if w[0].Batch? then w[0].msgs else []) + Contents(w[1..])
  }

  /** The queues of a list, concatenated in order. */
  function Concat(qs: seq<(int, seq<Msg>)>): seq<Msg>
    decreases |qs|
  {
    if |qs| == 0 then [] else qs[0].1 + Concat(qs[1..])
  }

  lemma {:induction false} ContentsAppend(a: seq<Wire>, b: seq<Wire>)
    ensures Contents(a + b) == Contents(a) + Contents(b)
    decreases |a|
  {
    if |a| != 0 {
      assert (a + b)[0] == a[0] && (a + b)[1..] == a[1..] + b;
      ContentsAppend(a[1..], b);
    } else {
      assert a + b == b;
    }
  }

  /** Packing a list of queues, by induction on the list: at most one batch
      per queue, addressed to the session, none empty, each one of the given
      (code, queue) pairs, and codes ascending when they ascend in the list. */
  lemma {:induction false} PacketsShape(to: int, qs: seq<(int, seq<Msg>)>)
    requires forall i, j :: 0 <= i < j < |qs| ==> qs[i].0 < qs[j].0
    ensures var w := Packets(to, qs);
            && |w| <= |qs|
            && (forall i :: 0 <= i < |w| ==>
                  && w[i].Batch? && w[i].to == to && |w[i].msgs| > 0
                  && (w[i].code, w[i].msgs) in qs)
            && (forall i, j :: 0 <= i < j < |w| ==> w[i].code < w[j].code)
    decreases |qs|
  {
    if |qs| != 0 {
      var head := Packet(to, qs[0].0, qs[0].1);
      var rest := Packets(to, qs[1..]);
      PacketsShape(to, qs[1..]);
      assert Packets(to, qs) == head + rest;
      forall i | 0 <= i < |rest| ensures (rest[i].code, rest[i].msgs) in qs && qs[0].0 < rest[i].code {
        var j :| 0 <= j < |qs[1..]| && qs[1..][j] == (rest[i].code, rest[i].msgs);
        assert qs[j + 1] == qs[1..][j];
      }
    }
  }

  /** The batches carry the queues' messages, in order. */
  lemma {:induction false} PacketsContents(to: int, qs: seq<(int, seq<Msg>)>)
    ensures Contents(Packets(to, qs)) == Concat(qs)
    decreases |qs|
  {
    if |qs| != 0 {
      var head := Packet(to, qs[0].0, qs[0].1);
      var rest := Packets(to, qs[1..]);
      PacketsContents(to, qs[1..]);
      assert Packets(to, qs) == head + rest;
      ContentsAppend(head, rest);
      if |qs[0].1| > 0 {
        assert Contents(head) == qs[0].1 by {
          assert head[1..] == [];
        }
      }
    }
  }

  /** Every non-empty queue of the list is sent, whole. */
  lemma {:induction false} PacketsComplete(to: int, qs: seq<(int, seq<Msg>)>, j: int)
    requires 0 <= j < |qs| && |qs[j].1| > 0
    ensures Batch(to, qs[j].0, qs[j].1) in Packets(to, qs)
    decreases |qs|
  {
    assert Packets(to, qs) == Packet(to, qs[0].0, qs[0].1) + Packets(to, qs[1..]);
    if j > 0 {
      PacketsComplete(to, qs[1..], j - 1);
    }
  }

  /** Concatenating the five queues in their list order. */
  lemma ConcatQueues(c: Session)
    ensures Concat(Queues(c)) == Queued(c)
  {
    var q0 := Queues(c);
    var q1 := q0[1..];
    var q2 := q1[1..];
    var q3 := q2[1..];
    var q4 := q3[1..];
    assert q4[1..] == [];
    assert Concat(q4) == c.destroys;
    assert Concat(q3) == c.removes + c.destroys;
    assert Concat(q2) == c.updates + c.removes + c.destroys;
    assert Concat(q1) == c.creates + c.updates + c.removes + c.destroys;
  }

  /** A session receives at most five batches, all addressed to it, none
      empty, each carrying the whole queue of its message type, in the order
      INIT, CREATE, UPDATE, REMOVE, DESTROY; together they carry every
      queued message in queue order. */
  lemma FlushShape(c: Session)
    ensures var w := Flush(c);
            && |w| <= 5
            && (forall i :: 0 <= i < |w| ==>
                  && w[i].Batch? && w[i].to == c.id
                  && MSG_ACTORS_INIT <= w[i].code <= MSG_ACTORS_DESTROY
                  && |w[i].msgs| > 0
                  && w[i].msgs == QueueOf(c, w[i].code))
            && (forall i, j :: 0 <= i < j < |w| ==> w[i].code < w[j].code)
            && Contents(w) == Queued(c)
  {
    PacketsShape(c.id, Queues(c));
    PacketsContents(c.id, Queues(c));
    ConcatQueues(c);
  }

  /** The send loop's five `if (q.length > 0) c.send(code, q)` in a row. */
  lemma FlushUnfold(c: Session)
    ensures Flush(c) == Packet(c.id, MSG_ACTORS_INIT, c.inits) + Packet(c.id, MSG_ACTORS_CREATE, c.creates)
                        + Packet(c.id, MSG_ACTORS_UPDATE, c.updates) + Packet(c.id, MSG_ACTORS_REMOVE, c.removes)
                        + Packet(c.id, MSG_ACTORS_DESTROY, c.destroys)
  {
    var q0 := Queues(c);
    var q1 := q0[1..];
    var q2 := q1[1..];
    var q3 := q2[1..];
    var q4 := q3[1..];
    assert q4[1..] == [];
    assert Packets(c.id, q4) == Packet(c.id, MSG_ACTORS_DESTROY, c.destroys);
    assert Packets(c.id, q3) == Packet(c.id, MSG_ACTORS_REMOVE, c.removes) + Packets(c.id, q4);
    assert Packets(c.id, q2) == Packet(c.id, MSG_ACTORS_UPDATE, c.updates) + Packets(c.id, q3);
    assert Packets(c.id, q1) == Packet(c.id, MSG_ACTORS_CREATE, c.creates) + Packets(c.id, q2);
  }

  /** The queue that goes out under a message type. */
  function QueueOf(c: Session, code: int): seq<Msg> {
    if code == MSG_ACTORS_INIT then c.inits
    else if code == MSG_ACTORS_CREATE then c.creates
    else if code == MSG_ACTORS_UPDATE then c.updates
    else if code == MSG_ACTORS_REMOVE then c.removes
    else if code == MSG_ACTORS_DESTROY then c.destroys
    else []
  }

  /** Every queue that is non-empty is sent. */
  lemma FlushSendsEveryQueue(c: Session, code: int)
    requires MSG_ACTORS_INIT <= code <= MSG_ACTORS_DESTROY && |QueueOf(c, code)| > 0
    ensures Batch(c.id, code, QueueOf(c, code)) in Flush(c)
  {
    PacketsComplete(c.id, Queues(c), code - MSG_ACTORS_INIT);
  }
}

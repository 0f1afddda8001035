/** Per-session reconciliation of one actor, server `Actor.prototype.emit`
    (server/server.js:542-587), on values: a session (the server-side `Client`
    record) is its id, the list `actors` of actor ids it knows, and its five
    outgoing queues. */
module Sync {
  import opened Js

  /** The four kinds `emit` is called with (MSG_ACTORS_INIT, _CREATE, _UPDATE
      and _DESTROY); MSG_ACTORS_REMOVE is never passed to `emit`, it only names
      a queue. */
  datatype Kind = Init | Create | Update | Destroy

  const MSG_GAME_START := 1
  const MSG_GAME_FIELDS := 2
  const MSG_GAME_SHUTDOWN := 3
  const MSG_ACTORS_INIT := 4
  const MSG_ACTORS_CREATE := 5
  const MSG_ACTORS_UPDATE := 6
  const MSG_ACTORS_REMOVE := 7
  const MSG_ACTORS_DESTROY := 8

  /** A server actor as far as synchronisation sees it: `clients` (here `vis`)
      lists the session ids that may see it, the empty list meaning all. The
      position, velocity and custom payload are opaque here. */
  datatype Actor = Actor(id: int, clas: string, alive: bool, updated: bool, vis: seq<int>)

  /** One queued entry. `Full` is `toMessage(true)` (it carries the class),
      `Partial` is `toMessage(false)`, `Removal` is `[id]` and `Final` is
      `[id, x, y]`; the rounded coordinates and the class's custom payload are
      not modelled. */
  datatype Msg = Full(id: int, clas: string) | Partial(id: int) | Removal(id: int) | Final(id: int)

  /** A server-side session (`Client`): `known` is its `actors` list. */
  datatype Session = Session(
    id: int,
    known: seq<int>,
    inits: seq<Msg>,
    creates: seq<Msg>,
    updates: seq<Msg>,
    removes: seq<Msg>,
    destroys: seq<Msg>)

  /** The state the `Client` constructor gives a new session (server/server.js:454-461). */
  function NewSession(id: int): (c: Session)
    ensures c.id == id && c.known == []
    ensures c.inits == c.creates == c.updates == c.removes == c.destroys == []
  {
    Session(id, [], [], [], [], [], [])
  }

  /** `this.clients.length == 0 || this.clients.indexOf(c.id) != -1` */
  predicate Visible(a: Actor, session: int) {
    |a.vis| == 0 || IndexOf(a.vis, session) != -1
  }

  /** The body of the `for (i in clients)` loop of `emit` for one session. */
  function EmitTo(c: Session, a: Actor, kind: Kind): (r: Session)
    ensures r.id == c.id
  {
    var index := IndexOf(c.known, a.id);
    if Visible(a, c.id) then
      match kind
      case Destroy =>
        var known := if index == -1 then c.known + [a.id] else c.known;
        var inits := if index == -1 then c.inits + [Full(a.id, a.clas)] else c.inits;
        c.(known := SpliceOne(known, index), inits := inits, destroys := c.destroys + [Final(a.id)])
      case Update =>
        if index == -1 then
          c.(known := c.known + [a.id], inits := c.inits + [Full(a.id, a.clas)],
             updates := c.updates + [Partial(a.id)])
        else c.(updates := c.updates + [Partial(a.id)])
      case Create =>
        if index == -1 then c.(known := c.known + [a.id], creates := c.creates + [Full(a.id, a.clas)])
        else c
      case Init =>
        if index == -1 then c.(known := c.known + [a.id], inits := c.inits + [Full(a.id, a.clas)])
        else c
    else if IndexOf(a.vis, c.id) == -1 && index != -1 then
      c.(known := SpliceOne(c.known, index), removes := c.removes + [Removal(a.id)])
    else c
  }

  /** Whether `emit` sets `this.updated = true` while handling session c. */
  predicate Introduces(c: Session, a: Actor, kind: Kind) {
    Visible(a, c.id) && IndexOf(c.known, a.id) == -1 && kind != Update
  }

  /** All sessions after `emit`. */
  function EmitAll(sessions: map<int, Session>, a: Actor, kind: Kind): (r: map<int, Session>)
    ensures r.Keys == sessions.Keys
    ensures forall k :: k in sessions ==> r[k] == EmitTo(sessions[k], a, kind)
  {
    map k | k in sessions :: EmitTo(sessions[k], a, kind)
  }

  /** The actor after `emit`: only its `updated` flag can change, to true. */
  function Emitted(sessions: map<int, Session>, a: Actor, kind: Kind): (r: Actor)
    ensures r.updated <==> a.updated || exists k :: k in sessions && Introduces(sessions[k], a, kind)
    ensures r == a.(updated := r.updated)
  {
    a.(updated := a.updated || exists k :: k in sessions && Introduces(sessions[k], a, kind))
  }

  /** What the session's five queues hold, as they are flushed: init, create,
      update, remove, destroy. */
  function Queued(c: Session): seq<Msg> {
    c.inits + c.creates + c.updates + c.removes + c.destroys
  }

  // ---------------------------------------------------------------------------
  // What one emit does to one session

  /** After `emit(kind)` the session knows the actor exactly when the actor is
      visible to it and kind is not DESTROY; no other id enters or leaves the
      list and no id appears twice. */
  lemma EmitKnown(c: Session, a: Actor, kind: Kind)
    requires NoDup(c.known)
    ensures var r := EmitTo(c, a, kind);
            && NoDup(r.known)
            && (a.id in r.known <==> Visible(a, c.id) && kind != Destroy)
            && r.id == c.id
            && forall x :: x != a.id ==> (x in r.known <==> x in c.known)
  {
    var r := EmitTo(c, a, kind);
    var index := IndexOf(c.known, a.id);
    if Visible(a, c.id) {
      if kind == Destroy {
        if index == -1 {
          SplicePushed(c.known, a.id);
        } else {
          SpliceIndexOf(c.known, a.id);
        }
      } else if index == -1 {
        AppendFresh(c.known, a.id);
      }
    } else if index != -1 {
      SpliceIndexOf(c.known, a.id);
    }
  }

  lemma AppendFresh(s: seq<int>, x: int)
    requires NoDup(s) && x !in s
    ensures NoDup(s + [x])
  {
  }

  /** CREATE or INIT to a visible session that already knows the actor does
      nothing at all. */
  lemma EmitKnownIntroduceIsNoop(c: Session, a: Actor, kind: Kind)
    requires kind == Create || kind == Init
    requires Visible(a, c.id) && a.id in c.known
    ensures EmitTo(c, a, kind) == c
    ensures !Introduces(c, a, kind)
  {
  }

  /** CREATE or INIT to a visible session that does not know the actor
      enqueues one full message on the create or the init queue (and nothing
      else), and that is the case where `emit` marks the actor as updated. */
  lemma EmitIntroduces(c: Session, a: Actor, kind: Kind)
    requires kind == Create || kind == Init
    requires Visible(a, c.id) && a.id !in c.known
    ensures var r := EmitTo(c, a, kind);
            && r.known == c.known + [a.id]
            && r.inits == c.inits + (if kind == Init then [Full(a.id, a.clas)] else [])
            && r.creates == c.creates + (if kind == Create then [Full(a.id, a.clas)] else [])
            && r.updates == c.updates && r.removes == c.removes && r.destroys == c.destroys
    ensures Introduces(c, a, kind)
  {
  }

  /** UPDATE to a visible session enqueues exactly one update, preceded by one
      init when the session did not know the actor. */
  lemma EmitUpdateQueues(c: Session, a: Actor)
    requires Visible(a, c.id)
    ensures var r := EmitTo(c, a, Update);
            && r.updates == c.updates + [Partial(a.id)]
            && r.inits == c.inits + (if a.id in c.known then [] else [Full(a.id, a.clas)])
            && r.creates == c.creates && r.removes == c.removes && r.destroys == c.destroys
    ensures !Introduces(c, a, Update)
  {
  }

  /** DESTROY to a visible session enqueues exactly one destroy, preceded by
      one init when the session did not know the actor. */
  lemma EmitDestroyQueues(c: Session, a: Actor)
    requires Visible(a, c.id)
    ensures var r := EmitTo(c, a, Destroy);
            && r.destroys == c.destroys + [Final(a.id)]
            && r.inits == c.inits + (if a.id in c.known then [] else [Full(a.id, a.clas)])
            && r.creates == c.creates && r.updates == c.updates && r.removes == c.removes
    ensures Introduces(c, a, Destroy) <==> a.id !in c.known
  {
  }

  /** A session that cannot see the actor gets a REMOVE exactly when it knew
      the actor, and nothing else whatever the kind. */
  lemma EmitHidden(c: Session, a: Actor, kind: Kind)
    requires !Visible(a, c.id)
    ensures var r := EmitTo(c, a, kind);
            && r.removes == c.removes + (if a.id in c.known then [Removal(a.id)] else [])
            && r.inits == c.inits && r.creates == c.creates
            && r.updates == c.updates && r.destroys == c.destroys
    ensures !Introduces(c, a, kind)
  {
  }

  /** Whatever the case, a full (INIT or CREATE) message is only ever enqueued
      for an actor the session did not know, and a REMOVE only for one it knew:
      no session is introduced twice to the same actor without a REMOVE or
      DESTROY in between. */
  lemma EmitFullOnlyWhenUnknown(c: Session, a: Actor, kind: Kind)
    ensures var r := EmitTo(c, a, kind);
            && (|r.inits| + |r.creates| > |c.inits| + |c.creates| ==> a.id !in c.known)
            && (|r.removes| > |c.removes| ==> a.id in c.known)
            && |r.inits| + |r.creates| <= |c.inits| + |c.creates| + 1
  {
  }

  // ---------------------------------------------------------------------------
  // Nothing is sent before the actor is announced

  /** The ids some INIT or CREATE message in the session's queues introduces. */
  function Announced(c: Session): set<int> {
    set m | m in c.inits + c.creates && m.Full? :: m.id
  }

  /** Relative to the ids `before` the session knew when its queues were
      last flushed: every id it now knows, and every id an update, remove or
      destroy in its queues refers to, was known then or is introduced by
      an init or create queued since. As the init and create queues are
      flushed first, the client never hears of an actor before it has been
      introduced. */
  ghost predicate Sound(c: Session, before: set<int>) {
    && (forall x :: x in c.known ==> x in before || x in Announced(c))
    && (forall m :: m in c.updates + c.removes + c.destroys ==> m.id in before || m.id in Announced(c))
  }

  /** Every emit keeps a session sound. */
  lemma EmitSound(c: Session, a: Actor, kind: Kind, before: set<int>)
    requires NoDup(c.known)
    requires Sound(c, before)
    ensures Sound(EmitTo(c, a, kind), before)
  {
    var r := EmitTo(c, a, kind);
    EmitKnown(c, a, kind);
    assert Announced(c) <= Announced(r) by {
      forall x | x in Announced(c) ensures x in Announced(r) {
        var m :| m in c.inits + c.creates && m.Full? && m.id == x;
        assert m in r.inits + r.creates by {
          assert c.inits <= r.inits && c.creates <= r.creates by {
            if Visible(a, c.id) {
              if kind == Destroy { EmitDestroyQueues(c, a); }
              else if kind == Update { EmitUpdateQueues(c, a); }
              else if a.id in c.known { EmitKnownIntroduceIsNoop(c, a, kind); }
              else { EmitIntroduces(c, a, kind); }
            } else {
              EmitHidden(c, a, kind);
            }
          }
        }
      }
    }
    var full := Full(a.id, a.clas);
    assert a.id !in c.known && Visible(a, c.id) ==> a.id in Announced(r) by {
      if a.id !in c.known && Visible(a, c.id) {
        if kind == Destroy { EmitDestroyQueues(c, a); assert full in r.inits; }
        else if kind == Update { EmitUpdateQueues(c, a); assert full in r.inits; }
        else { EmitIntroduces(c, a, kind); assert full in r.inits + r.creates; }
      }
    }
    forall m | m in r.updates + r.removes + r.destroys
      ensures m.id in before || m.id in Announced(r)
    {
      if m !in c.updates + c.removes + c.destroys {
        assert m.id == a.id by {
          if Visible(a, c.id) {
            if kind == Destroy { EmitDestroyQueues(c, a); }
            else if kind == Update { EmitUpdateQueues(c, a); }
            else if a.id in c.known { EmitKnownIntroduceIsNoop(c, a, kind); }
            else { EmitIntroduces(c, a, kind); }
          } else {
            EmitHidden(c, a, kind);
          }
        }
        if a.id in c.known {
          assert a.id in before || a.id in Announced(c);
        } else if !Visible(a, c.id) {
          EmitHidden(c, a, kind);
        }
      }
    }
  }
}

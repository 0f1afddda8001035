/** The loops of the server over all its class lists, and the send loop of
    `updateActors`, on values. `this.actors` is walked in the order its keys
    were added; a loop over one class list is `Tick.After` and
    `Tick.Survivors`. */
module Sweep {
  import opened Js
  import opened Sync
  import opened Tick

  /** The sessions and the class lists together. */
  datatype World = World(sessions: map<int, Session>, actors: map<string, seq<Actor>>)

  /** The loop over the class list of `t`: the sessions it leaves, and the
      list it leaves under `t`. */
  function Visit(op: Op, w: World, t: string): (r: World)
    ensures r.sessions.Keys == w.sessions.Keys && r.actors.Keys == w.actors.Keys
  {
    if t in w.actors then
      World(After(op, w.sessions, w.actors[t]), w.actors[t := Survivors(op, w.sessions, w.actors[t])])
    else w
  }

  /** `for (var t in this.actors)` around a loop over each class list. */
  function Pass(op: Op, w: World, classes: seq<string>): (r: World)
    ensures r.sessions.Keys == w.sessions.Keys && r.actors.Keys == w.actors.Keys
    decreases |classes|
  {
    if |classes| == 0 then w else Visit(op, Pass(op, w, classes[..|classes| - 1]), classes[|classes| - 1])
  }

  /** The actors of a class list have ascending ids, carry that class, and
      have ids in 1..bound (`actorID`). */
  predicate ListOk(t: string, list: seq<Actor>, bound: int) {
    && Increasing(Ids(list))
    && forall i :: 0 <= i < |list| ==> list[i].clas == t && 1 <= list[i].id <= bound
  }

  predicate ListsOk(actors: map<string, seq<Actor>>, bound: int) {
    forall t :: t in actors ==> ListOk(t, actors[t], bound)
  }

  /** The sum of the lengths of the class lists, in key order. */
  function Total(classes: seq<string>, actors: map<string, seq<Actor>>): (r: nat)
    ensures |classes| == 0 ==> r == 0
    decreases |classes|
  {
    if |classes| == 0 then 0
    else
      var t := classes[|classes| - 1];
      Total(classes[..|classes| - 1], actors) + if t in actors then |actors[t]| else 0
  }

  // ---------------------------------------------------------------------------
  // What a pass keeps

  /** A class list's loop does not break its list: ids stay ascending and in
      bounds, and every actor keeps its class. */
  lemma SurvivorsOk(op: Op, sessions: map<int, Session>, t: string, list: seq<Actor>, bound: int)
    requires ListOk(t, list, bound)
    ensures ListOk(t, Survivors(op, sessions, list), bound)
  {
    var r := Survivors(op, sessions, list);
    if op.Step? {
      var kept := Keep(list, op.hook);
      StepSurvivors(sessions, list, op.hook);
      KeepOk(t, list, op.hook, bound);
      assert Ids(r) == Ids(kept);
    } else {
      FoldKeepsAll(op, sessions, list);
      assert Ids(r) == Ids(list);
    }
  }

  /** `Keep` selects a subsequence, so it keeps a list well formed. */
  lemma {:induction false} KeepOk(t: string, list: seq<Actor>, hook: int -> Effect, bound: int)
    requires ListOk(t, list, bound)
    ensures ListOk(t, Keep(list, hook), bound)
    decreases |list|
  {
    if |list| != 0 {
      var n := |list| - 1;
      var x := list[n];
      ListPrefix(t, list, bound);
      KeepOk(t, list[..n], hook, x.id - 1);
      var kept := Keep(list[..n], hook);
      if Survives(x, hook(x.id)) {
        assert Keep(list, hook) == kept + [x];
        ListAppend(t, kept, x, bound);
      } else {
        assert Keep(list, hook) == kept;
        ListWeaken(t, kept, x.id - 1, bound);
      }
    }
  }

  /** The actors before the last one of a list have smaller ids. */
  lemma ListPrefix(t: string, list: seq<Actor>, bound: int)
    requires ListOk(t, list, bound) && |list| != 0
    ensures ListOk(t, list[..|list| - 1], list[|list| - 1].id - 1)
    ensures list[|list| - 1].id <= bound
  {
    var n := |list| - 1;
    var ids := Ids(list);
    assert Ids(list[..n]) == ids[..n];
    forall i | 0 <= i < n ensures list[i].id < list[n].id {
      assert ids[i] == list[i].id && ids[n] == list[n].id;
    }
  }

  lemma ListAppend(t: string, list: seq<Actor>, x: Actor, bound: int)
    requires ListOk(t, list, x.id - 1) && x.clas == t && 1 <= x.id <= bound
    ensures ListOk(t, list + [x], bound)
  {
    var ids := Ids(list);
    assert Ids(list + [x]) == ids + [x.id];
  }

  lemma ListWeaken(t: string, list: seq<Actor>, b: int, bound: int)
    requires ListOk(t, list, b) && b <= bound
    ensures ListOk(t, list, bound)
  {
  }

  /** A pass keeps the registry and the class lists well formed, keeps the
      keys of both, and leaves the class lists it does not visit alone. */
  lemma {:induction false} PassOk(op: Op, w: World, classes: seq<string>, bound: int)
    requires SessionsOk(w.sessions) && ListsOk(w.actors, bound)
    ensures var r := Pass(op, w, classes);
            && SessionsOk(r.sessions) && ListsOk(r.actors, bound)
            && r.sessions.Keys == w.sessions.Keys && r.actors.Keys == w.actors.Keys
            && forall t :: t in w.actors && t !in classes ==> r.actors[t] == w.actors[t]
    decreases |classes|
  {
    if |classes| != 0 {
      var n := |classes| - 1;
      var t := classes[n];
      PassOk(op, w, classes[..n], bound);
      var p := Pass(op, w, classes[..n]);
      if t in p.actors {
        var list := p.actors[t];
        FoldOk(op, p.sessions, list);
        SurvivorsOk(op, p.sessions, t, list, bound);
      }
      forall u | u in w.actors && u !in classes ensures u !in classes[..n] {
      }
    }
  }

  /** A pass keeps every session sound (`Sync.Sound`). */
  lemma {:induction false} PassSound(op: Op, w: World, classes: seq<string>, before: map<int, set<int>>)
    requires SessionsOk(w.sessions) && AllSound(w.sessions, before)
    ensures AllSound(Pass(op, w, classes).sessions, before)
    decreases |classes|
  {
    if |classes| != 0 {
      var n := |classes| - 1;
      PassSound(op, w, classes[..n], before);
      PassRegistry(op, w, classes[..n]);
      var p := Pass(op, w, classes[..n]);
      if classes[n] in p.actors {
        FoldSound(op, p.sessions, p.actors[classes[n]], before);
      }
    }
  }

  /** A pass keeps the registry well formed (no bound on the lists needed). */
  lemma {:induction false} PassRegistry(op: Op, w: World, classes: seq<string>)
    requires SessionsOk(w.sessions)
    ensures SessionsOk(Pass(op, w, classes).sessions)
    decreases |classes|
  {
    if |classes| != 0 {
      var n := |classes| - 1;
      PassRegistry(op, w, classes[..n]);
      var p := Pass(op, w, classes[..n]);
      if classes[n] in p.actors {
        FoldOk(op, p.sessions, p.actors[classes[n]]);
      }
    }
  }

  /** The sessions the loop over the class list of `t` starts from: those
      the class lists before it left. */
  function SessionsAt(op: Op, w: World, classes: seq<string>, t: string): map<int, Session>
    decreases |classes|
  {
    if |classes| == 0 then w.sessions
    else if classes[|classes| - 1] == t then Pass(op, w, classes[..|classes| - 1]).sessions
    else SessionsAt(op, w, classes[..|classes| - 1], t)
  }

  /** Each class list visited by a pass is the survivors of its own loop,
      run on the sessions the class lists before it left. */
  lemma {:induction false} PassLists(op: Op, w: World, classes: seq<string>, t: string)
    requires NoDup(classes) && t in w.actors && t in classes
    ensures Pass(op, w, classes).actors[t] == Survivors(op, SessionsAt(op, w, classes, t), w.actors[t])
    decreases |classes|
  {
    var n := |classes| - 1;
    PassFrame(op, w, classes[..n]);
    assert NoDup(classes[..n]);
    if classes[n] != t {
      assert t in classes[..n];
      PassLists(op, w, classes[..n], t);
    } else {
      assert t !in classes[..n];
    }
  }

  /** A pass keeps the keys of the class lists and leaves the lists it does
      not visit alone. */
  lemma {:induction false} PassFrame(op: Op, w: World, classes: seq<string>)
    ensures var r := Pass(op, w, classes);
            && r.actors.Keys == w.actors.Keys && r.sessions.Keys == w.sessions.Keys
            && forall t :: t in w.actors && t !in classes ==> r.actors[t] == w.actors[t]
    decreases |classes|
  {
    if |classes| != 0 {
      var n := |classes| - 1;
      PassFrame(op, w, classes[..n]);
      forall u | u in w.actors && u !in classes ensures u !in classes[..n] {
      }
    }
  }

  /** After `updateActors`, each class list holds, in order, exactly the
      actors that were alive and not destroyed by their own `update`, alive,
      with the visibility list the hook left and `updated` reset where the
      hook had set it. */
  lemma StepLists(hook: int -> Effect, w: World, classes: seq<string>, t: string)
    requires NoDup(classes) && t in w.actors && t in classes
    ensures var r := Pass(Step(hook), w, classes).actors[t];
            var kept := Keep(w.actors[t], hook);
            && |r| == |kept|
            && forall i :: 0 <= i < |kept| ==>
                 && r[i].id == kept[i].id && r[i].clas == kept[i].clas && r[i].alive
                 && r[i].vis == hook(kept[i].id).vis
                 && (hook(kept[i].id).updated ==> !r[i].updated)
  {
    PassLists(Step(hook), w, classes, t);
    StepSurvivors(SessionsAt(Step(hook), w, classes, t), w.actors[t], hook);
  }

  /** After `destroyActors` every class list holds the same actors, all dead. */
  lemma DestroyLists(w: World, classes: seq<string>, t: string)
    requires NoDup(classes) && t in w.actors && t in classes
    ensures var r := Pass(DestroyEach, w, classes).actors[t];
            && |r| == |w.actors[t]|
            && forall i :: 0 <= i < |r| ==> r[i].id == w.actors[t][i].id && !r[i].alive
  {
    PassLists(DestroyEach, w, classes, t);
    FoldKeepsAll(DestroyEach, SessionsAt(DestroyEach, w, classes, t), w.actors[t]);
  }

  // ---------------------------------------------------------------------------
  // The send loop of `updateActors`

  /** What the send loop writes, session by session in `order`. */
  function FlushAll(sessions: map<int, Session>, order: seq<int>): seq<Wire>
    decreases |order|
  {
    if |order| == 0 then []
    else
      var k := order[|order| - 1];
      FlushAll(sessions, order[..|order| - 1]) + if k in sessions then Flush(sessions[k]) else []
  }

  /** Every session with its queues cleared. */
  function ClearAll(sessions: map<int, Session>): (r: map<int, Session>)
    ensures r.Keys == sessions.Keys
    ensures forall k :: k in sessions ==> Queued(r[k]) == [] && r[k].known == sessions[k].known
  {
    map k | k in sessions :: Cleared(sessions[k])
  }

  /** The batches of a list of wire messages addressed to one session. */
  function To(w: seq<Wire>, k: int): seq<Wire>
    decreases |w|
  {
    if |w| == 0 then []
    else To(w[..|w| - 1], k) + if w[|w| - 1].Batch? && w[|w| - 1].to == k then [w[|w| - 1]] else []
  }

  lemma {:induction false} ToAppend(a: seq<Wire>, b: seq<Wire>, k: int)
    ensures To(a + b, k) == To(a, k) + To(b, k)
    decreases |b|
  {
    if |b| == 0 {
      assert a + b == a;
    } else {
      var n := |b| - 1;
      assert (a + b)[..|a + b| - 1] == a + b[..n];
      ToAppend(a, b[..n], k);
    }
  }

  /** A list of batches all addressed to one session is all that session
      receives from it, and nothing another session receives. */
  lemma {:induction false} ToOwn(w: seq<Wire>, to: int, k: int)
    requires forall i :: 0 <= i < |w| ==> w[i].Batch? && w[i].to == to
    ensures To(w, k) == if to == k then w else []
    decreases |w|
  {
    if |w| != 0 {
      var n := |w| - 1;
      var pre := w[..n];
      var x := w[n];
      assert x.Batch? && x.to == to;
      ToOwn(pre, to, k);
      if to == k {
        assert To(w, k) == pre + [x];
        assert pre + [x] == w;
      }
    }
  }

  /** Of everything the send loop writes, a session receives exactly
      `Tick.Flush` of its own queues, so `Tick.FlushShape` describes what it
      receives: at most five non-empty batches in the order INIT, CREATE,
      UPDATE, REMOVE, DESTROY carrying its queues in order. */
  lemma {:induction false} FlushAllTo(sessions: map<int, Session>, order: seq<int>, k: int)
    requires SessionsOk(sessions) && NoDup(order) && forall x :: x in order ==> x in sessions
    ensures To(FlushAll(sessions, order), k) == if k in order then Flush(sessions[k]) else []
    decreases |order|
  {
    if |order| != 0 {
      var n := |order| - 1;
      var x := order[n];
      assert NoDup(order[..n]);
      FlushAllTo(sessions, order[..n], k);
      ToAppend(FlushAll(sessions, order[..n]), Flush(sessions[x]), k);
      FlushShape(sessions[x]);
      ToOwn(Flush(sessions[x]), x, k);
      assert k in order <==> k in order[..n] || k == x;
      if k == x {
        assert k !in order[..n];
      }
    }
  }

  /** For every session, the set of actors it knows. */
  function SeenOf(sessions: map<int, Session>): (r: map<int, set<int>>)
    ensures r.Keys == sessions.Keys
    ensures forall k :: k in sessions ==> forall x :: x in r[k] <==> x in sessions[k].known
  {
    map k | k in sessions :: set x | x in sessions[k].known
  }

  /** Right after the send loop every session is sound relative to what it
      then knows, and the registry is unchanged. */
  lemma ClearAllSound(sessions: map<int, Session>)
    requires SessionsOk(sessions)
    ensures SessionsOk(ClearAll(sessions))
    ensures AllSound(ClearAll(sessions), SeenOf(sessions))
  {
    var before := SeenOf(sessions);
    forall k | k in sessions ensures Sound(Cleared(sessions[k]), before[k]) {
      ClearedSound(sessions[k]);
    }
  }

  /** Changing a class list that is not among `classes` leaves their total alone. */
  lemma {:induction false} TotalFrame(classes: seq<string>, actors: map<string, seq<Actor>>, t: string, list: seq<Actor>)
    requires t !in classes
    ensures Total(classes, actors[t := list]) == Total(classes, actors)
    decreases |classes|
  {
    if |classes| != 0 {
      TotalFrame(classes[..|classes| - 1], actors, t, list);
    }
  }

  /** A single emission keeps every session sound. */
  lemma EmitAllSound(sessions: map<int, Session>, a: Actor, kind: Kind, before: map<int, set<int>>)
    requires SessionsOk(sessions) && AllSound(sessions, before)
    ensures AllSound(EmitAll(sessions, a, kind), before)
  {
    forall k | k in sessions ensures Sound(EmitTo(sessions[k], a, kind), before[k]) {
      EmitSound(sessions[k], a, kind, before[k]);
    }
  }
}

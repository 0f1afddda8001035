/** The browser side of client/client.js: the `Client` object that mirrors
    the server's actors from the messages it receives, steps the game's
    frames and sends the player's controls, and the `Actor` objects of that
    mirror. Actors are values in a map keyed by id (the JavaScript object
    `this.actors`), an actor type is known by name (the keys of
    `this.actorTypes`). The game's hooks (`onInit`, `onControl`, `onRender`,
    `renderFrame` and each actor type's `create` / `update` / `destroy`
    functions) are not modelled beyond the points at which they are called. */
module Mirror {
  import opened Js
  import opened Timestep
  import Fields

  /** A JavaScript number that may be `undefined` (a property never set, or
      set from a missing argument). */
  datatype Num = Undefined | Num(value: int)

  /** One actor of a message: the header `[clas, id, x, y, mx, my]`; the
      payload handed to the type's hooks is not modelled. */
  datatype Entry = Entry(clas: string, id: int, x: int, y: int, mx: int, my: int)

  /** A mirrored actor (`new Actor(game, data)`). */
  datatype Actor = Actor(clas: string, id: int, x: Num, y: Num, mx: int, my: int)

  /** A message after `JSON.parse`, by its type letter ('s', 'f', 'e', 'i',
      'u', 'c', 'n', 'd'); `Unhandled` is any other letter. */
  datatype Message =
    | GameStart(id: int, interval: int)
    | GameFields
    | GameEnd
    | ActorsInit(entries: seq<Entry>)
    | ActorsUpdate(entries: seq<Entry>)
    | ActorCreate(entry: Entry)
    | ActorEvent(target: int)
    | ActorDestroy(target: int, x: int, y: int)
    | Unhandled

  /** `Math.floor(n / 10) - 1`: the number of 10 ms render ticks in one
      server interval, less one. Dafny's division by a positive divisor
      rounds down, as `Math.floor` does, also for negative `n`. */
  function IntervalSteps(n: int): (r: int)
    ensures 10 * (r + 1) <= n < 10 * (r + 2)
  {
    n / 10 - 1
  }

  /** The `Actor` constructor's copy of an entry's header. */
  function Made(e: Entry): (a: Actor)
    ensures a.clas == e.clas && a.id == e.id && a.mx == e.mx && a.my == e.my
    ensures a.x == Num(e.x) && a.y == Num(e.y)
  {
    Actor(e.clas, e.id, Num(e.x), Num(e.y), e.mx, e.my)
  }

  /** `Actor.prototype.update`: the position and the speed of the entry;
      the class and the id stay. */
  function Moved(a: Actor, e: Entry): (b: Actor)
    ensures b.clas == a.clas && b.id == a.id
    ensures b.x == Num(e.x) && b.y == Num(e.y) && b.mx == e.mx && b.my == e.my
  {
    a.(x := Num(e.x), y := Num(e.y), mx := e.mx, my := e.my)
  }

  /** `Actor.prototype.destroy(x, y)`: the last position of the actor. */
  function Placed(a: Actor, x: Num, y: Num): (b: Actor)
    ensures b.clas == a.clas && b.id == a.id && b.mx == a.mx && b.my == a.my
    ensures b.x == x && b.y == y
  {
    a.(x := x, y := y)
  }

  /** The position of the first entry whose type is not registered, or the
      length when every type is: the `'i'` loop throws there. */
  function FirstUnknown(types: set<string>, es: seq<Entry>): (k: nat)
    ensures k <= |es|
    ensures forall i :: 0 <= i < k ==> es[i].clas in types
    ensures k < |es| ==> es[k].clas !in types
  {
    if |es| == 0 then 0
    else if es[0].clas !in types then 0
    else 1 + FirstUnknown(types, es[1..])
  }

  /** The actors after `that.actors[a[0][1]] = new Actor(that, a)` for every
      entry of `es` in order: a later entry with the same id replaces an
      earlier one. */
  function Introduced(m: map<int, Actor>, es: seq<Entry>): map<int, Actor>
  {
    if |es| == 0 then m
    else
      var e := es[|es| - 1];
      Introduced(m, es[..|es| - 1])[e.id := Made(e)]
  }

  /** The actors after the `'u'` loop: each entry moves the actor with its
      id, if there is one, and is skipped otherwise. */
  function Refreshed(m: map<int, Actor>, es: seq<Entry>): map<int, Actor>
  {
    if |es| == 0 then m
    else
      var e := es[|es| - 1];
      var r := Refreshed(m, es[..|es| - 1]);
      if e.id in r then r[e.id := Moved(r[e.id], e)] else r
  }

  /** Every actor is stored under its own id, and its type is registered. */
  predicate Mirrored(actors: map<int, Actor>, types: set<string>) {
    forall k :: k in actors ==> actors[k].id == k && actors[k].clas in types
  }

  /** The controls sent so far never repeat the one before: the first differs
      from the initial `''`, each later one from its predecessor. */
  predicate NoRepeat(s: seq<string>) {
    && (|s| > 0 ==> s[0] != "")
    && forall i :: 0 < i < |s| ==> s[i] != s[i - 1]
  }

  /** `lastState` is the last control sent, or `''` before the first. */
  function LastSent(s: seq<string>): string {
    if |s| == 0 then "" else s[|s| - 1]
  }

  /** Sending a control that differs from the last one keeps the controls
      free of repeats, and makes it the last one. */
  lemma NoRepeatSnoc(s: seq<string>, c: string)
    requires NoRepeat(s) && c != LastSent(s)
    ensures NoRepeat(s + [c]) && LastSent(s + [c]) == c
  {
    var r := s + [c];
    forall i | 0 < i < |r| ensures r[i] != r[i - 1] {
      if i < |s| {
        assert r[i] == s[i] && r[i - 1] == s[i - 1];
      } else {
        assert r[i] == c && r[i - 1] == LastSent(s);
      }
    }
    if |s| > 0 {
      assert r[0] == s[0];
    }
  }

  /** The `'i'` loop adds exactly the entries' ids to the keys. */
  lemma {:induction false} IntroducedKeys(m: map<int, Actor>, es: seq<Entry>)
    ensures Introduced(m, es).Keys == m.Keys + set e | e in es :: e.id
  {
    if |es| > 0 {
      var init := es[..|es| - 1];
      IntroducedKeys(m, init);
      assert es == init + [es[|es| - 1]];
      assert (set e | e in es :: e.id) == (set e | e in init :: e.id) + {es[|es| - 1].id};
    }
  }

  /** Introducing entries of registered types keeps the mirror consistent. */
  lemma {:induction false} IntroducedMirrored(m: map<int, Actor>, types: set<string>, es: seq<Entry>)
    requires Mirrored(m, types)
    requires forall i :: 0 <= i < |es| ==> es[i].clas in types
    ensures Mirrored(Introduced(m, es), types)
  {
    if |es| > 0 {
      IntroducedMirrored(m, types, es[..|es| - 1]);
    }
  }

  /** The `'i'` loop leaves an id no entry has as it was. */
  lemma {:induction false} IntroducedOthers(m: map<int, Actor>, es: seq<Entry>, k: int)
    requires forall i :: 0 <= i < |es| ==> es[i].id != k
    ensures k in Introduced(m, es) <==> k in m
    ensures k in m ==> Introduced(m, es)[k] == m[k]
  {
    if |es| > 0 {
      IntroducedOthers(m, es[..|es| - 1], k);
    }
  }

  /** The `'i'` loop leaves under an id the actor made from the last entry
      with that id. */
  lemma {:induction false} IntroducedLast(m: map<int, Actor>, es: seq<Entry>, i: nat)
    requires i < |es| && forall j :: i < j < |es| ==> es[j].id != es[i].id
    ensures es[i].id in Introduced(m, es) && Introduced(m, es)[es[i].id] == Made(es[i])
  {
    if i < |es| - 1 {
      var init := es[..|es| - 1];
      assert init[i] == es[i];
      IntroducedLast(m, init, i);
    }
  }

  /** The `'u'` loop never adds or removes an actor. */
  lemma {:induction false} RefreshedKeys(m: map<int, Actor>, es: seq<Entry>)
    ensures Refreshed(m, es).Keys == m.Keys
  {
    if |es| > 0 {
      RefreshedKeys(m, es[..|es| - 1]);
    }
  }

  /** The `'u'` loop keeps every actor's class and id. */
  lemma {:induction false} RefreshedKeeps(m: map<int, Actor>, es: seq<Entry>, k: int)
    requires k in m
    ensures k in Refreshed(m, es)
    ensures Refreshed(m, es)[k].clas == m[k].clas && Refreshed(m, es)[k].id == m[k].id
  {
    if |es| > 0 {
      RefreshedKeeps(m, es[..|es| - 1], k);
    }
  }

  /** The `'u'` loop leaves an actor no entry names as it was. */
  lemma {:induction false} RefreshedOthers(m: map<int, Actor>, es: seq<Entry>, k: int)
    requires k in m && forall i :: 0 <= i < |es| ==> es[i].id != k
    ensures k in Refreshed(m, es) && Refreshed(m, es)[k] == m[k]
  {
    if |es| > 0 {
      RefreshedOthers(m, es[..|es| - 1], k);
    }
  }

  /** The `'u'` loop leaves a mirrored actor with its class and id, and with
      the position and speed of the last entry naming it. */
  lemma {:induction false} RefreshedLast(m: map<int, Actor>, es: seq<Entry>, i: nat)
    requires i < |es| && es[i].id in m && forall j :: i < j < |es| ==> es[j].id != es[i].id
    ensures var k := es[i].id;
            && k in Refreshed(m, es)
            && Refreshed(m, es)[k] == Moved(m[k], es[i])
  {
    var k := es[i].id;
    var init := es[..|es| - 1];
    if i < |es| - 1 {
      assert init[i] == es[i];
      RefreshedLast(m, init, i);
    } else {
      RefreshedKeys(m, init);
      RefreshedKeeps(m, init, k);
    }
  }

  /** The names a client object answers to: the properties its constructor
      and the `'s'` message give it, the methods of `Client.prototype`, and
      those of `Object.prototype`. */
  predicate ClientAnswers(name: string) {
    || name in {"conn", "connected", "lastState", "id", "intervalTime", "interval", "intervalSteps",
                "fpsTime", "actors", "actorTypes", "$g", "lastFrame", "lastRender",
                "connect", "quit", "update", "render", "createActorType", "send", "getTime"}
    || Fields.ObjectMember(name)
  }

  /** `'n'` as written: `that.actors[target].event(...)` throws on an id
      that is not mirrored; for a mirrored actor `Actor.prototype.event`
      reads `this.$.actor_types`, a name the client does not answer to, and
      indexing the resulting `undefined` throws. */
  function EventAsWritten(actors: map<int, Actor>, target: int): (r: Result<()>)
    ensures r == TypeError
  {
    if target !in actors then TypeError
    else if ClientAnswers("actor_types") then Ok(())
    else TypeError
  }

  /** `'n'` with the registry the rest of the client uses, `actorTypes`: it
      throws on an id that is not mirrored, and on an actor whose type is not
      registered; otherwise the type's `event` hook (every `ActorType` has
      one) is called. */
  function Event(actors: map<int, Actor>, types: set<string>, target: int): (r: Result<()>)
    ensures Mirrored(actors, types) ==> (r.Ok? <==> target in actors)
  {
    if target !in actors then TypeError
    else if actors[target].clas in types then Ok(())
    else TypeError
  }

  /** The discrepancy: the event of a mirrored actor throws as written and
      is delivered once the registry name is the one the client defines. */
  lemma EventLost(actors: map<int, Actor>, types: set<string>, target: int)
    requires Mirrored(actors, types) && target in actors
    ensures EventAsWritten(actors, target) == TypeError && Event(actors, types, target) == Ok(())
  {
  }

  /** The actors under the ids `ks`, in that order, as `destroy()` without
      arguments leaves them. */
  function Gone(m: map<int, Actor>, ks: seq<int>): (r: seq<Actor>)
    requires forall k :: k in ks ==> k in m
    ensures |r| == |ks|
  {
    if |ks| == 0 then []
    else
      var k := ks[|ks| - 1];
      assert k in ks;
      Gone(m, ks[..|ks| - 1]) + [Placed(m[k], Undefined, Undefined)]
  }

  /** `for (var i in o)` visits integer keys in ascending order: the keys
      after `o[k] = v`. */
  function Insert(s: seq<int>, k: int): (r: seq<int>)
    requires Increasing(s)
    ensures Increasing(r) && forall x :: x in r <==> x in s || x == k
  {
    if |s| == 0 then [k]
    else if k < s[0] then [k] + s
    else if k == s[0] then s
    else
      var t := Insert(s[1..], k);
      Tail(s);
      Cons(s[0], t);
      [s[0]] + t
  }

  /** The rest of an ascending sequence is ascending and above its head. */
  lemma Tail(s: seq<int>)
    requires Increasing(s) && |s| > 0
    ensures Increasing(s[1..]) && forall x :: x in s[1..] ==> s[0] < x
  {
    forall x | x in s[1..] ensures s[0] < x {
      var j :| 0 <= j < |s[1..]| && s[1..][j] == x;
      assert s[j + 1] == x;
    }
  }

  /** Putting a smaller key in front keeps a sequence ascending. */
  lemma Cons(h: int, t: seq<int>)
    requires Increasing(t) && forall x :: x in t ==> h < x
    ensures Increasing([h] + t) && forall x :: x in [h] + t <==> x == h || x in t
  {
    var r := [h] + t;
    forall j | 0 < j < |r| ensures h < r[j] {
      var y := t[j - 1];
      assert y in t;
      assert r[j] == y;
    }
    forall x ensures x in r <==> x == h || x in t {
      if x in t {
        var j :| 0 <= j < |t| && t[j] == x;
        assert r[j + 1] == x;
      }
      if x in r && x != h {
        var j :| 0 <= j < |r| && r[j] == x;
        assert t[j - 1] == x;
      }
    }
  }

  /** The keys after `delete o[k]`. */
  function Without(s: seq<int>, k: int): (r: seq<int>)
    requires Increasing(s)
    ensures Increasing(r) && forall x :: x in r <==> x in s && x != k
  {
    if |s| == 0 then []
    else
      var t := Without(s[1..], k);
      Tail(s);
      Cons(s[0], t);
      if s[0] == k then t else [s[0]] + t
  }

  /** The actors whose id is in `done` have been destroyed, the others are
      as they were. */
  ghost predicate DestroyedUpTo(m: map<int, Actor>, m0: map<int, Actor>, done: seq<int>)
    requires m.Keys == m0.Keys
  {
    forall k :: k in m ==> m[k] == if k in done then Placed(m0[k], Undefined, Undefined) else m0[k]
  }

  /** One pass of `quit`'s loop: destroying the next actor in the order. */
  lemma DestroyStep(m0: map<int, Actor>, m: map<int, Actor>, types: set<string>, order: seq<int>,
                    i: nat, sent: seq<Actor>)
    requires Increasing(order) && (forall k :: k in order <==> k in m0) && i < |order|
    requires m.Keys == m0.Keys && Mirrored(m, types) && DestroyedUpTo(m, m0, order[..i])
    ensures order[i] in m && order[i] in m0
    ensures var m' := m[order[i] := Placed(m[order[i]], Undefined, Undefined)];
            && m'.Keys == m0.Keys && Mirrored(m', types) && DestroyedUpTo(m', m0, order[..i + 1])
    ensures sent + Gone(m0, order[..i]) + [Placed(m[order[i]], Undefined, Undefined)]
            == sent + Gone(m0, order[..i + 1])
  {
    var k := order[i];
    var done := order[..i];
    assert k in order;
    assert order[..i + 1] == done + [k];
    assert k !in done by {
      IncreasingNoDup(order);
    }
    DestroyedUpToStep(m0, m, done, k);
    GoneSnoc(m0, done, k);
    var a := Placed(m[k], Undefined, Undefined);
    assert sent + Gone(m0, done) + [a] == sent + (Gone(m0, done) + [a]);
  }

  /** Destroying one more actor, not destroyed yet. */
  lemma DestroyedUpToStep(m0: map<int, Actor>, m: map<int, Actor>, done: seq<int>, k: int)
    requires m.Keys == m0.Keys && DestroyedUpTo(m, m0, done) && k in m && k !in done
    ensures m[k] == m0[k]
    ensures var m' := m[k := Placed(m[k], Undefined, Undefined)];
            m'.Keys == m0.Keys && DestroyedUpTo(m', m0, done + [k])
  {
    var m' := m[k := Placed(m[k], Undefined, Undefined)];
    forall j | j in m' ensures m'[j] == if j in done + [k] then Placed(m0[j], Undefined, Undefined) else m0[j] {
      assert j in done + [k] <==> j in done || j == k;
    }
  }

  /** `Gone` of one more id. */
  lemma GoneSnoc(m: map<int, Actor>, ks: seq<int>, k: int)
    requires (forall j :: j in ks ==> j in m) && k in m
    ensures forall j :: j in ks + [k] ==> j in m
    ensures Gone(m, ks + [k]) == Gone(m, ks) + [Placed(m[k], Undefined, Undefined)]
  {
    assert (ks + [k])[..|ks|] == ks;
  }

  class Client {
    /** `Math.round(1000 / fps)`, the milliseconds between two renders. */
    const fpsTime: int
    var lastState: string
    /** `Undefined` stands for the initial `''`. */
    var id: Num
    var intervalTime: int
    var intervalSteps: int
    /** Render timers started by `setInterval` and not yet cleared, and
        whether the one `this.interval` holds is among them. */
    var timers: nat
    var latest: bool
    var lastFrame: Num
    var lastRender: Num
    var actors: map<int, Actor>
    /** The keys of `this.actors` in the order `for (var i in ...)` visits
        them: ascending, as for every object with integer keys. */
    var order: seq<int>
    var types: set<string>
    /** How often `renderFrame` was called. */
    var frames: nat
    /** The controls `render` sent over the connection, in order. */
    var controls: seq<string>
    /** The actors as their type's `destroy` hook saw them, in order. */
    var destroyed: seq<Actor>

    ghost predicate Valid()
      reads this
    {
      && Mirrored(actors, types)
      && Increasing(order) && (forall k :: k in order <==> k in actors)
      && NoRepeat(controls) && lastState == LastSent(controls)
      && (latest ==> timers > 0)
    }

    /** `new Client(fps)`: nothing mirrored, no type, no timer, no state
        sent; `lastFrame` and `lastRender` are not set. */
    constructor (fpsTime: int)
      ensures Valid() && this.fpsTime == fpsTime
      ensures lastState == "" && id == Undefined && intervalTime == 0 && intervalSteps == 0
      ensures timers == 0 && !latest && lastFrame == Undefined && lastRender == Undefined
      ensures actors == map[] && types == {} && frames == 0 && controls == [] && destroyed == []
    {
      this.fpsTime := fpsTime;
      lastState := "";
      id := Undefined;
      intervalTime := 0;
      intervalSteps := 0;
      timers := 0;
      latest := false;
      lastFrame := Undefined;
      lastRender := Undefined;
      actors := map[];
      order := [];
      types := {};
      frames := 0;
      controls := [];
      destroyed := [];
    }

    /** `createActorType(id)`: registers (or replaces) the type `id`. */
    method CreateActorType(id: string)
      requires Valid()
      modifies this`types
      ensures Valid() && types == old(types) + {id}
    {
      types := types + {id};
    }

    /** `conn.onmessage` for a message `JSON.parse` accepted, received at
        time `now`. The result is `TypeError` when the handler throws; what
        it changed until then stays changed. */
    method OnMessage(m: Message, now: int) returns (r: Result<()>)
      requires Valid()
      modifies this`id, this`lastFrame, this`lastRender, this`intervalTime, this`intervalSteps
      modifies this`timers, this`latest, this`actors, this`order, this`destroyed
      ensures Valid()
      ensures m.GameStart? ==>
                && r == Ok(()) && id == Num(m.id) && lastFrame == Num(now) && lastRender == Num(now)
                && intervalTime == m.interval && intervalSteps == IntervalSteps(m.interval)
                && timers == old(timers) + 1 && latest && actors == old(actors)
      ensures !m.GameStart? ==>
                && id == old(id) && lastFrame == old(lastFrame) && lastRender == old(lastRender)
                && intervalTime == old(intervalTime) && intervalSteps == old(intervalSteps)
                && timers == old(timers) && latest == old(latest)
      ensures (m.GameFields? || m.GameEnd? || m.Unhandled?) ==>
                r == Ok(()) && actors == old(actors)
      ensures m.ActorsInit? ==>
                var k := FirstUnknown(types, m.entries);
                && actors == Introduced(old(actors), m.entries[..k])
                && (r.Ok? <==> k == |m.entries|)
      ensures m.ActorsUpdate? ==> r == Ok(()) && actors == Refreshed(old(actors), m.entries)
      ensures m.ActorCreate? ==>
                if m.entry.clas in types then r == Ok(()) && actors == old(actors)[m.entry.id := Made(m.entry)]
                else r == TypeError && actors == old(actors)
      ensures m.ActorEvent? ==> r == EventAsWritten(old(actors), m.target) && r == TypeError && actors == old(actors)
      ensures m.ActorDestroy? ==>
                if m.target in old(actors) then
                  && r == Ok(()) && actors == old(actors) - {m.target}
                  && destroyed == old(destroyed) + [Placed(old(actors)[m.target], Num(m.x), Num(m.y))]
                else r == TypeError && actors == old(actors)
      ensures !m.ActorDestroy? || m.target !in old(actors) ==> destroyed == old(destroyed)
    {
      r := Ok(());
      match m
      case GameStart(i, n) =>
        Begin(i, n, now);
      case GameFields =>
      case GameEnd =>
      case ActorsInit(es) =>
        r := Introduce(es);
      case ActorsUpdate(es) =>
        Refresh(es);
      case ActorCreate(e) =>
        r := Spawn(e);
      case ActorEvent(target) =>
        r := EventAsWritten(actors, target);
      case ActorDestroy(target, x, y) =>
        r := Remove(target, x, y);
      case Unhandled =>
    }

    /** `'s'`: the session id, both clocks, the interval and the frame count
        per interval are set, and a render timer is started. */
    method Begin(i: int, n: int, now: int)
      requires Valid()
      modifies this`id, this`lastFrame, this`lastRender, this`intervalTime, this`intervalSteps
      modifies this`timers, this`latest
      ensures Valid()
      ensures id == Num(i) && lastFrame == Num(now) && lastRender == Num(now)
      ensures intervalTime == n && intervalSteps == IntervalSteps(n)
      ensures timers == old(timers) + 1 && latest
    {
      id := Num(i);
      lastFrame := Num(now);
      lastRender := Num(now);
      intervalTime := n;
      intervalSteps := IntervalSteps(n);
      timers := timers + 1;
      latest := true;
    }

    /** `that.actors[e.id] = new Actor(that, e)`: the constructor throws
        when the entry's type is not registered, before the assignment. */
    method Spawn(e: Entry) returns (r: Result<()>)
      requires Valid()
      modifies this`actors, this`order
      ensures Valid()
      ensures e.clas in types ==> r == Ok(()) && actors == old(actors)[e.id := Made(e)]
      ensures e.clas !in types ==> r == TypeError && actors == old(actors) && order == old(order)
    {
      if e.clas in types {
        actors := actors[e.id := Made(e)];
        order := Insert(order, e.id);
        r := Ok(());
      } else {
        r := TypeError;
      }
    }

    /** `that.actors[target].destroy(x, y); delete that.actors[target]`:
        reading `destroy` of a missing actor throws. The type's `destroy`
        hook exists, since every mirrored actor's type is registered. */
    method Remove(target: int, x: int, y: int) returns (r: Result<()>)
      requires Valid()
      modifies this`actors, this`order, this`destroyed
      ensures Valid()
      ensures target in old(actors) ==>
                && r == Ok(()) && actors == old(actors) - {target}
                && destroyed == old(destroyed) + [Placed(old(actors)[target], Num(x), Num(y))]
      ensures target !in old(actors) ==>
                r == TypeError && actors == old(actors) && destroyed == old(destroyed)
    {
      if target in actors {
        var a := Placed(actors[target], Num(x), Num(y));
        destroyed := destroyed + [a];
        actors := actors - {target};
        order := Without(order, target);
        r := Ok(());
      } else {
        r := TypeError;
      }
    }

    /** The `'i'` loop: creates the entries' actors in order and stops at
        the first whose type is not registered. */
    method Introduce(es: seq<Entry>) returns (r: Result<()>)
      requires Valid()
      modifies this`actors, this`order
      ensures Valid()
      ensures actors == Introduced(old(actors), es[..FirstUnknown(types, es)])
      ensures r.Ok? <==> FirstUnknown(types, es) == |es|
    {
      var k := FirstUnknown(types, es);
      var i := 0;
      r := Ok(());
      while i < |es|
        invariant 0 <= i <= k
        invariant Valid() && actors == Introduced(old(actors), es[..i])
        invariant r == Ok(())
      {
        r := Spawn(es[i]);
        if r.TypeError? {
          assert es[..i + 1][..i] == es[..i];
          return;
        }
        assert es[..i + 1][..i] == es[..i];
        i := i + 1;
      }
      assert es[..i] == es;
    }

    /** The `'u'` loop: moves every mirrored actor an entry names and skips
        the entries of actors the client does not have. The type's `update`
        hook it calls exists, since every mirrored actor's type is
        registered. */
    method Refresh(es: seq<Entry>)
      requires Valid()
      modifies this`actors
      ensures Valid() && actors == Refreshed(old(actors), es)
    {
      var i := 0;
      while i < |es|
        invariant 0 <= i <= |es|
        invariant Valid() && actors == Refreshed(old(actors), es[..i])
      {
        var e := es[i];
        assert es[..i + 1][..i] == es[..i];
        if e.id in actors {
          actors := actors[e.id := Moved(actors[e.id], e)];
        }
        i := i + 1;
      }
      assert es[..i] == es;
    }

    /** `update()` at time `now`: `renderFrame` once for every 10 ms frame
        due up to `now`; nothing happens before `'s'` set `lastFrame`,
        since `undefined <= now` is false. */
    method Update(now: int)
      requires Valid()
      modifies this`lastFrame, this`frames
      ensures Valid()
      ensures old(lastFrame) == Undefined ==> lastFrame == Undefined && frames == old(frames)
      ensures old(lastFrame).Num? ==>
                var n := CatchUp(old(lastFrame).value, now, 10);
                && frames == old(frames) + n
                && lastFrame == Num(old(lastFrame).value + 10 * n) && lastFrame.value > now
    {
      if lastFrame.Num? {
        ghost var start := lastFrame.value;
        var n: nat := 0;
        while lastFrame.value <= now
          invariant lastFrame.Num? && lastFrame.value == start + 10 * n
          invariant frames == old(frames) + n
          invariant n > 0 ==> start + 10 * (n - 1) <= now
          decreases now - lastFrame.value
        {
          frames := frames + 1;
          lastFrame := Num(lastFrame.value + 10);
          n := n + 1;
        }
        CatchUpUnique(start, now, 10, n);
      }
    }

    /** `render()`, which reads the clock twice: `now` for the comparison and
        `later` for the new `lastRender`. `control` is the stringified result
        of the game's `onControl`: at most every `fpsTime` ms the control is
        sent, and only when it differs from the last one sent. `rendered`
        says whether `onRender` and the types' `render` hooks were called.
        Before `'s'` set `lastRender` the difference is `NaN` and nothing
        renders. */
    method Render(now: int, later: int, control: string) returns (rendered: bool)
      requires Valid()
      modifies this`lastRender, this`lastState, this`controls
      ensures Valid()
      ensures rendered <==> old(lastRender).Num? && now - old(lastRender).value > fpsTime
      ensures rendered ==> lastRender == Num(later) && lastState == control
      ensures !rendered ==> lastRender == old(lastRender) && lastState == old(lastState)
      ensures controls == if rendered && control != old(lastState) then old(controls) + [control]
                          else old(controls)
    {
      rendered := lastRender.Num? && now - lastRender.value > fpsTime;
      if rendered {
        lastRender := Num(later);
        if control != lastState {
          NoRepeatSnoc(controls, control);
          controls := controls + [control];
          lastState := control;
        }
      }
    }

    /** `quit()`: clears the render timer `this.interval` holds and calls
        `destroy()` without arguments on every actor, in ascending order of
        id, which leaves each actor mirrored with an undefined position. */
    method Quit()
      requires Valid()
      modifies this`timers, this`latest, this`actors, this`destroyed
      ensures Valid() && !latest
      ensures timers == if old(latest) then old(timers) - 1 else old(timers)
      ensures actors.Keys == old(actors).Keys
      ensures forall k :: k in actors ==> actors[k] == Placed(old(actors)[k], Undefined, Undefined)
      ensures destroyed == old(destroyed) + Gone(old(actors), order)
    {
      if latest {
        timers := timers - 1;
        latest := false;
      }
      DestroyEach();
    }

    /** The `for (var i in this.actors)` loop of `quit`. */
    method DestroyEach()
      requires Valid()
      modifies this`actors, this`destroyed
      ensures Valid()
      ensures actors.Keys == old(actors).Keys
      ensures forall k :: k in actors ==> actors[k] == Placed(old(actors)[k], Undefined, Undefined)
      ensures destroyed == old(destroyed) + Gone(old(actors), order)
    {
      ghost var a0 := actors;
      ghost var d0 := destroyed;
      ghost var ts := types;
      var ks := order;
      var i := 0;
      while i < |ks|
        invariant 0 <= i <= |ks|
        invariant actors.Keys == a0.Keys && Mirrored(actors, ts)
        invariant DestroyedUpTo(actors, a0, ks[..i])
        invariant destroyed == d0 + Gone(a0, ks[..i])
      {
        var k := ks[i];
        DestroyStep(a0, actors, ts, ks, i, d0);
        var a := Placed(actors[k], Undefined, Undefined);
        destroyed := destroyed + [a];
        actors := actors[k := a];
        i := i + 1;
      }
      assert ks[..i] == ks;
    }
  }
}

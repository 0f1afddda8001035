# NodeGame-Shooter: actor synchronisation, modelled in Dafny

NodeGame-Shooter is a small multiplayer game framework. Its authoritative
Node.js server (server/server.js) runs the game in fixed time steps. It keeps
one record per connected browser (a *session*, the server's `Client` object)
and one per game object (an *actor*). After every step it tells each session
what changed, as batches of INIT, CREATE, UPDATE, REMOVE and DESTROY
messages in a terse JSON dialect. The browser client (client/client.js)
mirrors those actors, steps its own frames and sends the player's controls
back only when they change.

The model covers the bookkeeping at the heart of this:

- `Sync` — `Actor.prototype.emit` for one session. It updates the session's
  known-id list with `indexOf` / `push` / `splice` (modelled with
  ECMAScript's semantics in `Js`) and its five queues.
- `Tick` and `Sweep` — the server's loops over the actor class lists, as
  functions on values: an update step, `destroyActors`, and the INIT loop of
  the `Client` constructor. They also hold the send loop that flushes and
  clears every session's queues.
- `GameServer` — the `Server` object as a class whose fields the methods
  update in place:
  - the session registry;
  - the actor registry;
  - the shared fields and their dirty flag;
  - the 18-entry log;
  - the message-length check (`Server.Accepts`).
- `GameServer` (continued) — every loop of the server is a method, proved
  against the functions of `Tick` and `Sweep`. The class invariant `Valid`
  holds on every path. It says:
  - sessions are filed by id and know no actor twice;
  - each class list has ascending ids within `actorID`;
  - no session is ever sent an update, remove or destroy for an actor it
    was not introduced to first (`Sync.Sound`).
- `Timestep` and `Clock` — the fixed-timestep loop `Game.prototype.run`,
  which catches the simulation up with the clock in steps of `interval`.
- `Codec` — the wire text:
  - the server's `toJSON`, which drops the outer brackets and unquotes keys;
  - the client's re-quoting before `JSON.parse`.
- `Fields` — JavaScript values, with the truthiness and property lookup
  the field setters rely on.
- `Mirror` — the browser `Client` as a class:
  - the dispatch of the actor messages into its `actors` map;
  - `intervalSteps`;
  - the frame loop `update`;
  - the throttled and deduplicated control sending of `render`;
  - `quit`.

The clock, the game's hooks and the network are parameters of the model:

- The current time is a `now` argument.
- What an actor class's `update` hook does is given as a function `hook`
  from actor id to an `Effect`. An `Effect` says what the hook leaves in
  `updated` and in the visibility list, and whether it destroys the actor.
- What the server writes to connections or broadcasts is appended to
  `Server.outbox`, as `Tick.Wire` values.
- What the client sends is appended to `Client.controls`.

Three behaviours of the code worth knowing:

- A new session is not sent INIT for the live actors when it joins. The
  `Client` constructor runs its INIT loop before `addClient` files the new
  session (server/server.js:212, 464-468). So that loop reaches only the
  sessions already registered, and it also emits for actors destroyed since
  the last step. The new session is introduced on the next step instead.
  `Server.AddClient` states exactly this.
- The client has no branch for a REMOVE message, so such a message falls
  through and the mirror is kept (`Mirror.Unhandled`).
- The session cap does not take effect: the check at server/server.js:70
  reads the count off the socket server object.

## Model

| member | source | states |
|---|---|---|
| Js.IndexOf | server/server.js:545 | `indexOf` is -1 exactly when the id is absent, otherwise the first position holding it |
| Js.SpliceOne | server/server.js:556 | `splice(start, 1)` removes the element at the start position, counting a negative start from the end; a start at the end removes nothing |
| Js.SpliceStart | server/server.js:556 | Where `splice(start, 1)` starts: a negative start counts from the end and is clamped at 0, a start past the end is clamped to the length; never past the end |
| Js.SplicePushed | server/server.js:551-556 | `splice(-1, 1)` right after `push(id)` removes the id just pushed |
| Js.SpliceIndexOf | server/server.js:582-583 | Splicing at the position `indexOf` found removes exactly that id and keeps the list free of duplicates |
| Fields.Truthy | server/server.js:361 | JavaScript truthiness: `undefined`, `null`, `false`, 0, `NaN` and the empty string are falsy, objects and functions truthy (stated for lookups by `Fields.ItemTruthy`) |
| Fields.Get | server/server.js:360-368 | `fields[key]` is the own property when there is one, else a built-in method of `Object.prototype` such as `toString`, else `undefined` |
| Fields.Item | server/server.js:368 | `v[item]` is the own property first (an object's item, a string's `length` or its character at an index), then an inherited built-in method, else `undefined` |
| Fields.ItemTruthy | server/server.js:368 | `v[item]` is truthy exactly when the own property is truthy (a string's `length` when it is not empty, any of its characters) or, without an own property, when a method is inherited |
| Codec.Substring | server/server.js:251 | `substring` clamps both ends to the text and is the slice between them, taken from the smaller end when they are reversed; in range it is the plain slice |
| Codec.Unquote | server/server.js:252 | The server's replacement never lengthens the text (what it does is stated by the `Unquote…` lemmas) |
| Codec.ToJSON | server/server.js:249-253 | `toJSON` is at least two characters shorter than the stringified text, and empty when that has fewer than two |
| Codec.QuotedKeyAt | server/server.js:252 | A match of `"key":` at the front has a quote, then only letters and digits, then `":` |
| Codec.ToJSONStripsBrackets | server/server.js:249-253 | `toJSON` drops exactly the first and the last character, then unquotes; a text shorter than two characters gives the empty text |
| Codec.UnquoteKey | server/server.js:252 | A quoted key of one or more letters and digits loses its quotes |
| Codec.UnquoteOtherKey | server/server.js:252 | A quoted key with any other character, or an empty key, keeps its quotes |
| Codec.UnquoteOnlyDropsQuotes | server/server.js:252 | The server's rewriting only ever deletes double quotes |
| Codec.Requote | client/client.js:91 | The client's replacement never shortens the text (what it does is stated by the `Requote…` lemmas) |
| Codec.Decode | client/client.js:91 | The text handed to `JSON.parse` is the re-quoted message inside one pair of brackets |
| Codec.RequoteByRuns | client/client.js:91 | The client's regular-expression scan quotes every maximal run of letters and digits that a colon follows and copies everything else (agrees with the run-by-run reading `RequoteRuns`) |
| Codec.RequoteNoColon | client/client.js:91 | Text without a colon reaches `JSON.parse` unchanged apart from the added brackets |
| Codec.RequoteOnlyAddsQuotes | client/client.js:91 | The client's rewriting only ever inserts double quotes |
| Codec.KeyRoundTrip | client/client.js:91 | A key the server unquoted is quoted again by the client, whatever follows it |
| Timestep.CatchUp | server/server.js:408-413 | The number of loop passes ends past `now` with the last pass due no later than `now` |
| Timestep.CatchUpUnique | server/server.js:408-413 | That count is the only one with both properties |
| Sync.NewSession | server/server.js:454-461 | A new session knows no actor and has five empty queues |
| Sync.Visible | server/server.js:547 | An actor is visible to a session when its visibility list is empty or holds the session's id (stated through `Sync.EmitKnown` and `Sync.EmitHidden`) |
| Sync.EmitTo | server/server.js:542-587 | The loop body of `emit` for one session keeps the session's id; its effect is stated by the `Emit…` lemmas below |
| Sync.Emitted | server/server.js:547-579 | `emit` changes only the actor's `updated` flag, setting it when some session was introduced to the actor |
| Sync.EmitKnown | server/server.js:542-587 | After `emit(kind)` a session knows the actor exactly when the actor is visible to it and kind is not DESTROY; no other id moves and none appears twice |
| Sync.EmitKnownIntroduceIsNoop | server/server.js:569-579 | CREATE or INIT to a visible session that knows the actor changes nothing |
| Sync.EmitIntroduces | server/server.js:569-579 | CREATE or INIT to a visible session that does not know the actor queues exactly one full message and marks the actor updated |
| Sync.EmitUpdateQueues | server/server.js:561-566 | UPDATE to a visible session queues exactly one update, after one init when the session did not know the actor |
| Sync.EmitDestroyQueues | server/server.js:550-558 | DESTROY to a visible session queues exactly one destroy, after one init when the session did not know the actor |
| Sync.EmitHidden | server/server.js:581-585 | A session that cannot see the actor gets a REMOVE exactly when it knew it, and nothing else |
| Sync.EmitFullOnlyWhenUnknown | server/server.js:542-587 | A full message is queued only for an actor the session did not know, at most one per emit, and a REMOVE only for one it knew |
| Sync.EmitSound | server/server.js:542-587 | Every emit keeps a session sound: everything it knows or has an update, remove or destroy queued for was known at the last flush or is introduced by a queued init or create |
| Tick.Apply | server/server.js:284-297 | One actor's turn, or its `destroy` (server/server.js:589-595), keeps the set of sessions and the actor's id and class |
| Tick.Survivors | server/server.js:281-298 | The survivors of a loop over a class list (stated by `Tick.Keep` and `Tick.StepSurvivors`) |
| Tick.Flush | server/server.js:302-329 | The batches one session is sent (stated by `Tick.FlushShape` and `Tick.FlushSendsEveryQueue`) |
| Tick.Keep | server/server.js:281-298 | Every survivor of a step comes from the class list and `Survives` its turn; there are no more survivors than actors |
| Tick.DestroyIdempotent | server/server.js:589-595 | `destroy` leaves the actor dead; a second call, or a call on a dead actor, changes nothing |
| Tick.DestroyForgets | server/server.js:589-595 | After the first `destroy` no session knows the actor, and each session that could see it has one DESTROY queued |
| Tick.EmitAllKnown | server/server.js:543-586 | Emitting to all sessions moves only this actor's id in or out of the known lists |
| Tick.Survives | server/server.js:284-287 | An actor is alive after its turn when it was alive and its hook neither called `destroy` nor cleared `alive` itself |
| Tick.EmissionOf | server/server.js:284-295 | What a turn emits: INIT in the INIT loop; DESTROY on the first `destroy` of a live actor; in a step, DESTROY when the hook destroys a live actor, nothing when the hook clears `alive` itself or the actor was dead, otherwise UPDATE or INIT by `updated`; always for the same actor id and class |
| Tick.StepActor | server/server.js:284-297 | After its turn an actor is alive exactly when it `Survives`; it carries the hook's visibility list and has `updated` reset after an UPDATE; a dead actor, or one whose hook cleared `alive` without `destroy`, sends nothing and every session keeps its known list |
| Tick.FoldKnown | server/server.js:280-300 | After a loop over a class list each session knows each listed actor as the case analysis `KnowsAfter` says, and every other id keeps its membership |
| Tick.StepSurvivors | server/server.js:281-298 | A class list after a step holds, in order, the `Keep` actors: alive, with the hook's visibility list and `updated` reset where the hook set it |
| Tick.FoldKeepsAll | server/server.js:332-338 | `destroyActors` and the INIT loop keep every actor in its list; after `destroyActors` none is alive |
| Tick.FoldSound | server/server.js:280-300 | A loop over a class list keeps every session sound |
| Tick.Cleared | server/server.js:307-327 | A flushed session has all five queues empty and keeps its id and known list |
| Tick.FlushShape | server/server.js:302-329 | A session receives at most five batches, all non-empty, each the whole queue of its type, in the order INIT, CREATE, UPDATE, REMOVE, DESTROY, and together its queued messages in order |
| Tick.FlushSendsEveryQueue | server/server.js:305-328 | Every non-empty queue is sent |
| Tick.ClearedSound | server/server.js:302-329 | Right after a flush a session is sound with respect to what it knows |
| Sweep.PassOk | server/server.js:280-300 | A loop over all class lists keeps the sessions and the class lists well formed and keeps their keys |
| Sweep.PassSound | server/server.js:280-300 | A loop over all class lists keeps every session sound |
| Sweep.PassLists | server/server.js:280-300 | Each class list after the loop is the result of its own loop, run on the sessions the earlier lists left |
| Sweep.StepLists | server/server.js:278-300 | After `updateActors` each class list holds, in order, exactly the actors that were alive and that their own hook neither destroyed nor killed |
| Sweep.DestroyLists | server/server.js:332-338 | After `destroyActors` every class list holds the same actors, all dead |
| Sweep.ClearAll | server/server.js:302-329 | After the send loop every session has empty queues and the same known list |
| Sweep.FlushAllTo | server/server.js:302-329 | Of everything the send loop writes, a session receives exactly the flush of its own queues |
| Sweep.ClearAllSound | server/server.js:302-329 | Right after the send loop every session is sound with respect to what it knows |
| GameServer.Recent | server/server.js:162-167 | The log holds the last 18 entries of the history, all of it when shorter |
| GameServer.AddedKeys | server/server.js:113-115 | `start` keeps the old keys of `actors` first and adds each type once |
| GameServer.Emptied | server/server.js:113-115 | `start` gives every type an empty list and leaves other keys alone |
| GameServer.RegistryRemove | server/server.js:217-223 | Dropping a session keeps the registry well formed and shortens `order` by one |
| GameServer.RegistryAdd | server/server.js:210-215 | Filing a new session under the next id keeps the registry well formed |
| GameServer.AddValid | server/server.js:210-215 | The INIT loop and the registration of the new session keep the server invariant |
| GameServer.PassValid | server/server.js:278-300 | Every loop over all class lists keeps the server invariant |
| GameServer.FlushValid | server/server.js:302-329 | The send loop keeps the server invariant, each session now measured against what it knows |
| GameServer.StartValid | server/server.js:111-118 | `start` keeps the server invariant |
| GameServer.EmitSomeAll | server/server.js:543-586 | Once `emit`'s loop has handled every session, the sessions and the actor are those of `Sync.EmitAll` and `Sync.Emitted` |
| GameServer.Server.constructor | server/server.js:41-61 | A cap of 0 takes the default (128 characters, 64 sessions); everything else starts empty |
| GameServer.Server.Accepts | server/server.js:77 | A message is handled only when it is at most `maxChars` characters long |
| GameServer.Server.Log | server/server.js:162-167 | `log` appends the time-stamped entry and keeps the log at the last 18 entries |
| GameServer.Server.AddClient | server/server.js:210-215 | The next id; MSG_GAME_START to the new session; the INIT loop over the sessions already registered; then the new, empty session filed |
| GameServer.Server.Open | server/server.js:454-468 | The next id, MSG_GAME_START to the new session and the INIT loop over the sessions already registered; the server with the new session filed would keep the invariant |
| GameServer.Server.Register | server/server.js:212-213 | The new, empty session is filed under its id at the end of `order` and counted |
| GameServer.Server.RemoveClient | server/server.js:217-223 | A registered session is dropped and the count decremented; any other id changes nothing |
| GameServer.Server.EmitActor | server/server.js:542-587 | The loop of `emit` leaves the sessions of `Sync.EmitAll` and the actor of `Sync.Emitted` |
| GameServer.Server.EmitSession | server/server.js:544-585 | The loop body for one session computes `Sync.EmitTo` and says whether `updated` was set |
| GameServer.Server.DestroyActor | server/server.js:589-595 | `destroy` on one actor, as `Tick.Apply` for destruction describes |
| GameServer.Server.Turn | server/server.js:283-296 | One actor's turn of the update loop, as `Tick.Apply` for a step describes |
| GameServer.Server.UpdateClass | server/server.js:281-298 | The update loop over one class list, as `Sweep.Visit` describes |
| GameServer.Server.DestroyClass | server/server.js:334-336 | The `destroyActors` loop over one class list |
| GameServer.Server.IntroduceClass | server/server.js:465-467 | The INIT loop over one class list |
| GameServer.Server.IntroduceAll | server/server.js:464-468 | The INIT loop over all class lists, as `Sweep.Pass` describes |
| GameServer.Server.StepAll | server/server.js:279-300 | The update loop over all class lists, with `actorCount` the sum of the new list lengths |
| GameServer.Server.StepClass | server/server.js:281-299 | One turn of the loop over the class lists: the list stepped as `Sweep.Visit` describes and its new length added to `actorCount` |
| GameServer.Server.SendQueues | server/server.js:303-329 | The send loop writes `Sweep.FlushAll` in session order and clears every session's queues |
| GameServer.Server.SendSession | server/server.js:304-328 | The send loop body writes one session's flush and clears its queues |
| GameServer.Server.FlushSession | server/server.js:305-328 | The five send-and-clear steps on one session give `Tick.Flush` and `Tick.Cleared` |
| GameServer.Server.DestroyAll | server/server.js:333-337 | The loop of `destroyActors` over all class lists |
| GameServer.Server.UpdateActors | server/server.js:278-330 | `updateActors` steps every list down to its survivors, recounts `actorCount`, sends every session its queues in session order and clears them, keeping the invariant |
| GameServer.Server.UpdateStep | server/server.js:279-300 | The update loop of `updateActors`, keeping the invariant |
| GameServer.Server.UpdateSend | server/server.js:302-329 | The send loop of `updateActors`, keeping the invariant with every session measured against what it knows |
| GameServer.Server.DestroyActors | server/server.js:332-338 | `destroyActors` destroys every actor and keeps the invariant |
| GameServer.Server.CreateActor | server/server.js:257-261 | The actor takes id `++actorID`, emits CREATE and joins the end of its class list; without such a type, or before `start` made its list, the call throws, after the id was taken (and, in the second case, after the CREATE went out) |
| GameServer.Server.CreateActorType | server/server.js:263-272 | A new type name is added once; an existing one keeps its place |
| GameServer.Server.Start | server/server.js:111-118 | Every type gets an empty class list, the clock is read and the start is logged, keeping the invariant |
| GameServer.Server.EmptyLists | server/server.js:113-115 | The loop of `start` gives the key order of `Added` and the lists of `Emptied` |
| GameServer.Server.SetField | server/server.js:342-347 | The value is stored; the flag is set unless `send` is exactly `false` |
| GameServer.Server.SetFieldItem | server/server.js:349-354 | A missing or null field throws and changes nothing; on an object the item is stored; on a primitive or an inherited method nothing is stored; the flag is set unless `send` is `false` |
| GameServer.Server.DelField | server/server.js:360-365 | A truthy field sets the flag and is deleted when it is an own property; an inherited method such as `toString` is truthy but `delete` leaves it; otherwise nothing changes |
| GameServer.Server.DelFieldItem | server/server.js:367-372 | A missing or null field throws; a truthy item sets the flag and is deleted when the field is an object; a string's `length` or character and an inherited method are truthy but not deleted; otherwise nothing changes |
| GameServer.Server.UpdateFields | server/server.js:374-382 | A true mode only sets the flag; otherwise the fields are broadcast and the flag cleared exactly when it was set |
| GameServer.Server.EmitFields | server/server.js:384-387 | The fields are broadcast and the flag cleared |
| Clock.Game.constructor | server/server.js:392-395 | The game of the server, with its interval, not running |
| Clock.Game.Run | server/server.js:404-418 | Not running: nothing changes. Running: pending fields are broadcast first, the clock is read, `CatchUp` steps run, and `_lastTime` ends past the clock, advanced by whole intervals |
| Clock.Game.Running | server/server.js:405-413 | The body of `run`, with the same step count and timing |
| Clock.Game.CatchUpSteps | server/server.js:408-413 | The while loop runs exactly `CatchUp` steps and ends with `_lastTime` past the clock |
| Clock.Game.Advance | server/server.js:409-411 | One step keeps the server invariant and only appends to what was sent |
| Clock.Game.Start | server/server.js:397-402 | The first step is due at the server's time and `run` follows at once |
| Clock.Game.Launch | server/server.js:111-119 | `start` of the server followed by `start` of its game takes at least one step |
| Mirror.IntervalSteps | client/client.js:110 | `floor(n / 10) - 1` is the number r with 10(r+1) <= n < 10(r+2) |
| Mirror.Made | client/client.js:232-239 | The `Actor` constructor copies the class, id, position and speed of the header |
| Mirror.Moved | client/client.js:244-249 | An update sets position and speed and keeps class and id |
| Mirror.Placed | client/client.js:258-260 | `destroy(x, y)` sets the final position and nothing else |
| Mirror.Introduced | client/client.js:122-126 | The map after the `'i'` loop (stated by the `Introduced…` lemmas) |
| Mirror.Refreshed | client/client.js:128-134 | The map after the `'u'` loop (stated by the `Refreshed…` lemmas) |
| Mirror.FirstUnknown | client/client.js:123-126 | The `'i'` loop gets as far as the first entry whose type is not registered |
| Mirror.IntroducedKeys | client/client.js:122-126 | The `'i'` loop adds exactly the entries' ids to the mirrored ids |
| Mirror.IntroducedLast | client/client.js:123-126 | Each id ends up with the actor made from the last entry bearing it |
| Mirror.IntroducedOthers | client/client.js:123-126 | An id no entry bears is left as it was |
| Mirror.IntroducedMirrored | client/client.js:122-126 | Entries of registered types keep every actor filed under its own id with a registered type |
| Mirror.RefreshedKeys | client/client.js:128-134 | The `'u'` loop never adds or removes a mirrored actor |
| Mirror.RefreshedKeeps | client/client.js:128-134 | The `'u'` loop keeps every actor's class and id |
| Mirror.RefreshedOthers | client/client.js:128-134 | The `'u'` loop leaves an actor no entry names as it was |
| Mirror.RefreshedLast | client/client.js:128-134 | A mirrored actor ends with its class and id and the position and speed of the last entry naming it |
| Mirror.EventAsWritten | client/client.js:254-256 | `'n'` as written always throws a `TypeError`: on an actor that is not mirrored, and otherwise because the client has no `actor_types` property |
| Mirror.Event | client/client.js:139-140 | With the corrected registry name and every mirrored actor of a registered type, `'n'` succeeds exactly for a mirrored actor |
| Mirror.EventLost | client/client.js:254-256 | On a mirrored actor, `'n'` as written throws while the corrected dispatch succeeds |
| Mirror.NoRepeatSnoc | client/client.js:182-186 | Sending a control that differs from the last one keeps the sent controls free of repeats and makes it `lastState` |
| Mirror.Insert | client/client.js:165 | The keys of `this.actors`, in the ascending order `for-in` visits integer keys, after a key is set |
| Mirror.Without | client/client.js:144 | The same order after `delete` |
| Mirror.Client.constructor | client/client.js:59-74 | Nothing mirrored, no type, no timer, `lastState` empty, `lastFrame` and `lastRender` unset |
| Mirror.Client.CreateActorType | client/client.js:203-215 | Registers the type name |
| Mirror.Client.OnMessage | client/client.js:102-145 | `'s'` sets id, clocks, interval, `intervalSteps` and starts a render timer; `'f'` and `'e'` change nothing; `'n'` always throws `TypeError`, as written, and changes nothing; `'i'`, `'u'`, `'c'` and `'d'` as below, with `TypeError` where the handler throws |
| Mirror.Client.Begin | client/client.js:105-113 | `'s'` sets the id, both frame clocks, the interval and `intervalSteps`, and starts one render timer, keeping the invariant |
| Mirror.Client.Spawn | client/client.js:136-137 | `'c'` inserts or overwrites the actor under the header's id; an unregistered type throws before the assignment |
| Mirror.Client.Remove | client/client.js:142-144 | `'d'` hands the actor with its final position to the destroy hook and deletes it; an id not mirrored throws |
| Mirror.Client.Introduce | client/client.js:122-126 | `'i'` creates the entries in order and stops, throwing, at the first unregistered type |
| Mirror.Client.Refresh | client/client.js:128-134 | `'u'` moves the mirrored actors the entries name and skips the others |
| Mirror.Client.Update | client/client.js:170-176 | `renderFrame` runs `CatchUp(lastFrame, now, 10)` times, `lastFrame` ends past `now`, and nothing runs before `'s'` |
| Mirror.Client.Render | client/client.js:178-188 | A render happens only when the first clock reading is more than `fpsTime` ms past `lastRender`, which then takes the second reading; the control is sent exactly when rendering and different from `lastState`, which then holds it |
| Mirror.Gone | client/client.js:165-167 | The actors `quit` hands to the destroy hook, one per id in key order, each with an undefined position |
| Mirror.Client.Quit | client/client.js:163-168 | The render timer is cleared and every actor destroyed without arguments, in ascending id order; none is removed |
| Mirror.Client.DestroyEach | client/client.js:165-167 | The loop of `quit` leaves every actor in place with an undefined position and passes each to the destroy hook once, in key order |

## Left out

- Transport and process plumbing is not modelled: sockets, listeners, `broadcast`, `setTimeout`, `setInterval`, signal handlers, `window` handlers. What would be written is appended to `outbox` or `controls`. Each call of `Game.Run` stands for one timer callback.
- `JSON.stringify` and `JSON.parse` are library code. The server side starts from the stringified text; the client side stops at the text handed to `JSON.parse` and takes the parsed message as a `Mirror.Message`. No round trip through them is claimed: the client's rewriting also changes `key:` inside string values.
- Floating point is not modelled: the rounding in `toMessage` and in destroy messages, the client's interpolation `a.x += a.mx / intervalSteps`, and `fpsTime = Math.round(1000 / fps)`, which is a constructor argument. Message payloads are opaque, and client coordinates are integers.
- The status screen, `bytesSend`, `startTime`, `shutdown`, `run`, and the getters `getField`, `getActors`, `getTime`, `timeDiff`, `getInfo` carry no state the core uses.
- The application hooks are not modelled beyond their effect on synchronisation. On the server these are `create`, `update`, `destroy`, `msg`, `onInit`, `onMessage`, `onUpdate`, `onRemove` and `updateClients`. On the client they are `onInit`, `onUpdate`, `onControl`, `onRender`, `renderFrame`, `interleave`, `render` and the types' `create`, `update` and `destroy`. The copying of type methods onto instances is left out too.
- The connection cap at server/server.js:70 is not modelled: it reads the count from the socket server object, not from the game server.
- The server's `Actor.prototype.event` is not modelled: it refers to the undefined `MSG_ACTORS_EVENT`.
- Whether the two files agree is not modelled. The server sends numeric message types and headers `[id, x, y, mx, my, clas]`; the client switches on letters and reads `[clas, id, x, y, mx, my]`. Each file is modelled on its own terms.
- Objects are values here, so aliasing is not modelled. Game code holding an `Actor` or a field object and changing it later is outside the model. An actor's `updated` flag changes only through `emit` and its own turn.
- Clock.Game.Run: does not state the sessions, the class lists or the outbox after the catch-up steps. Each step's effect is stated by `GameServer.Server.UpdateActors`; `Run` only promises the invariant, the step count, and that earlier output is kept.
- Clock.Game.Run: requires `interval > 0`. With a zero or negative interval the source's loop never ends.
- GameServer.Server.constructor: the caps are integers, so it covers only 0 among the falsy values (`undefined`, `NaN`) that `||` replaces by the default.
- GameServer.Server.Start: the call of the game's `start` at its end is modelled separately, in `Clock.Game.Launch`.
- Mirror.Client.Render: the interpolation loop over the actors is not modelled (floating point and hooks).
- Mirror.Insert, Mirror.Without, Mirror.Client.Quit, Mirror.Client.DestroyEach: the order of the `destroy` hook calls in `quit` is ascending id. This matches JavaScript's key order for integer keys that are array indices. For negative ids JavaScript visits keys in insertion order, which the model does not follow.
- Fields.Item: the members of an inherited method (its own `length`, `name`, `prototype`), the static members of a constructor, V8's non-standard members (`__proto__`, `__defineGetter__` and the like, the HTML methods of strings, `trimLeft`, `trimRight`) and arrays are not modelled. `GameServer.Server.SetFieldItem` stores nothing on an inherited method, which in the source would gain the property.
- GameServer.Server.CreateActor: the `create` hook (server/server.js:538) is given only as the visibility list it leaves. A `create` hook that sets `updated`, clears `alive` or calls `destroy` is not modelled; in the source the last makes the actor send DESTROY before its CREATE (server/server.js:538-539), and the dead actor still joins its class list. Here the new actor is always alive, with `updated` unset, when its CREATE goes out.
- Mirror.Client.Spawn, Mirror.Client.Introduce, Mirror.Client.OnMessage: type names are taken not to be members of `Object.prototype`. `this.actorTypes` is a plain object (client/client.js:71), so for the unregistered name `constructor` the lookup at client/client.js:241 finds `Object`, and `Object.create.call(actor, payload)` does not throw for an object or `null` payload. The source then mirrors the actor, and its type is not registered. The model throws `TypeError` for every unregistered type and stores nothing. The other inherited names (`toString` and the like) have no `create`, so they throw in the source as in the model.
- GameServer.Server.Accepts, Fields.CharIndex, Fields.Item, Fields.ItemTruthy, GameServer.Server.DelFieldItem, Codec.Substring: strings are sequences of Unicode characters, while JavaScript's `length`, string indices and `substring` count UTF-16 code units. The two differ for characters outside the Basic Multilingual Plane. For example, `"😀"` has length 2 in the source and is cut at server/server.js:77 when `maxChars` is 1, and `"😀"["1"]` is a truthy lone surrogate at server/server.js:368. The model counts one character and answers differently.
- Tick.StepSurvivors, Sweep.StepLists: hooks are modelled as acting on their own actor only. In the source a hook may create or destroy other actors during the update loop. An actor it creates into the list being walked lies past the loop bound and is dropped by `this.actors[t] = alive_actors` (server/server.js:298), although its CREATE was already queued. An actor already kept that a later hook destroys stays in the new list, dead, until the next step.
- GameServer.AddedKeys, GameServer.Server.EmptyLists, GameServer.Server.CreateActorType: type names are taken not to be array indices such as "0". JavaScript's for-in visits such keys first, in ascending order, and only then the others in insertion order.

## Findings

| source | as written | input that shows it | evidently intended | confidence | as-written member | corrected member |
|---|---|---|---|---|---|---|
| client/client.js:255 | `Actor.prototype.event` looks the type up in `this.$.actor_types`, which the client never defines, so the lookup reads a property of `undefined` | an `'n'` message `[id, type]` for a mirrored actor whose type is registered | look the type up in `this.$.actorTypes`, the registry `createActorType` fills and the other hooks use | high; not executed | Mirror.EventAsWritten, Mirror.EventLost | Mirror.Event |

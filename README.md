# blackroom, modelled in Dafny

blackroom is a multiplayer game played on a dark 30x30 grid. Each player sees only a small
flashlight cone in front of them. Stepping within two cells of another player (on both axes)
catches them. A caught player respawns on the outer ring of the room a little later. The client
shows a countdown to a reveal of all positions; the server in `server.js` never starts one.

This project models the two halves of the game logic:

- **The server** (`server.js`):
  - the `players` registry, kept in its insertion order;
  - spawn cells on the ring;
  - the catch test;
  - the `join`, `move` and `disconnect` handlers;
  - the delayed respawn callbacks that `move` schedules.

  It is module `Server`, class `Server.Session`. Messages the handlers send are appended to an
  outbox. Each message records whether it goes to one socket or to every socket but the sender's.
  Respawn callbacks wait in a queue until `FireRespawn` runs the oldest one. The random draws of
  `getRandomWallPosition` and the avatar palette are passed in as bounded parameters.

- **The client** (`public/game.js`):
  - `gameState` and the socket handlers that keep its `players` map in step with the server;
  - the keyboard handler, which turns the player or predicts its move and sends it;
  - the flashlight cone of `getVisibleBlocks`;
  - the floor cells drawn while positions are revealed;
  - the test for whether another player is drawn;
  - the reveal countdown.

  It is module `Client`, class `Client.GameState`. Moves the client sends are appended to
  `sentMoves`. Supporting modules:
  - `Flashlight`: cone geometry and the one-cell step;
  - `WallKey`: the `"x,y"` cell keys and their decoding;
  - `Countdown`: the countdown tick as a pure function;
  - `Protocol`: lemmas relating the client's prediction to the server's step.

What the code does, and so what the model does:

- There is no maze and no wall generator. The server never sends `walls`, so the client's wall
  set stays empty unless an `init` message carries one.
- The mover's `died` message and its respawn callback sit inside the catch loop, so the mover is
  told it died, and respawns, once per player it caught.
- The catch test is neither directional nor facing-aware. It is the 5x5 square around the catcher.
- One move can kill several players, because the catch loop has no early exit. The mover dies
  whenever it catches someone, because the test is symmetric.
- The server keeps no kill counter, facing or reveal timer, and never sends `revealStart`,
  `revealEnd` or `playerKilled`.
- `caught` carries the victim's id. The client reads a `kills` field from it, finds none, and
  sets its own kill count to 0.

## Model

The definitions the methods are proved against (`Server.CanCatch`, `Server.Step`,
`Server.AfterCatches`, `Server.CatchEvents`, `Server.CatchTimers`, `Countdown.Tick`,
`Flashlight.StepAhead`, `Flashlight.Cone`, `Flashlight.Neighbourhood`, `Client.Upserted`,
`Client.Sighted`, `WallKey.Key`, `WallKey.DecodeKey`) have no rows of their own: each follows the
source lines cited by the lemma rows about it.

| member | source | states |
|---|---|---|
| Server.RandomWallPosition | server.js:22-46 | for side in 0..3 and index in [0,30), the spawn cell is inside the room and on its outer ring |
| Server.EveryRingCellReachable | server.js:22-46 | every ring cell is produced by some pair of draws |
| Server.CanCatchIsSquare | server.js:49-56 | the catch test holds exactly when both distances are at most 2; the sum clause never decides |
| Server.CanCatchSymmetric | server.js:49-56 | a can catch b exactly when b can catch a; no facing is involved |
| Server.NewPlayer | server.js:61-70 | the joining player is alive, has the socket's id, sits on the ring, and has the given avatar or, if that is falsy, a palette avatar |
| Server.StepIsOneClampedMove | server.js:101-117 | a step stays in the room and changes at most one coordinate by at most 1; an unknown direction or a bump against the edge changes nothing |
| Server.AliveOthers | server.js:83-84 | the snapshot lists exactly the alive players other than the sender, without repeats |
| Server.AliveOthersInOrder | server.js:83-84 | the snapshot keeps the map's insertion order: its entries appear in the iteration order at increasing positions |
| Server.AliveOthersIgnoresSelf | server.js:124-126 | the snapshot does not depend on the mover's own (just moved) record |
| Server.WithoutMembers | server.js:191 | deleting an id removes exactly that id from the iteration order |
| Server.WithoutDistinct | server.js:191 | the iteration order stays free of repeats after a delete |
| Server.AfterCatchesKeepsFields | server.js:128-178 | the catch loop only flips `alive` flags: ids, cells and avatars stay as they were |
| Server.VictimOutcome | server.js:128-133 | a snapshot player dies exactly when the mover can catch it; later entries never revive it |
| Server.MoverOutcome | server.js:153-156 | the mover dies exactly when some snapshot player can catch it |
| Server.AfterCatchesOutcome | server.js:128-178 | the loop's result for every player: the victims in reach die, the mover dies if anyone reaches it, and everything else is unchanged, whatever the snapshot order |
| Server.MoverCaughtIffItCatches | server.js:128-157 | the players that catch the mover are exactly the players the mover catches |
| Server.VictimsOfMove | server.js:119-133 | after the commit, the mover's victims are exactly the other alive players within reach of its new cell |
| Server.MoveOutcome | server.js:97-178 | a committed move kills every other alive player in range, with no early exit; the mover stays on its new cell and dies exactly when it caught someone; players out of range are untouched |
| Server.HitEventsFor | server.js:129-158 | one snapshot entry tells the victim it died, the mover it caught the victim, and the victim it caught the mover, exactly when the mover reaches it; the mover is told it died exactly when that entry reaches it |
| Server.CatchEventsMatchVictims | server.js:128-178 | over the whole loop, a snapshot player is told it died, is told it caught the mover, and is reported to the mover as caught, each exactly when it is a victim |
| Server.CatchEventsMoverDied | server.js:153-158 | the mover is told it died exactly when it caught someone |
| Server.CatchEventsOnly | server.js:128-178 | the loop sends nothing but `caught` and `died` to single sockets, each addressed to the mover or a victim, each `caught` naming the mover or a victim |
| Server.MoveMessages | server.js:97-178 | for a committed move: every other alive player in range is told it died and that it caught the mover, the mover is told of each catch, and the mover is told it died exactly when someone was in range |
| Server.CatchTimersMatchVictims | server.js:136-176 | every victim gets a respawn callback; the mover is scheduled to respawn exactly when it caught someone; all callbacks broadcast through the mover's socket |
| Server.CatchCounts | server.js:136-176 | a move that catches n players schedules 2n callbacks: one per victim and n for the mover |
| Server.HitDiedCount | server.js:153-157 | one snapshot entry sends the mover `died` once if it reaches the mover, otherwise not at all |
| Server.DiedCount | server.js:153-158 | a move that catches n players sends the mover `died` n times |
| Server.CatchOne | server.js:129-177 | one loop iteration: both catch tests, the kills, the `caught`/`died` messages and the callbacks they schedule |
| Server.CatchLoop | server.js:128-178 | the loop over the snapshot produces the registry, messages and callbacks of the entry-by-entry specification |
| Server.Session.constructor | server.js:16 | the registry starts empty, with nothing sent and nothing scheduled |
| Server.Session.Join | server.js:61-95 | stores or replaces the player (keeping the map's order), sends `init` and the list of other alive players, and broadcasts `playerJoined` |
| Server.Session.Move | server.js:97-187 | a missing or dead player, an unknown direction or a bump against the edge changes nothing and sends nothing; otherwise the step is committed, the catch loop runs, and `playerMoved` is broadcast |
| Server.Session.FireRespawn | server.js:136-151 | the oldest callback puts its victim (if still registered) back on the ring alive, tells the victim its cell, and broadcasts `playerRespawned` through the scheduling socket |
| Server.Session.Disconnect | server.js:189-193 | removes exactly that id, leaves pending callbacks alone, and broadcasts `playerLeft` |
| WallKey.ParseNatToString | public/game.js:335 | `Number` reads back the decimal digits of any natural number |
| WallKey.ParseIntToString | public/game.js:335 | `Number` reads back any printed integer, sign included |
| WallKey.SplitWithoutComma | public/game.js:335 | `split(',')` of a comma-free string is the string alone |
| WallKey.SplitAtFirstComma | public/game.js:335 | `split(',')` cuts at the first comma and splits the rest |
| WallKey.KeyRoundTrip | public/game.js:335 | decoding the key `${x},${y}` gives back (x, y) for every pair of integers |
| WallKey.KeyInjective | public/game.js:257-258 | two cells have the same key only if they are the same cell, so `walls.has` tests the cell |
| WallKey.KeyInKeysOf | public/game.js:380-381 | a cell's key is among the keys of a set of cells exactly when the cell is in it |
| Flashlight.StepAheadStaysInGrid | public/game.js:238-254 | from inside the room, the `m` step stays inside, moves one cell along the facing or not at all, and stays put exactly at the edge being faced |
| Flashlight.ConeShape | public/game.js:276-320 | the cone contains the player's cell; every other cell is 1 or 2 ahead and at most 1 to the side |
| Flashlight.ConeCharacterization | public/game.js:276-320 | from inside the room, the cone is exactly the player's cell plus the in-room cells 1 or 2 ahead with side offset at most 1; nothing behind or level is lit |
| Flashlight.ConeInGrid | public/game.js:280-320 | from inside the room, every lit cell is inside the room |
| Flashlight.ConeSize | public/game.js:280-320 | the cone has at most 7 cells |
| Flashlight.NeighbourhoodMembers | public/game.js:352-360 | the cells drawn around a revealed player are exactly the in-room cells at most one step away on each axis |
| Countdown.TickStep | public/game.js:437-449 | while revealing or stopped, a tick changes nothing; otherwise it lowers the countdown by exactly 1 and stops the interval once the count is at most 0 |
| Countdown.PausedWhileRevealing | public/game.js:438-440 | any number of ticks during a reveal leave the countdown as it is |
| Countdown.CountsDown | public/game.js:442-447 | n ticks of a running countdown above n lower it by exactly n and leave it running |
| Countdown.StoppedStaysStopped | public/game.js:445-447 | once the interval is cleared, ticks change nothing |
| Countdown.CycleAfterRevealEnd | public/game.js:187-211 | after `revealEnd`, seven ticks bring the countdown to 0 and stop it, and later ticks change nothing |
| Client.ViewOf | public/game.js:87-92 | a stored player keeps the announced cell and avatar; a missing kill count reads as 0 |
| Client.LatestAnnounced | public/game.js:87-92 | the entry found for an id is an entry of the list with that id, and no later entry has that id; none is found only when the list never mentions the id |
| Client.UpsertedOutcome | public/game.js:85-93 | after a `players` list, each listed id holds the record of its last entry and every other id is as it was |
| Client.LatestSighting | public/game.js:175-180 | the entry found for an id is a reported entry with that id, and no later entry has that id; none is found only when no entry mentions the id |
| Client.SightedOutcome | public/game.js:174-181 | a reveal moves each known player other than the client to its last reported cell, keeps its avatar and kills, and never adds an id |
| Client.TurnFor | public/game.js:226-234 | exactly the arrow keys and w/a/s/d are turn keys; `m` is not |
| Client.GameState.constructor | public/game.js:3-17 | the initial `gameState`: no id, at (0,0), alive, facing down, no walls, countdown at 7 and not running |
| Client.GameState.OnInit | public/game.js:71-83 | takes id, cell, avatar and room size, resets kills, and replaces the walls only when a list is sent (an empty list counts) |
| Client.GameState.OnPlayers | public/game.js:85-95 | the map becomes the specification `Upserted` of the list; the client's own state is untouched |
| Client.GameState.OnPlayerJoined | public/game.js:97-105 | stores the announced player, with missing kills read as 0 |
| Client.GameState.OnPlayerMoved | public/game.js:107-112 | moves a known player and never inserts an unknown id; nothing else changes |
| Client.GameState.OnPlayerLeft | public/game.js:114-117 | deletes exactly that id |
| Client.GameState.OnPlayerRespawned | public/game.js:119-124 | moves a known player and never inserts an unknown id; the avatar in the message is ignored |
| Client.GameState.OnCaught | public/game.js:126-145 | the kill count becomes the message's `kills`, or 0 when it has none |
| Client.GameState.OnDied | public/game.js:147-152 | the client is dead; nothing else changes |
| Client.GameState.OnRespawn | public/game.js:154-161 | the client is alive at the given cell |
| Client.GameState.OnPlayerKilled | public/game.js:163-168 | updates the kill count of a known killer only; no id is inserted |
| Client.GameState.OnRevealStart | public/game.js:171-185 | enters reveal mode (pausing the countdown) and applies the reported cells as `Sighted` specifies |
| Client.GameState.OnRevealEnd | public/game.js:187-212 | leaves reveal mode, resets the countdown to 7 and restarts it |
| Client.GameState.StartRevealCountdown | public/game.js:426-453 | starts the interval and keeps the count |
| Client.GameState.Tick | public/game.js:437-449 | one firing of the interval is `Countdown.Tick` of the countdown state |
| Client.GameState.StepFrom | public/game.js:238-254 | the `m` key's `switch` computes the clamped step ahead |
| Client.GameState.KeyDown | public/game.js:215-269 | dead: nothing changes; turn keys only change the facing; `m` moves one clamped step and sends the facing exactly when the target is not a wall and differs from the current cell |
| Client.GameState.Candidate | public/game.js:281-319 | the `switch` of `getVisibleBlocks` computes the beam cell at depth i, offset j, and its bounds test |
| Client.GameState.VisibleBlocks | public/game.js:272-323 | the loops produce exactly the keys of the flashlight cone |
| Client.GameState.AddAround | public/game.js:352-360 | the two nested loops add exactly the keys of a player's in-room 3x3 neighbourhood |
| Client.GameState.AddAllAround | public/game.js:349-361 | the loop over all players adds the keys of every player's neighbourhood |
| Client.GameState.BlocksToDraw | public/game.js:345-362 | the floor cells considered for drawing (`blocksToDraw`, before wall keys are skipped) are the cone plus, while revealing, every player's neighbourhood |
| Client.GameState.IsDrawn | public/game.js:378-383 | another player is drawn exactly when its cell is in the cone or positions are revealed; the client's own id never is |
| Protocol.ClientPredictsServerStep | public/game.js:241-254 | the client's predicted step for a facing equals the server's step for the direction name it sends |
| Protocol.SentDirectionsAreKnown | public/game.js:266 | the client sends only the four direction names the server recognises, one per facing |
| Protocol.AgreedMoveIsCommitted | public/game.js:263-266 | when the client's step changes its in-room cell and the server's record of it is present, alive and on that cell, the server's `move` handler commits the move (`Server.Session.Moves`), to the same in-room cell |

## Left out

- DOM and canvas drawing are not modelled: screens, CSS classes, text, the kill-counter animation, `requestAnimationFrame` and the order in which things are painted.
- Socket delivery is not modelled. Sent messages are appended to an outbox (server) or to `sentMoves` (client), and each received message is a method call.
- Timers are not modelled. Each respawn `setTimeout` is a queued callback that `Server.Session.FireRespawn` runs, oldest first; every callback has the same 2000 ms delay, so the queue keeps their firing order. The reveal `setInterval` is `Client.GameState.Tick`, one call per second.
- `Math.random` results are bounded parameters: the side and index of `getRandomWallPosition`, and the palette index for a falsy avatar.
- Server.NewPlayer: the falsy avatar is only the empty string. The other falsy values (`undefined`, `null`) have no string counterpart.
- Server.Session.FireRespawn: the source's callback mutates the player object it captured. The model updates the registry entry with that id, or nothing if the id is gone. If the same socket joined again before the callback fired, the source would update the orphaned old object and leave the new record alone; the model updates the new record.
- Server.Session.Move: the catch loop runs on a value copy of the registry (`Server.CatchLoop`), which is then stored. The in-place mutation of shared player objects, and any aliasing between them, is not modelled.
- Client.GameState.KeyDown: takes the key already lower-cased. `toLowerCase` and `preventDefault` are not modelled.
- WallKey.DecodeKey: `Number` is modelled only on strings of the form `-?[0-9]+`. Every other string reads as NaN (`None`). JavaScript's other accepted forms (blanks, `""`, exponents, hexadecimal) are not modelled, and keys the client builds never use them.
- Client.GameState.AddAllAround: visits players in an arbitrary order, not the map's insertion order. The result is a union, so the order does not affect it.
- Client.GameState.OnCaught: takes the message's `kills` field as an optional integer. The server sends a bare id, whose `kills` is always absent.
- Avatar selection, the start button and `setupCanvas` (public/game.js:36-68) are user-interface plumbing and are not modelled. The player count display (`players.size + 1`) is not modelled either.
- Express static serving, the HTTP listener and `console.log` are not modelled.

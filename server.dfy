/** The authoritative game server: the `players` registry, spawn positions on the outer ring,
    the catch test, and the `join`, `move` and `disconnect` handlers together with the delayed
    respawn callbacks they schedule. Messages the handlers emit are appended to an outbox. */
module Server {
  import opened Grid

  /** A socket id. */
  type Id = string

  const RoomSize: int := 30
  const FlashlightRange: int := 2

  /** The avatar palette used when a joining player names none. */
  const Avatars: seq<string> := ["👤", "👻", "🧟", "🦇", "🐺", "🕷️", "💀", "👹"]

  /** The outer ring of the room, where players spawn and respawn. */
  predicate OnRing(c: Cell) {
    c.x == 0 || c.x == RoomSize - 1 || c.y == 0 || c.y == RoomSize - 1
  }

  /** `getRandomWallPosition` with its two draws of `Math.random` passed in: `side` picks the
      top, right, bottom or left edge, `index` the cell along it. */
  function RandomWallPosition(side: nat, index: nat): (c: Cell)
    requires side < 4 && index < RoomSize
    ensures InGrid(c, RoomSize) && OnRing(c)
  {
    if side == 0 then Cell(index, 0)
    else if side == 1 then Cell(RoomSize - 1, index)
    else if side == 2 then Cell(index, RoomSize - 1)
    else Cell(0, index)
  }

  /** Every cell of the ring can be drawn. */
  lemma EveryRingCellReachable(c: Cell)
    requires InGrid(c, RoomSize) && OnRing(c)
    ensures exists side: nat, index: nat :: side < 4 && index < RoomSize && RandomWallPosition(side, index) == c
  {
    if c.y == 0 {
      assert RandomWallPosition(0, c.x) == c;
    } else if c.x == RoomSize - 1 {
      assert RandomWallPosition(1, c.y) == c;
    } else if c.y == RoomSize - 1 {
      assert RandomWallPosition(2, c.x) == c;
    } else {
      assert RandomWallPosition(3, c.y) == c;
    }
  }

  /** `canCatch`: both distances within the flashlight range and their sum within twice it. */
  predicate CanCatch(catcher: Cell, target: Cell) {
    var dx := Abs(catcher.x - target.x);
    var dy := Abs(catcher.y - target.y);
    (dx <= FlashlightRange && dy <= FlashlightRange) && dx + dy <= FlashlightRange * 2
  }

  /** The catch test is a 5x5 square around the catcher: the sum clause never decides. */
  lemma CanCatchIsSquare(a: Cell, b: Cell)
    ensures CanCatch(a, b) <==> Abs(a.x - b.x) <= 2 && Abs(a.y - b.y) <= 2
  {
  }

  /** Whoever can catch can be caught: the test does not depend on who moved. */
  lemma CanCatchSymmetric(a: Cell, b: Cell)
    ensures CanCatch(a, b) <==> CanCatch(b, a)
  {
  }

  /** A player record of the `players` map. Server players have no facing direction and no
      kill counter. */
  datatype Player = Player(id: Id, x: int, y: int, avatar: string, alive: bool) {
    function Pos(): Cell {
      Cell(x, y)
    }
  }

  /** The record `join` creates: on the ring, alive, with the given avatar or, when that is
      falsy (modelled as the empty string), the palette entry `pick`. */
  function NewPlayer(id: Id, avatar: string, side: nat, index: nat, pick: nat): (p: Player)
    requires side < 4 && index < RoomSize && pick < |Avatars|
    ensures p.id == id && p.alive
    ensures InGrid(p.Pos(), RoomSize) && OnRing(p.Pos())
    ensures avatar != "" ==> p.avatar == avatar
    ensures avatar == "" ==> p.avatar in Avatars
  {
    var c := RandomWallPosition(side, index);
    Player(id, c.x, c.y, if avatar != "" then avatar else Avatars[pick], true)
  }

  /** The `move` handler's clamped step; an unrecognised direction leaves the cell as it is. */
  function Step(p: Cell, direction: string): Cell {
    if direction == "up" then Cell(p.x, Max(0, p.y - 1))
    else if direction == "down" then Cell(p.x, Min(RoomSize - 1, p.y + 1))
    else if direction == "left" then Cell(Max(0, p.x - 1), p.y)
    else if direction == "right" then Cell(Min(RoomSize - 1, p.x + 1), p.y)
    else p
  }

  /** From inside the room a step changes at most one coordinate, by at most one, and stays
      inside the room; an unknown direction and a bump against the edge change nothing. */
  lemma StepIsOneClampedMove(p: Cell, direction: string)
    requires InGrid(p, RoomSize)
    ensures InGrid(Step(p, direction), RoomSize)
    ensures Abs(Step(p, direction).x - p.x) + Abs(Step(p, direction).y - p.y) <= 1
    ensures direction !in {"up", "down", "left", "right"} ==> Step(p, direction) == p
    ensures (direction == "up" && p.y == 0) || (direction == "down" && p.y == RoomSize - 1)
         || (direction == "left" && p.x == 0) || (direction == "right" && p.x == RoomSize - 1)
         ==> Step(p, direction) == p
  {
  }

  /** A player summary as sent in `players`, `playerJoined` and `playerRespawned`. */
  datatype Summary = Summary(id: Id, x: int, y: int, avatar: string)

  /** Server-to-client messages. */
  datatype Payload =
    | Init(id: Id, x: int, y: int, avatar: string, roomSize: int)
    | PlayersList(others: seq<Summary>)
    | PlayerJoined(joined: Summary)
    | PlayerMoved(id: Id, x: int, y: int)
    | Caught(who: Id)
    | Died
    | Respawn(x: int, y: int)
    | PlayerRespawned(respawned: Summary)
    | PlayerLeft(id: Id)

  /** `socket.emit` / `io.to(id).emit` reach one socket; `socket.broadcast.emit` reaches all
      sockets but the sender's. */
  datatype Audience = ToSocket(target: Id) | AllBut(sender: Id)

  datatype Event = Event(audience: Audience, payload: Payload)

  /** A respawn callback waiting on its timer: whom it revives, whose socket broadcasts the
      news, and the avatar it reports. */
  datatype RespawnTimer = RespawnTimer(victim: Id, via: Id, avatar: string)

  predicate Distinct(s: seq<Id>) {
    forall i, j :: 0 <= i < j < |s| ==> s[i] != s[j]
  }

  lemma DistinctCons(x: Id, s: seq<Id>)
    requires Distinct(s) && x !in s
    ensures Distinct([x] + s)
  {
  }

  /** The snapshot `Array.from(players.values()).filter(p => p.id !== self && p.alive)`, in
      insertion order. */
  function AliveOthers(order: seq<Id>, players: map<Id, Player>, self: Id): (r: seq<Id>)
    ensures forall k {:trigger k in r} :: k in r <==> k in order && k != self && k in players && players[k].alive
    ensures Distinct(order) ==> Distinct(r)
  {
    if order == [] then []
    else
      var k := order[0];
      var rest := AliveOthers(order[1..], players, self);
      assert forall j :: j in order <==> j == k || j in order[1..];
      if k != self && k in players && players[k].alive then
        (if Distinct(order) then DistinctCons(k, rest); [k] + rest else [k] + rest)
      else rest
  }

  /** The snapshot does not look at the mover's own record. */
  lemma {:induction false} AliveOthersIgnoresSelf(order: seq<Id>, players: map<Id, Player>, self: Id, p: Player)
    ensures AliveOthers(order, players[self := p], self) == AliveOthers(order, players, self)
  {
    if order != [] {
      AliveOthersIgnoresSelf(order[1..], players, self, p);
    }
  }

  /** `r` is `order` with some entries left out: the entries of `r` appear in `order`, at
      increasing positions. */
  predicate Subsequence(r: seq<Id>, order: seq<Id>)
    decreases |order|
  {
    if r == [] then true
    else if order == [] then false
    else if r[0] == order[0] then Subsequence(r[1..], order[1..])
    else Subsequence(r, order[1..])
  }

  /** The snapshot keeps the map's insertion order. */
  lemma {:induction false} AliveOthersInOrder(order: seq<Id>, players: map<Id, Player>, self: Id)
    ensures Subsequence(AliveOthers(order, players, self), order)
  {
    if order != [] {
      var k := order[0];
      var rest := AliveOthers(order[1..], players, self);
      AliveOthersInOrder(order[1..], players, self);
      if !(k != self && k in players && players[k].alive) && rest != [] {
        assert rest[0] in rest;
        assert rest[0] != k;
      }
    }
  }

  function Summaries(ids: seq<Id>, players: map<Id, Player>): seq<Summary>
    requires forall k :: k in ids ==> k in players
  {
    seq(|ids|, i requires 0 <= i < |ids| =>
      Summary(ids[i], players[ids[i]].x, players[ids[i]].y, players[ids[i]].avatar))
  }

  /** `order` with every occurrence of `id` removed, as `players.delete` removes it from the
      map's iteration order. */
  function Without(order: seq<Id>, id: Id): seq<Id> {
    if order == [] then []
    else if order[0] == id then Without(order[1..], id)
    else [order[0]] + Without(order[1..], id)
  }

  /** Removing `id` keeps every other entry and only those. */
  lemma {:induction false} WithoutMembers(order: seq<Id>, id: Id, k: Id)
    ensures k in Without(order, id) <==> k in order && k != id
  {
    if order != [] {
      WithoutMembers(order[1..], id, k);
      assert k in order <==> k == order[0] || k in order[1..];
    }
  }

  /** Removing `id` keeps the order free of repetitions. */
  lemma {:induction false} WithoutDistinct(order: seq<Id>, id: Id)
    requires Distinct(order)
    ensures Distinct(Without(order, id))
  {
    if order != [] {
      WithoutDistinct(order[1..], id);
      if order[0] != id {
        WithoutMembers(order[1..], id, order[0]);
        DistinctCons(order[0], Without(order[1..], id));
      }
    }
  }

  /** `players[id]` moved to `at`: the commit at the start of a successful move. */
  function Commit(players: map<Id, Player>, id: Id, at: Cell): map<Id, Player>
    requires id in players
  {
    players[id := players[id].(x := at.x, y := at.y)]
  }

  /** The snapshot players the mover `id` can catch. */
  function Victims(players: map<Id, Player>, id: Id, snap: seq<Id>): set<Id>
    requires id in players
  {
    set k | k in snap && k in players && CanCatch(players[id].Pos(), players[k].Pos())
  }

  /** The snapshot players that can catch the mover `id`. */
  function Catchers(players: map<Id, Player>, id: Id, snap: seq<Id>): set<Id>
    requires id in players
  {
    set k | k in snap && k in players && CanCatch(players[k].Pos(), players[id].Pos())
  }

  /** One iteration of the catch loop for snapshot entry `k`: if the mover can catch `k`,
      `k` dies; then, if `k` can catch the mover, the mover dies. */
  function CatchStep(m: map<Id, Player>, id: Id, k: Id): (r: map<Id, Player>)
    requires id in m && k in m
    ensures r.Keys == m.Keys
  {
    var m1 := if CanCatch(m[id].Pos(), m[k].Pos()) then m[k := m[k].(alive := false)] else m;
    if CanCatch(m1[k].Pos(), m1[id].Pos()) then m1[id := m1[id].(alive := false)] else m1
  }

  /** The registry after the mover `id` has been checked against every entry of `snap`, in
      order. */
  function AfterCatches(players: map<Id, Player>, id: Id, snap: seq<Id>): (r: map<Id, Player>)
    requires id in players && forall k :: k in snap ==> k in players
    ensures r.Keys == players.Keys
    decreases |snap|
  {
    if snap == [] then players
    else CatchStep(AfterCatches(players, id, snap[..|snap| - 1]), id, snap[|snap| - 1])
  }

  lemma VictimsSnoc(players: map<Id, Player>, id: Id, s: seq<Id>, k: Id)
    requires id in players && k in players
    ensures Victims(players, id, s + [k])
         == Victims(players, id, s) + (if CanCatch(players[id].Pos(), players[k].Pos()) then {k} else {})
  {
  }

  lemma CatchersSnoc(players: map<Id, Player>, id: Id, s: seq<Id>, k: Id)
    requires id in players && k in players
    ensures Catchers(players, id, s + [k])
         == Catchers(players, id, s) + (if CanCatch(players[k].Pos(), players[id].Pos()) then {k} else {})
  {
  }

  /** The catch loop only ever flips `alive` flags: ids, cells and avatars stay as they were. */
  lemma {:induction false} AfterCatchesKeepsFields(players: map<Id, Player>, id: Id, snap: seq<Id>, j: Id)
    requires id in players && forall k :: k in snap ==> k in players
    requires j in players
    ensures AfterCatches(players, id, snap)[j] == players[j].(alive := AfterCatches(players, id, snap)[j].alive)
    decreases |snap|
  {
    if snap != [] {
      AfterCatchesKeepsFields(players, id, snap[..|snap| - 1], j);
    }
  }

  /** A snapshot player other than the mover dies exactly when the mover can catch it. */
  lemma {:induction false} VictimOutcome(players: map<Id, Player>, id: Id, snap: seq<Id>, j: Id)
    requires id in players && id !in snap && forall k :: k in snap ==> k in players
    requires j in players && j != id
    ensures AfterCatches(players, id, snap)[j].alive == (players[j].alive && j !in Victims(players, id, snap))
    decreases |snap|
  {
    if snap != [] {
      var s, k := snap[..|snap| - 1], snap[|snap| - 1];
      assert snap == s + [k];
      var m := AfterCatches(players, id, s);
      assert AfterCatches(players, id, snap) == CatchStep(m, id, k);
      VictimOutcome(players, id, s, j);
      AfterCatchesKeepsFields(players, id, s, id);
      AfterCatchesKeepsFields(players, id, s, k);
      VictimsSnoc(players, id, s, k);
      if j == k {
        assert CatchStep(m, id, k)[j].alive == (m[k].alive && !CanCatch(m[id].Pos(), m[k].Pos()));
      } else {
        assert CatchStep(m, id, k)[j] == m[j];
      }
    }
  }

  /** The mover dies exactly when some snapshot player can catch it. */
  lemma {:induction false} MoverOutcome(players: map<Id, Player>, id: Id, snap: seq<Id>)
    requires id in players && id !in snap && forall k :: k in snap ==> k in players
    ensures AfterCatches(players, id, snap)[id].alive == (players[id].alive && Catchers(players, id, snap) == {})
    decreases |snap|
  {
    if snap != [] {
      var s, k := snap[..|snap| - 1], snap[|snap| - 1];
      assert snap == s + [k];
      MoverOutcome(players, id, s);
      AfterCatchesKeepsFields(players, id, s, id);
      AfterCatchesKeepsFields(players, id, s, k);
      CatchersSnoc(players, id, s, k);
    }
  }

  /** The catch loop, whatever the order of the snapshot, kills exactly the snapshot players
      within the mover's reach (there is no early exit), kills the mover exactly when some
      snapshot player can reach it, and changes nothing else. */
  lemma AfterCatchesOutcome(players: map<Id, Player>, id: Id, snap: seq<Id>, j: Id)
    requires id in players && id !in snap && forall k :: k in snap ==> k in players
    requires j in players
    ensures AfterCatches(players, id, snap)[j]
         == if j == id then players[id].(alive := players[id].alive && Catchers(players, id, snap) == {})
            else players[j].(alive := players[j].alive && j !in Victims(players, id, snap))
  {
    AfterCatchesKeepsFields(players, id, snap, j);
    if j == id {
      MoverOutcome(players, id, snap);
    } else {
      VictimOutcome(players, id, snap, j);
    }
  }

  /** The messages one snapshot entry `k` produces: the mover's catch of `k`, then `k`'s catch
      of the mover. */
  function HitEvents(players: map<Id, Player>, id: Id, k: Id): seq<Event>
    requires k in players && id in players
  {
    (if CanCatch(players[id].Pos(), players[k].Pos())
     then [Event(ToSocket(id), Caught(k)), Event(ToSocket(k), Died)] else [])
    + (if CanCatch(players[k].Pos(), players[id].Pos())
       then [Event(ToSocket(id), Died), Event(ToSocket(k), Caught(id))] else [])
  }

  /** The respawn callbacks one snapshot entry `k` schedules. */
  function HitTimers(players: map<Id, Player>, id: Id, k: Id): seq<RespawnTimer>
    requires k in players && id in players
  {
    (if CanCatch(players[id].Pos(), players[k].Pos()) then [RespawnTimer(k, id, players[k].avatar)] else [])
    + (if CanCatch(players[k].Pos(), players[id].Pos()) then [RespawnTimer(id, id, players[id].avatar)] else [])
  }

  function CatchEvents(players: map<Id, Player>, id: Id, snap: seq<Id>): seq<Event>
    requires id in players && forall k :: k in snap ==> k in players
    decreases |snap|
  {
    if snap == [] then []
    else CatchEvents(players, id, snap[..|snap| - 1]) + HitEvents(players, id, snap[|snap| - 1])
  }

  function CatchTimers(players: map<Id, Player>, id: Id, snap: seq<Id>): seq<RespawnTimer>
    requires id in players && forall k :: k in snap ==> k in players
    decreases |snap|
  {
    if snap == [] then []
    else CatchTimers(players, id, snap[..|snap| - 1]) + HitTimers(players, id, snap[|snap| - 1])
  }

  /** The mover is caught exactly when it catches someone, because the catch test is
      symmetric. */
  lemma MoverCaughtIffItCatches(players: map<Id, Player>, id: Id, snap: seq<Id>)
    requires id in players
    ensures Catchers(players, id, snap) == Victims(players, id, snap)
  {
  }

  /** After the commit, the snapshot players the mover catches are exactly the other alive
      players within reach of its new cell. */
  lemma VictimsOfMove(players: map<Id, Player>, order: seq<Id>, id: Id, at: Cell, k: Id)
    requires id in players
    ensures var moved := Commit(players, id, at);
            (k in Victims(moved, id, AliveOthers(order, moved, id))
             <==> k != id && k in order && k in players && players[k].alive && CanCatch(at, players[k].Pos()))
  {
  }

  /** What a committed move of `id` to `at` does to the registry: every other player that was
      alive and in range dies (there is no early exit), the mover dies exactly when it caught
      someone, and nobody else changes. */
  lemma MoveOutcome(players: map<Id, Player>, order: seq<Id>, id: Id, at: Cell, k: Id)
    requires id in players && players[id].alive && k in players
    ensures var moved := Commit(players, id, at);
            var after := AfterCatches(moved, id, AliveOthers(order, moved, id));
            && after.Keys == players.Keys
            && (k != id ==> after[k] == players[k].(alive := players[k].alive
                                                  && !(k in order && CanCatch(at, players[k].Pos()))))
            && (k == id ==> (after[id].Pos() == at
                             && (after[id].alive <==> forall j :: j in order && j != id && j in players && players[j].alive
                                                               ==> !CanCatch(at, players[j].Pos()))))
  {
    var moved := Commit(players, id, at);
    var snap := AliveOthers(order, moved, id);
    AfterCatchesOutcome(moved, id, snap, k);
    AfterCatchesOutcome(moved, id, snap, id);
    MoverCaughtIffItCatches(moved, id, snap);
    VictimsOfMove(players, order, id, at, k);
    var victims := Victims(moved, id, snap);
    if victims != {} {
      var v :| v in victims;
      VictimsOfMove(players, order, id, at, v);
    } else {
      forall j | j in order && j != id && j in players && players[j].alive
        ensures !CanCatch(at, players[j].Pos())
      {
        VictimsOfMove(players, order, id, at, j);
      }
    }
  }

  /** The messages of a committed move of `id` to `at`: every other player that was alive and in
      range is told it died and the mover is told it caught it (and that player is told it
      caught the mover); the mover is told it died exactly when someone was in range. */
  lemma MoveMessages(players: map<Id, Player>, order: seq<Id>, id: Id, at: Cell, k: Id)
    requires id in players && k != id
    ensures var moved := Commit(players, id, at);
            var events := CatchEvents(moved, id, AliveOthers(order, moved, id));
            var inRange := k in order && k in players && players[k].alive && CanCatch(at, players[k].Pos());
            && (Event(ToSocket(k), Died) in events <==> inRange)
            && (Event(ToSocket(id), Caught(k)) in events <==> inRange)
            && (Event(ToSocket(k), Caught(id)) in events <==> inRange)
            && (Event(ToSocket(id), Died) in events <==>
                  exists j :: j in order && j != id && j in players && players[j].alive && CanCatch(at, players[j].Pos()))
  {
    var moved := Commit(players, id, at);
    var snap := AliveOthers(order, moved, id);
    CatchEventsMatchVictims(moved, id, snap, k);
    CatchEventsMoverDied(moved, id, snap);
    VictimsOfMove(players, order, id, at, k);
    var victims := Victims(moved, id, snap);
    if victims != {} {
      var v :| v in victims;
      VictimsOfMove(players, order, id, at, v);
    } else {
      forall j | j in order && j != id && j in players && players[j].alive
        ensures !CanCatch(at, players[j].Pos())
      {
        VictimsOfMove(players, order, id, at, j);
      }
    }
  }

  /** Every victim gets a respawn callback; the mover is scheduled to respawn exactly when it
      caught someone (once per victim, as `CatchCounts` states). Every callback goes out through
      the mover's socket. */
  lemma {:induction false} CatchTimersMatchVictims(players: map<Id, Player>, id: Id, snap: seq<Id>)
    requires id in players && id !in snap && forall k :: k in snap ==> k in players
    ensures forall t :: t in CatchTimers(players, id, snap) ==>
              t.via == id && (t.victim == id || t.victim in Victims(players, id, snap))
    ensures forall k :: k in Victims(players, id, snap) ==>
              RespawnTimer(k, id, players[k].avatar) in CatchTimers(players, id, snap)
    ensures Victims(players, id, snap) != {} <==>
              RespawnTimer(id, id, players[id].avatar) in CatchTimers(players, id, snap)
    decreases |snap|
  {
    if snap != [] {
      var s, k := snap[..|snap| - 1], snap[|snap| - 1];
      assert snap == s + [k];
      CatchTimersMatchVictims(players, id, s);
      VictimsSnoc(players, id, s, k);
      CanCatchSymmetric(players[id].Pos(), players[k].Pos());
    }
  }

  /** The messages of one snapshot entry `j`, seen from a player `k` other than the mover. */
  lemma HitEventsFor(players: map<Id, Player>, id: Id, j: Id, k: Id)
    requires id in players && j in players && j != id && k != id
    ensures var hit, catches := HitEvents(players, id, j), CanCatch(players[id].Pos(), players[j].Pos());
            && (Event(ToSocket(id), Caught(k)) in hit <==> j == k && catches)
            && (Event(ToSocket(k), Died) in hit <==> j == k && catches)
            && (Event(ToSocket(k), Caught(id)) in hit <==> j == k && catches)
            && (Event(ToSocket(id), Died) in hit <==> catches)
  {
    CanCatchSymmetric(players[id].Pos(), players[j].Pos());
  }

  /** Who is told what about one snapshot player `k`: `k` is told it died, the mover is told it
      caught `k`, and `k` is told it caught the mover (the test is symmetric), each exactly
      when `k` is a victim. */
  lemma {:induction false} CatchEventsMatchVictims(players: map<Id, Player>, id: Id, snap: seq<Id>, k: Id)
    requires id in players && id !in snap && k != id && forall j :: j in snap ==> j in players
    ensures var events, v := CatchEvents(players, id, snap), Victims(players, id, snap);
            && (Event(ToSocket(id), Caught(k)) in events <==> k in v)
            && (Event(ToSocket(k), Died) in events <==> k in v)
            && (Event(ToSocket(k), Caught(id)) in events <==> k in v)
    decreases |snap|
  {
    if snap != [] {
      var s, j := snap[..|snap| - 1], snap[|snap| - 1];
      assert snap == s + [j];
      CatchEventsMatchVictims(players, id, s, k);
      VictimsSnoc(players, id, s, j);
      HitEventsFor(players, id, j, k);
      assert CatchEvents(players, id, snap) == CatchEvents(players, id, s) + HitEvents(players, id, j);
    }
  }

  /** The mover is told it died exactly when it caught someone. */
  lemma {:induction false} CatchEventsMoverDied(players: map<Id, Player>, id: Id, snap: seq<Id>)
    requires id in players && id !in snap && forall j :: j in snap ==> j in players
    ensures Event(ToSocket(id), Died) in CatchEvents(players, id, snap) <==> Victims(players, id, snap) != {}
    decreases |snap|
  {
    if snap != [] {
      var s, j := snap[..|snap| - 1], snap[|snap| - 1];
      assert snap == s + [j];
      CatchEventsMoverDied(players, id, s);
      VictimsSnoc(players, id, s, j);
      HitEventsFor(players, id, j, j);
      assert CatchEvents(players, id, snap) == CatchEvents(players, id, s) + HitEvents(players, id, j);
    }
  }

  /** The catch loop sends nothing else: only `caught` and `died` messages to single sockets,
      each addressed to the mover or to one of its victims, and each `caught` naming the mover
      or a victim. */
  lemma {:induction false} CatchEventsOnly(players: map<Id, Player>, id: Id, snap: seq<Id>)
    requires id in players && forall j :: j in snap ==> j in players
    ensures var v := Victims(players, id, snap);
            forall e :: e in CatchEvents(players, id, snap) ==>
              && e.audience.ToSocket? && (e.payload.Died? || e.payload.Caught?)
              && (e.audience.target == id || e.audience.target in v)
              && (e.payload.Caught? ==> e.payload.who == id || e.payload.who in v)
    decreases |snap|
  {
    if snap != [] {
      var s, j := snap[..|snap| - 1], snap[|snap| - 1];
      assert snap == s + [j];
      CatchEventsOnly(players, id, s);
      VictimsSnoc(players, id, s, j);
      CanCatchSymmetric(players[id].Pos(), players[j].Pos());
    }
  }

  /** The mover's respawn callback sits inside the loop, so a move that catches n players
      schedules n respawns of the mover besides one respawn per victim. */
  lemma {:induction false} CatchCounts(players: map<Id, Player>, id: Id, snap: seq<Id>)
    requires id in players && id !in snap && Distinct(snap) && forall j :: j in snap ==> j in players
    ensures |CatchTimers(players, id, snap)| == 2 * |Victims(players, id, snap)|
    ensures multiset(CatchTimers(players, id, snap))[RespawnTimer(id, id, players[id].avatar)]
              == |Victims(players, id, snap)|
    decreases |snap|
  {
    if snap != [] {
      var s, k := snap[..|snap| - 1], snap[|snap| - 1];
      assert snap == s + [k];
      assert Distinct(s);
      assert k !in s by {
        forall i | 0 <= i < |s| ensures s[i] != k {
          assert s[i] == snap[i];
        }
      }
      CatchCounts(players, id, s);
      VictimsSnoc(players, id, s, k);
      CanCatchSymmetric(players[id].Pos(), players[k].Pos());
      assert k !in Victims(players, id, s);
      assert CatchTimers(players, id, snap) == CatchTimers(players, id, s) + HitTimers(players, id, k);
    }
  }

  /** One snapshot entry `j` sends the mover `died` once if `j` reaches it, else not at all. */
  lemma HitDiedCount(players: map<Id, Player>, id: Id, j: Id)
    requires id in players && j in players && j != id
    ensures multiset(HitEvents(players, id, j))[Event(ToSocket(id), Died)]
              == if CanCatch(players[j].Pos(), players[id].Pos()) then 1 else 0
  {
  }

  /** The mover's `died` message sits inside the loop, so a move that catches n players tells
      the mover n times that it died. */
  lemma {:induction false} DiedCount(players: map<Id, Player>, id: Id, snap: seq<Id>)
    requires id in players && id !in snap && Distinct(snap) && forall j :: j in snap ==> j in players
    ensures multiset(CatchEvents(players, id, snap))[Event(ToSocket(id), Died)]
              == |Victims(players, id, snap)|
    decreases |snap|
  {
    if snap != [] {
      var s, k := snap[..|snap| - 1], snap[|snap| - 1];
      assert snap == s + [k];
      assert Distinct(s);
      assert k !in s by {
        forall i | 0 <= i < |s| ensures s[i] != k {
          assert s[i] == snap[i];
        }
      }
      DiedCount(players, id, s);
      VictimsSnoc(players, id, s, k);
      CanCatchSymmetric(players[id].Pos(), players[k].Pos());
      HitDiedCount(players, id, k);
      assert k !in Victims(players, id, s);
      var died := Event(ToSocket(id), Died);
      assert CatchEvents(players, id, snap) == CatchEvents(players, id, s) + HitEvents(players, id, k);
      assert multiset(CatchEvents(players, id, snap))[died]
          == multiset(CatchEvents(players, id, s))[died] + multiset(HitEvents(players, id, k))[died];
    }
  }

  lemma CatchSnoc(players: map<Id, Player>, id: Id, s: seq<Id>, k: Id)
    requires id in players && k in players && forall j :: j in s ==> j in players
    ensures AfterCatches(players, id, s + [k]) == CatchStep(AfterCatches(players, id, s), id, k)
    ensures CatchEvents(players, id, s + [k]) == CatchEvents(players, id, s) + HitEvents(players, id, k)
    ensures CatchTimers(players, id, s + [k]) == CatchTimers(players, id, s) + HitTimers(players, id, k)
  {
    assert (s + [k])[..|s|] == s;
  }

  /** The entry-wise messages and callbacks depend only on cells and avatars, which the catch
      loop leaves alone. */
  lemma HitsIgnoreAlive(players: map<Id, Player>, m: map<Id, Player>, id: Id, k: Id)
    requires id in players && k in players && id in m && k in m
    requires m[id] == players[id].(alive := m[id].alive) && m[k] == players[k].(alive := m[k].alive)
    ensures HitEvents(m, id, k) == HitEvents(players, id, k)
    ensures HitTimers(m, id, k) == HitTimers(players, id, k)
  {
  }

  /** One iteration of the catch loop on the current registry `m`. */
  method CatchOne(m: map<Id, Player>, id: Id, k: Id)
    returns (r: map<Id, Player>, events: seq<Event>, timers: seq<RespawnTimer>)
    requires id in m && k in m && k != id
    ensures r == CatchStep(m, id, k)
    ensures events == HitEvents(m, id, k)
    ensures timers == HitTimers(m, id, k)
  {
    r, events, timers := m, [], [];
    var other := r[k];
    if CanCatch(r[id].Pos(), other.Pos()) {
      r := r[k := other.(alive := false)];
      events := events + [Event(ToSocket(id), Caught(k)), Event(ToSocket(k), Died)];
      timers := timers + [RespawnTimer(k, id, other.avatar)];
    }
    if CanCatch(other.Pos(), r[id].Pos()) {
      var mover := r[id];
      r := r[id := mover.(alive := false)];
      events := events + [Event(ToSocket(id), Died), Event(ToSocket(k), Caught(id))];
      timers := timers + [RespawnTimer(id, id, mover.avatar)];
    }
  }

  /** The catch loop of the `move` handler, run on the registry after the mover `id` has been
      committed to its new cell: each snapshot entry is tested in both directions, in order,
      and victims are marked dead as they are found. */
  method CatchLoop(players: map<Id, Player>, id: Id, snapshot: seq<Id>)
    returns (after: map<Id, Player>, events: seq<Event>, timers: seq<RespawnTimer>)
    requires id in players && id !in snapshot && forall k :: k in snapshot ==> k in players
    ensures after == AfterCatches(players, id, snapshot)
    ensures events == CatchEvents(players, id, snapshot)
    ensures timers == CatchTimers(players, id, snapshot)
  {
    after, events, timers := players, [], [];
    var i := 0;
    assert snapshot[..0] == [];
    while i < |snapshot|
      invariant 0 <= i <= |snapshot|
      invariant after == AfterCatches(players, id, snapshot[..i])
      invariant events == CatchEvents(players, id, snapshot[..i])
      invariant timers == CatchTimers(players, id, snapshot[..i])
    {
      var k := snapshot[i];
      assert snapshot[..i + 1] == snapshot[..i] + [k];
      CatchSnoc(players, id, snapshot[..i], k);
      AfterCatchesKeepsFields(players, id, snapshot[..i], k);
      AfterCatchesKeepsFields(players, id, snapshot[..i], id);
      HitsIgnoreAlive(players, after, id, k);
      var next, hitEvents, hitTimers := CatchOne(after, id, k);
      after, events, timers := next, events + hitEvents, timers + hitTimers;
      i := i + 1;
    }
    assert snapshot[..|snapshot|] == snapshot;
  }

  /** The process-wide server state: the `players` map (with its insertion order, which is
      the order every iteration over it follows), the messages emitted so far, and the respawn
      callbacks whose timers have not fired yet, oldest first. */
  class Session {
    var players: map<Id, Player>
    var order: seq<Id>
    var outbox: seq<Event>
    var pending: seq<RespawnTimer>

    ghost predicate Valid()
      reads this
    {
      && Distinct(order)
      && (forall k :: k in order <==> k in players)
      && (forall k :: k in players ==> players[k].id == k)
    }

    constructor ()
      ensures Valid()
      ensures players == map[] && order == [] && outbox == [] && pending == []
    {
      players, order, outbox, pending := map[], [], [], [];
    }

    /** The `join` handler: store a fresh player on the ring, send it `init` and the list of
        other alive players, and announce it to everyone else. */
    method Join(id: Id, avatar: string, side: nat, index: nat, pick: nat)
      requires Valid()
      requires side < 4 && index < RoomSize && pick < |Avatars|
      modifies this
      ensures Valid()
      ensures players == old(players)[id := NewPlayer(id, avatar, side, index, pick)]
      ensures order == if id in old(players) then old(order) else old(order) + [id]
      ensures var p := players[id];
              outbox == old(outbox)
                + [Event(ToSocket(id), Init(id, p.x, p.y, p.avatar, RoomSize)),
                   Event(ToSocket(id), PlayersList(Summaries(AliveOthers(order, players, id), players))),
                   Event(AllBut(id), PlayerJoined(Summary(id, p.x, p.y, p.avatar)))]
      ensures pending == old(pending)
    {
      var position := RandomWallPosition(side, index);
      var player := Player(id, position.x, position.y, if avatar != "" then avatar else Avatars[pick], true);
      if id !in players {
        order := order + [id];
      }
      players := players[id := player];
      var others := Summaries(AliveOthers(order, players, id), players);
      outbox := outbox
        + [Event(ToSocket(id), Init(id, player.x, player.y, player.avatar, RoomSize)),
           Event(ToSocket(id), PlayersList(others)),
           Event(AllBut(id), PlayerJoined(Summary(id, player.x, player.y, player.avatar)))];
    }

    /** The `move` handler commits a move only for an alive player whose step changes its
        cell. */
    static predicate Moves(players: map<Id, Player>, id: Id, direction: string) {
      id in players && players[id].alive && Step(players[id].Pos(), direction) != players[id].Pos()
    }

    /** The `move` handler. A missing or dead player, an unknown direction and a bump against
        the edge change nothing and emit nothing. Otherwise the step is committed, the mover is
        checked against every other player alive at that moment, and the move is broadcast
        (also when the mover died in it). */
    method Move(id: Id, direction: string)
      requires Valid()
      modifies this
      ensures Valid()
      ensures order == old(order)
      ensures !Moves(old(players), id, direction) ==>
                players == old(players) && outbox == old(outbox) && pending == old(pending)
      ensures Moves(old(players), id, direction) ==>
                var at := Step(old(players)[id].Pos(), direction);
                var moved := Commit(old(players), id, at);
                var snap := AliveOthers(old(order), moved, id);
                && players == AfterCatches(moved, id, snap)
                && outbox == old(outbox) + CatchEvents(moved, id, snap)
                                         + [Event(AllBut(id), PlayerMoved(id, at.x, at.y))]
                && pending == old(pending) + CatchTimers(moved, id, snap)
    {
      if id !in players || !players[id].alive {
        return;
      }
      var player := players[id];
      var next := Step(player.Pos(), direction);
      if next != player.Pos() {
        players := players[id := player.(x := next.x, y := next.y)];
        var snapshot := AliveOthers(order, players, id);
        var after, events, timers := CatchLoop(players, id, snapshot);
        forall j | j in after ensures after[j].id == j {
          AfterCatchesOutcome(players, id, snapshot, j);
        }
        AfterCatchesOutcome(players, id, snapshot, id);
        assert after[id].Pos() == next;
        players := after;
        outbox := outbox + events + [Event(AllBut(id), PlayerMoved(id, players[id].x, players[id].y))];
        pending := pending + timers;
      }
    }

    /** The oldest pending respawn callback fires (all use the same delay, so they fire in the
        order they were scheduled): the victim, if still registered, is put back on the ring
        alive; the victim is told its new cell and the others reached by the scheduling socket's
        broadcast are told of the respawn. */
    method FireRespawn(side: nat, index: nat)
      requires Valid()
      requires side < 4 && index < RoomSize
      modifies this
      ensures Valid()
      ensures order == old(order)
      ensures old(pending) == [] ==>
                players == old(players) && outbox == old(outbox) && pending == old(pending)
      ensures old(pending) != [] ==>
                var t := old(pending)[0];
                var c := RandomWallPosition(side, index);
                && pending == old(pending)[1..]
                && players == (if t.victim in old(players)
                               then old(players)[t.victim := old(players)[t.victim].(x := c.x, y := c.y, alive := true)]
                               else old(players))
                && outbox == old(outbox)
                     + [Event(ToSocket(t.victim), Respawn(c.x, c.y)),
                        Event(AllBut(t.via), PlayerRespawned(Summary(t.victim, c.x, c.y, t.avatar)))]
      ensures old(pending) != [] && old(pending)[0].victim in players ==>
                players[old(pending)[0].victim].alive && OnRing(players[old(pending)[0].victim].Pos())
    {
      if pending == [] {
        return;
      }
      var t := pending[0];
      pending := pending[1..];
      var position := RandomWallPosition(side, index);
      if t.victim in players {
        players := players[t.victim := players[t.victim].(x := position.x, y := position.y, alive := true)];
      }
      outbox := outbox
        + [Event(ToSocket(t.victim), Respawn(position.x, position.y)),
           Event(AllBut(t.via), PlayerRespawned(Summary(t.victim, position.x, position.y, t.avatar)))];
    }

    /** The `disconnect` handler: forget the player and tell everyone else. Pending respawn
        callbacks stay scheduled. */
    method Disconnect(id: Id)
      requires Valid()
      modifies this
      ensures Valid()
      ensures players == old(players) - {id}
      ensures order == Without(old(order), id)
      ensures id !in players && id !in order
      ensures outbox == old(outbox) + [Event(AllBut(id), PlayerLeft(id))]
      ensures pending == old(pending)
    {
      WithoutDistinct(order, id);
      forall k ensures k in Without(order, id) <==> k in order && k != id {
        WithoutMembers(order, id, k);
      }
      players := players - {id};
      order := Without(order, id);
      outbox := outbox + [Event(AllBut(id), PlayerLeft(id))];
    }
  }
}

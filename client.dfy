/** The browser client: `gameState` and the handlers that keep it in step with the server, the
    keyboard handler that turns the player and predicts its moves, the flashlight cone it
    draws, and the reveal countdown. Moves the client emits are appended to `sentMoves`. */
module Client {
  import opened Wrappers
  import opened Grid
  import opened WallKey
  import opened Flashlight
  import Countdown

  /** A socket id. */
  type Id = string

  /** What the client keeps about another player. */
  datatype PlayerView = PlayerView(x: int, y: int, avatar: string, kills: int)

  /** An entry of the `players` list or a `playerJoined` payload; `kills` may be absent. */
  datatype Announced = Announced(id: Id, x: int, y: int, avatar: string, kills: Option<int>)

  /** An entry of the `players` list of a `revealStart` payload. */
  datatype Sighting = Sighting(id: Id, x: int, y: int)

  /** The record stored for an announced player: an absent kill count reads as zero. */
  function ViewOf(a: Announced): (v: PlayerView)
    ensures v.x == a.x && v.y == a.y && v.avatar == a.avatar
    ensures a.kills.None? ==> v.kills == 0
    ensures a.kills.Some? ==> v.kills == a.kills.value
  {
    PlayerView(a.x, a.y, a.avatar, a.kills.GetOr(0))
  }

  /** The last entry of `list` about `k`. */
  function LatestAnnounced(list: seq<Announced>, k: Id): (r: Option<Announced>)
    ensures r.Some? ==> r.value in list && r.value.id == k
    ensures r.Some? ==> exists i :: 0 <= i < |list| && list[i] == r.value
                          && forall j :: i < j < |list| ==> list[j].id != k
    ensures r.None? ==> forall a :: a in list ==> a.id != k
    decreases |list|
  {
    if list == [] then None
    else if list[|list| - 1].id == k then Some(list[|list| - 1])
    else
      var r := LatestAnnounced(list[..|list| - 1], k);
      assert forall a :: a in list ==> a in list[..|list| - 1] || a == list[|list| - 1];
      r
  }

  /** `players` after `map.set` of every entry of `list`, in order. */
  function Upserted(players: map<Id, PlayerView>, list: seq<Announced>): map<Id, PlayerView>
    decreases |list|
  {
    if list == [] then players
    else
      var a := list[|list| - 1];
      Upserted(players, list[..|list| - 1])[a.id := ViewOf(a)]
  }

  /** After a `players` list, every listed id is known with the record of its last entry, and
      every other id is as it was. */
  lemma {:induction false} UpsertedOutcome(players: map<Id, PlayerView>, list: seq<Announced>, k: Id)
    ensures k in Upserted(players, list) <==> k in players || LatestAnnounced(list, k).Some?
    ensures k in Upserted(players, list) ==>
              Upserted(players, list)[k]
                == if LatestAnnounced(list, k).Some? then ViewOf(LatestAnnounced(list, k).value) else players[k]
    decreases |list|
  {
    if list != [] {
      UpsertedOutcome(players, list[..|list| - 1], k);
    }
  }

  /** The last entry of `seen` about `k`. */
  function LatestSighting(seen: seq<Sighting>, k: Id): (r: Option<Sighting>)
    ensures r.Some? ==> r.value in seen && r.value.id == k
    ensures r.Some? ==> exists i :: 0 <= i < |seen| && seen[i] == r.value
                          && forall j :: i < j < |seen| ==> seen[j].id != k
    ensures r.None? ==> forall s :: s in seen ==> s.id != k
    decreases |seen|
  {
    if seen == [] then None
    else if seen[|seen| - 1].id == k then Some(seen[|seen| - 1])
    else
      var r := LatestSighting(seen[..|seen| - 1], k);
      assert forall s :: s in seen ==> s in seen[..|seen| - 1] || s == seen[|seen| - 1];
      r
  }

  /** `players` after the reveal positions in `seen`, skipping the client's own id and ids it
      does not know. */
  function Sighted(players: map<Id, PlayerView>, me: Option<Id>, seen: seq<Sighting>): (r: map<Id, PlayerView>)
    ensures r.Keys == players.Keys
    decreases |seen|
  {
    if seen == [] then players
    else
      var m := Sighted(players, me, seen[..|seen| - 1]);
      var s := seen[|seen| - 1];
      if Some(s.id) != me && s.id in m then m[s.id := m[s.id].(x := s.x, y := s.y)] else m
  }

  /** A reveal moves each known player other than the client to its last reported cell and
      keeps its avatar and kill count; the client's own entry, if any, is left alone. */
  lemma {:induction false} SightedOutcome(players: map<Id, PlayerView>, me: Option<Id>, seen: seq<Sighting>, k: Id)
    requires k in players
    ensures Sighted(players, me, seen)[k]
         == if Some(k) != me && LatestSighting(seen, k).Some?
            then players[k].(x := LatestSighting(seen, k).value.x, y := LatestSighting(seen, k).value.y)
            else players[k]
    decreases |seen|
  {
    if seen != [] {
      SightedOutcome(players, me, seen[..|seen| - 1], k);
    }
  }

  /** The facing a turn key selects; `key` is already lower-cased. */
  function TurnFor(key: string): (r: Option<Facing>)
    ensures r.Some? <==> key in {"arrowup", "w", "arrowdown", "s", "arrowleft", "a", "arrowright", "d"}
    ensures key == "m" ==> r.None?
  {
    if key == "arrowup" || key == "w" then Some(Up)
    else if key == "arrowdown" || key == "s" then Some(Down)
    else if key == "arrowleft" || key == "a" then Some(Left)
    else if key == "arrowright" || key == "d" then Some(Right)
    else None
  }

  /** The 3x3 neighbourhood of `p`, cut to the grid, up to (excluding) offset `dx`, `dy` in the
      order the nested loops of the reveal drawing visit it. */
  function AroundUpTo(p: Cell, size: int, dx: int, dy: int): set<Cell> {
    set x: int, y: int | p.x - 1 <= x <= p.x + 1 && p.y - 1 <= y <= p.y + 1
                         && (x < p.x + dx || (x == p.x + dx && y < p.y + dy)) && InGrid(Cell(x, y), size)
      :: Cell(x, y)
  }

  lemma AroundUpToNext(p: Cell, size: int, dx: int, dy: int)
    requires -1 <= dx <= 1 && -1 <= dy <= 1
    ensures AroundUpTo(p, size, dx, dy + 1)
         == AroundUpTo(p, size, dx, dy)
            + (if InGrid(Cell(p.x + dx, p.y + dy), size) then {Cell(p.x + dx, p.y + dy)} else {})
  {
  }

  lemma AroundUpToRow(p: Cell, size: int, dx: int)
    ensures AroundUpTo(p, size, dx, 2) == AroundUpTo(p, size, dx + 1, -1)
  {
  }

  lemma AroundUpToEnds(p: Cell, size: int)
    ensures AroundUpTo(p, size, -1, -1) == {}
    ensures AroundUpTo(p, size, 2, -1) == Neighbourhood(p, size)
  {
  }

  /** The cells drawn around the players `ids` of `players` while positions are revealed. */
  function Around(players: map<Id, PlayerView>, ids: set<Id>, size: int): set<Cell>
    requires ids <= players.Keys
  {
    set k, c | k in ids && c in Neighbourhood(Cell(players[k].x, players[k].y), size) :: c
  }

  lemma AroundAddOne(players: map<Id, PlayerView>, ids: set<Id>, k: Id, size: int)
    requires ids <= players.Keys && k in players
    ensures Around(players, ids + {k}, size)
         == Around(players, ids, size) + Neighbourhood(Cell(players[k].x, players[k].y), size)
  {
  }

  lemma KeysOfUnion(a: set<Cell>, b: set<Cell>)
    ensures KeysOf(a + b) == KeysOf(a) + KeysOf(b)
  {
  }

  lemma KeysOfAdd(cells: set<Cell>, c: Cell)
    ensures KeysOf(cells + {c}) == KeysOf(cells) + {Key(c.x, c.y)}
  {
  }

  /** One pass of the innermost loop of `getVisibleBlocks`. */
  lemma ConeStep(visible: set<string>, o: Cell, d: Facing, size: int, i: int, j: int)
    requires 1 <= i <= FlashlightRange && -1 <= j <= 1
    requires visible == KeysOf({o} + Swept(o, d, size, i, j))
    ensures var c := Beam(o, d, i, j);
            (if Clipped(c, d, size) then visible + {Key(c.x, c.y)} else visible)
              == KeysOf({o} + Swept(o, d, size, i, j + 1))
  {
    SweptNext(o, d, size, i, j);
    var c := Beam(o, d, i, j);
    if Clipped(c, d, size) {
      assert {o} + Swept(o, d, size, i, j + 1) == ({o} + Swept(o, d, size, i, j)) + {c};
      KeysOfAdd({o} + Swept(o, d, size, i, j), c);
    }
  }

  /** One pass of the innermost loop of the reveal drawing. */
  lemma AroundStep(r: set<string>, blocks: set<string>, p: Cell, size: int, dx: int, dy: int)
    requires -1 <= dx <= 1 && -1 <= dy <= 1
    requires r == blocks + KeysOf(AroundUpTo(p, size, dx, dy))
    ensures var x, y := p.x + dx, p.y + dy;
            (if x >= 0 && x < size && y >= 0 && y < size then r + {Key(x, y)} else r)
              == blocks + KeysOf(AroundUpTo(p, size, dx, dy + 1))
  {
    AroundUpToNext(p, size, dx, dy);
    var c := Cell(p.x + dx, p.y + dy);
    if InGrid(c, size) {
      KeysOfAdd(AroundUpTo(p, size, dx, dy), c);
    }
  }

  lemma MoveToDone<T>(all: set<T>, todo: set<T>, x: T)
    requires x in todo && todo <= all
    ensures all - (todo - {x}) == (all - todo) + {x}
  {
  }

  /** `new Set(list)`. */
  function Elements(list: seq<string>): set<string> {
    set w | w in list
  }

  /** The client's own part of `gameState`, everything but the `players` map. */
  datatype Own = Own(myId: Option<Id>, myX: int, myY: int, myAvatar: string, roomSize: int,
                     walls: set<string>, alive: bool, direction: Facing, kills: int,
                     timer: Countdown.Timer, sentMoves: seq<string>)

  /** `gameState`, with the countdown interval handle reduced to whether it is set. */
  class GameState {
    var myId: Option<Id>
    var myX: int
    var myY: int
    var myAvatar: string
    var roomSize: int
    var players: map<Id, PlayerView>
    var walls: set<string>
    var alive: bool
    var direction: Facing
    var kills: int
    var isRevealing: bool
    var revealCountdown: int
    var countdownActive: bool
    var sentMoves: seq<string>

    /** The reveal countdown state. */
    function Timer(): Countdown.Timer
      reads this
    {
      Countdown.Timer(isRevealing, revealCountdown, countdownActive)
    }

    function Mine(): Own
      reads this
    {
      Own(myId, myX, myY, myAvatar, roomSize, walls, alive, direction, kills, Timer(), sentMoves)
    }

    /** The state before `init`: no id yet, at the origin, alive, facing down, the countdown at
        seven and not running. */
    constructor ()
      ensures Mine() == Own(None, 0, 0, "👤", 30, {}, true, Down, 0,
                            Countdown.Timer(false, Countdown.RevealPeriod, false), [])
      ensures players == map[]
    {
      myId, myX, myY, myAvatar, roomSize := None, 0, 0, "👤", 30;
      players, walls, alive, direction, kills := map[], {}, true, Down, 0;
      isRevealing, revealCountdown, countdownActive := false, Countdown.RevealPeriod, false;
      sentMoves := [];
    }

    /** `init`: take the id, cell, avatar and room size; reset the kill count; replace the
        walls only when the message carries a list (an empty list counts). */
    method OnInit(id: Id, x: int, y: int, avatar: string, size: int, wallList: Option<seq<string>>)
      modifies this
      ensures players == old(players)
      ensures Mine() == Own(Some(id), x, y, avatar, size,
                            if wallList.Some? then Elements(wallList.value) else old(walls),
                            old(alive), old(direction), 0, old(Timer()), old(sentMoves))
    {
      myId, myX, myY, myAvatar, roomSize := Some(id), x, y, avatar, size;
      kills := 0;
      if wallList.Some? {
        walls := Elements(wallList.value);
      }
    }

    /** `players`: store every listed player, in order. */
    method OnPlayers(list: seq<Announced>)
      modifies this
      ensures players == Upserted(old(players), list)
      ensures Mine() == old(Mine())
    {
      var i := 0;
      while i < |list|
        invariant 0 <= i <= |list|
        invariant players == Upserted(old(players), list[..i])
        invariant Mine() == old(Mine())
      {
        var p := list[i];
        assert list[..i + 1][..i] == list[..i];
        players := players[p.id := PlayerView(p.x, p.y, p.avatar, p.kills.GetOr(0))];
        i := i + 1;
      }
      assert list[..|list|] == list;
    }

    /** `playerJoined`: store the player, with an absent kill count read as zero. */
    method OnPlayerJoined(p: Announced)
      modifies this
      ensures players == old(players)[p.id := ViewOf(p)]
      ensures Mine() == old(Mine())
    {
      players := players[p.id := PlayerView(p.x, p.y, p.avatar, p.kills.GetOr(0))];
    }

    /** `playerMoved`: move a known player; an unknown id is ignored. */
    method OnPlayerMoved(id: Id, x: int, y: int)
      modifies this
      ensures players.Keys == old(players).Keys
      ensures id in players ==> players[id] == old(players)[id].(x := x, y := y)
      ensures forall k :: k in players && k != id ==> players[k] == old(players)[k]
      ensures Mine() == old(Mine())
    {
      if id in players {
        players := players[id := players[id].(x := x, y := y)];
      }
    }

    /** `playerLeft`: forget the player. */
    method OnPlayerLeft(id: Id)
      modifies this
      ensures players == old(players) - {id}
      ensures Mine() == old(Mine())
    {
      players := players - {id};
    }

    /** `playerRespawned`: move a known player to its respawn cell; an unknown id is ignored, and
        so is the avatar the message carries. */
    method OnPlayerRespawned(id: Id, x: int, y: int, avatar: string)
      modifies this
      ensures players.Keys == old(players).Keys
      ensures id in players ==> players[id] == old(players)[id].(x := x, y := y)
      ensures forall k :: k in players && k != id ==> players[k] == old(players)[k]
      ensures Mine() == old(Mine())
    {
      if id in players {
        players := players[id := players[id].(x := x, y := y)];
      }
    }

    /** `caught`: the kill count becomes the `kills` field of the message, or zero when it has
        none. */
    method OnCaught(reported: Option<int>)
      modifies this
      ensures players == old(players)
      ensures Mine() == old(Mine()).(kills := reported.GetOr(0))
      ensures reported.None? ==> kills == 0
    {
      kills := reported.GetOr(0);
    }

    /** `died`. */
    method OnDied()
      modifies this
      ensures players == old(players)
      ensures Mine() == old(Mine()).(alive := false)
    {
      alive := false;
    }

    /** `respawn`: back at the given cell, alive. */
    method OnRespawn(x: int, y: int)
      modifies this
      ensures players == old(players)
      ensures Mine() == old(Mine()).(myX := x, myY := y, alive := true)
    {
      myX, myY := x, y;
      alive := true;
    }

    /** `playerKilled`: update the kill count of a known killer; an unknown id is ignored. */
    method OnPlayerKilled(killerId: Id, count: int)
      modifies this
      ensures players.Keys == old(players).Keys
      ensures killerId in players ==> players[killerId] == old(players)[killerId].(kills := count)
      ensures forall k :: k in players && k != killerId ==> players[k] == old(players)[k]
      ensures Mine() == old(Mine())
    {
      if killerId in players {
        players := players[killerId := players[killerId].(kills := count)];
      }
    }

    /** `revealStart`: enter reveal mode and, when the message carries positions, move every
        known player other than the client to its reported cell. */
    method OnRevealStart(seen: Option<seq<Sighting>>)
      modifies this
      ensures Mine() == old(Mine()).(timer := Countdown.RevealStart(old(Timer())))
      ensures players == if seen.Some? then Sighted(old(players), myId, seen.value) else old(players)
    {
      isRevealing := true;
      if seen.Some? {
        var list := seen.value;
        var i := 0;
        while i < |list|
          invariant 0 <= i <= |list|
          invariant players == Sighted(old(players), myId, list[..i])
          invariant Mine() == old(Mine()).(timer := Countdown.RevealStart(old(Timer())))
        {
          var s := list[i];
          assert list[..i + 1][..i] == list[..i] && list[..i + 1][i] == s;
          ghost var next := Sighted(old(players), myId, list[..i + 1]);
          assert next == if Some(s.id) != myId && s.id in players
                         then players[s.id := players[s.id].(x := s.x, y := s.y)] else players;
          if Some(s.id) != myId {
            if s.id in players {
              players := players[s.id := players[s.id].(x := s.x, y := s.y)];
            }
          }
          i := i + 1;
        }
        assert list[..|list|] == list;
      }
    }

    /** `revealEnd`: leave reveal mode and restart the countdown from seven. */
    method OnRevealEnd()
      modifies this
      ensures players == old(players)
      ensures Mine() == old(Mine()).(timer := Countdown.RevealEnd(old(Timer())))
    {
      isRevealing := false;
      revealCountdown := Countdown.RevealPeriod;
      countdownActive := true;
    }

    /** `startRevealCountdown`: (re)start the once-a-second interval; the countdown keeps its
        value. */
    method StartRevealCountdown()
      modifies this
      ensures players == old(players)
      ensures Mine() == old(Mine()).(timer := old(Timer()).(active := true))
    {
      countdownActive := true;
    }

    /** One firing of the countdown interval. */
    method Tick()
      modifies this
      ensures players == old(players)
      ensures Mine() == old(Mine()).(timer := Countdown.Tick(old(Timer())))
    {
      if !countdownActive || isRevealing {
        return;
      }
      revealCountdown := revealCountdown - 1;
      if revealCountdown <= 0 {
        countdownActive := false;
      }
    }

    /** The `m` key's clamped step from (`myX`, `myY`), as its `switch` computes it. */
    static method StepFrom(myX: int, myY: int, direction: Facing, roomSize: int) returns (newX: int, newY: int)
      ensures Cell(newX, newY) == StepAhead(Cell(myX, myY), direction, roomSize)
    {
      newX, newY := myX, myY;
      match direction {
        case Up => newY := Max(0, myY - 1);
        case Down => newY := Min(roomSize - 1, myY + 1);
        case Left => newX := Max(0, myX - 1);
        case Right => newX := Min(roomSize - 1, myX + 1);
      }
    }

    /** The keyboard handler, on the lower-cased key. A dead player does nothing; a turn key
        only changes the facing; `m` steps one clamped cell ahead unless that cell is a wall or
        the step goes nowhere, and then sends the facing to the server. Nothing else changes. */
    method KeyDown(key: string)
      modifies this
      ensures players == old(players) && myId == old(myId) && myAvatar == old(myAvatar) && roomSize == old(roomSize)
      ensures walls == old(walls) && alive == old(alive) && kills == old(kills) && Timer() == old(Timer())
      ensures direction == if old(alive) && TurnFor(key).Some? then TurnFor(key).value else old(direction)
      ensures var from := Cell(old(myX), old(myY));
              var to := StepAhead(from, old(direction), old(roomSize));
              var moved := old(alive) && key == "m" && Key(to.x, to.y) !in old(walls) && to != from;
              && Cell(myX, myY) == (if moved then to else from)
              && sentMoves == old(sentMoves) + (if moved then [DirName(old(direction))] else [])
    {
      if !alive {
        return;
      }
      if key == "arrowup" || key == "w" {
        direction := Up;
      } else if key == "arrowdown" || key == "s" {
        direction := Down;
      } else if key == "arrowleft" || key == "a" {
        direction := Left;
      } else if key == "arrowright" || key == "d" {
        direction := Right;
      } else if key == "m" {
        var newX, newY := StepFrom(myX, myY, direction, roomSize);
        if Key(newX, newY) in walls {
          return;
        }
        if newX != myX || newY != myY {
          myX, myY := newX, newY;
          sentMoves := sentMoves + [DirName(direction)];
        }
      }
    }

    /** The keys of the flashlight cone. */
    function VisibleKeys(): set<string>
      reads this
    {
      KeysOf(Cone(Cell(myX, myY), direction, roomSize))
    }

    /** The candidate cell at depth `i` and offset `j` of the beam from (`myX`, `myY`), and the
        bounds test `getVisibleBlocks` applies to it, as its `switch` computes them. */
    static method Candidate(myX: int, myY: int, direction: Facing, roomSize: int, i: int, j: int)
      returns (checkX: int, checkY: int, inside: bool)
      ensures Cell(checkX, checkY) == Beam(Cell(myX, myY), direction, i, j)
      ensures inside == Clipped(Cell(checkX, checkY), direction, roomSize)
    {
      match direction {
        case Up =>
          checkX, checkY := myX + j, myY - i;
          inside := checkX >= 0 && checkX < roomSize && checkY >= 0;
        case Down =>
          checkX, checkY := myX + j, myY + i;
          inside := checkX >= 0 && checkX < roomSize && checkY < roomSize;
        case Left =>
          checkX, checkY := myX - i, myY + j;
          inside := checkY >= 0 && checkY < roomSize && checkX >= 0;
        case Right =>
          checkX, checkY := myX + i, myY + j;
          inside := checkY >= 0 && checkY < roomSize && checkX < roomSize;
      }
    }

    /** `getVisibleBlocks`: the player's own cell, then for each depth the three cells across
        the beam that pass the bounds test. */
    method VisibleBlocks() returns (visible: set<string>)
      ensures visible == VisibleKeys()
    {
      var o := Cell(myX, myY);
      visible := {Key(myX, myY)};
      for i := 1 to FlashlightRange + 1
        invariant visible == KeysOf({o} + Swept(o, direction, roomSize, i, -1))
      {
        for j := -1 to 2
          invariant visible == KeysOf({o} + Swept(o, direction, roomSize, i, j))
        {
          var checkX, checkY, inside := Candidate(myX, myY, direction, roomSize, i, j);
          ConeStep(visible, o, direction, roomSize, i, j);
          if inside {
            visible := visible + {Key(checkX, checkY)};
          }
        }
        SweptNextRow(o, direction, roomSize, i);
      }
    }

    /** `blocks` with the keys of the in-grid 3x3 neighbourhood of `p` added, as the two nested
        loops of the reveal drawing add them. */
    static method AddAround(blocks: set<string>, p: Cell, size: int) returns (r: set<string>)
      ensures r == blocks + KeysOf(Neighbourhood(p, size))
    {
      r := blocks;
      AroundUpToEnds(p, size);
      for dx := -1 to 2
        invariant r == blocks + KeysOf(AroundUpTo(p, size, dx, -1))
      {
        for dy := -1 to 2
          invariant r == blocks + KeysOf(AroundUpTo(p, size, dx, dy))
        {
          var x, y := p.x + dx, p.y + dy;
          AroundStep(r, blocks, p, size, dx, dy);
          if x >= 0 && x < size && y >= 0 && y < size {
            r := r + {Key(x, y)};
          }
        }
        AroundUpToRow(p, size, dx);
      }
    }

    /** `blocks` with the reveal neighbourhood of every player of `players` added, visiting the
        players in any order (the result is a union, so the order does not matter). */
    static method AddAllAround(blocks: set<string>, players: map<Id, PlayerView>, size: int)
      returns (r: set<string>)
      ensures r == blocks + KeysOf(Around(players, players.Keys, size))
    {
      r := blocks;
      var todo := players.Keys;
      assert players.Keys - todo == {};
      while todo != {}
        invariant todo <= players.Keys
        invariant r == blocks + KeysOf(Around(players, players.Keys - todo, size))
        decreases |todo|
      {
        var id :| id in todo;
        var p := Cell(players[id].x, players[id].y);
        ghost var done := players.Keys - todo;
        r := AddAround(r, p, size);
        AroundAddOne(players, done, id, size);
        KeysOfUnion(Around(players, done, size), Neighbourhood(p, size));
        MoveToDone(players.Keys, todo, id);
        todo := todo - {id};
      }
    }

    /** The floor cells `render` draws: the flashlight cone and, while positions are revealed,
        the in-grid 3x3 neighbourhood of every known player. */
    method BlocksToDraw() returns (blocks: set<string>)
      ensures blocks == VisibleKeys() + (if isRevealing then KeysOf(Around(players, players.Keys, roomSize)) else {})
    {
      blocks := VisibleBlocks();
      if isRevealing {
        blocks := AddAllAround(blocks, players, roomSize);
      }
    }

    /** Whether `render` draws the known player `id`: never the client itself, otherwise when
        its cell is lit or positions are revealed. */
    function IsDrawn(id: Id): (r: bool)
      reads this
      requires id in players
      ensures r <==> Some(id) != myId
                     && (Cell(players[id].x, players[id].y) in Cone(Cell(myX, myY), direction, roomSize)
                         || isRevealing)
    {
      KeyInKeysOf(Cell(players[id].x, players[id].y), Cone(Cell(myX, myY), direction, roomSize));
      Some(id) != myId && (Key(players[id].x, players[id].y) in VisibleKeys() || isRevealing)
    }
  }
}

/** How the client's prediction and the server's authority meet: the `move` message the client
    sends names its facing, and the server steps the same way the client predicted. */
module Protocol {
  import opened Grid
  import opened Flashlight
  import Server

  /** The client's optimistic step for facing `d` is the server's step for the direction name
      it sends, on the server's room size. */
  lemma ClientPredictsServerStep(o: Cell, d: Facing)
    ensures StepAhead(o, d, Server.RoomSize) == Server.Step(o, DirName(d))
  {
  }

  /** The client only ever sends direction names the server recognises, and distinct facings
      send distinct names. */
  lemma SentDirectionsAreKnown(d: Facing, e: Facing)
    ensures DirName(d) in {"up", "down", "left", "right"}
    ensures DirName(d) == DirName(e) <==> d == e
  {
  }

  /** When the client moved (its step changed its cell), and the server's record of the client
      is alive and on the same cell, the server commits the move, to the same cell, inside the
      room. */
  lemma AgreedMoveIsCommitted(players: map<Server.Id, Server.Player>, id: Server.Id, d: Facing)
    requires id in players && players[id].alive
    requires InGrid(players[id].Pos(), Server.RoomSize)
    requires StepAhead(players[id].Pos(), d, Server.RoomSize) != players[id].Pos()
    ensures Server.Session.Moves(players, id, DirName(d))
    ensures Server.Step(players[id].Pos(), DirName(d)) == StepAhead(players[id].Pos(), d, Server.RoomSize)
    ensures InGrid(Server.Step(players[id].Pos(), DirName(d)), Server.RoomSize)
  {
    ClientPredictsServerStep(players[id].Pos(), d);
    StepAheadStaysInGrid(players[id].Pos(), d, Server.RoomSize);
  }
}

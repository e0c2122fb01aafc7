/**
 * The server's global `rooms` object and the five socket handlers that act on
 * it.  Each handler updates the registry in place, step by step as the
 * handler does, and is proved to leave exactly the registry that the
 * corresponding function of module `Rooms` describes, with the registry
 * invariant kept.  Sockets, room membership and broadcasts are not modelled:
 * the socket id and the event payload are the parameters.
 */
module Server {
  import opened Scoring
  import opened ScoreSheet
  import opened Rooms

  class Registry {
    /** `rooms`: room id to room record. */
    var rooms: map<string, Room>

    ghost predicate Valid()
      reads this
    {
      RegistryInvariant(rooms)
    }

    /** `let rooms = {}`. */
    constructor ()
      ensures Valid() && rooms == map[]
    {
      rooms := map[];
    }

    /** `join-room` with payload `{ roomId, playerName }` from socket `sessionId`. */
    method JoinRoom(roomId: string, sessionId: string, playerName: string)
      requires Valid()
      modifies this
      ensures Valid()
      ensures rooms == JoinRoomStep(old(rooms), roomId, sessionId, playerName)
    {
      if roomId !in rooms {
        rooms := rooms[roomId := NewRoom()];
      }
      var room := rooms[roomId];
      if !room.gameStarted {
        rooms := rooms[roomId := room.(players := room.players + [NewPlayer(sessionId, playerName)])];
        assert rooms == old(rooms)[roomId := room.(players := room.players + [NewPlayer(sessionId, playerName)])];
      } else {
        assert roomId in old(rooms) && rooms == old(rooms);
        assert rooms[roomId := room] == rooms;
      }
      JoinRoomKeepsInvariant(old(rooms), roomId, sessionId, playerName);
    }

    /** `start-game` with payload `roomId`. */
    method StartGame(roomId: string)
      requires Valid()
      modifies this
      ensures Valid()
      ensures rooms == StartGameStep(old(rooms), roomId)
    {
      if roomId in rooms {
        rooms := rooms[roomId := rooms[roomId].(gameStarted := true)];
      }
      StartGameKeepsInvariant(old(rooms), roomId);
    }

    /** `dice-rolled` with payload `{ roomId, dice, rollsLeft }`. */
    method DiceRolled(roomId: string, dice: seq<int>, rollsLeft: int)
      requires Valid()
      modifies this
      ensures Valid()
      ensures rooms == DiceRolledStep(old(rooms), roomId, dice, rollsLeft)
    {
      if roomId in rooms {
        rooms := rooms[roomId := rooms[roomId].(dice := dice)];
        rooms := rooms[roomId := rooms[roomId].(rollsLeft := rollsLeft)];
      }
      DiceRolledKeepsInvariant(old(rooms), roomId, dice, rollsLeft);
    }

    /** `toggle-hold` with payload `{ roomId, held }`. */
    method ToggleHold(roomId: string, held: seq<bool>)
      requires Valid()
      modifies this
      ensures Valid()
      ensures rooms == ToggleHoldStep(old(rooms), roomId, held)
    {
      if roomId in rooms {
        rooms := rooms[roomId := rooms[roomId].(held := held)];
      }
      ToggleHoldKeepsInvariant(old(rooms), roomId, held);
    }

    /**
     * `select-category` with payload `{ roomId, catId }`: the server scores the
     * stored roll itself.  The stored dice are whatever the last dice-rolled
     * event sent; they are required to be faces 0..6.
     */
    method SelectCategory(roomId: string, catId: string)
      requires Valid()
      requires roomId in rooms ==> AreDice(rooms[roomId].dice)
      modifies this
      ensures Valid()
      ensures rooms == SelectCategoryStep(old(rooms), roomId, catId)
    {
      SelectCategoryKeepsInvariant(rooms, roomId, catId);
      if roomId in rooms {
        var room := rooms[roomId];
        var i := room.currentPlayerIdx;
        var score := Score(catId, room.dice);
        var player := RecordScore(room.players[i], catId, score);
        room := room.(players := room.players[i := player]);
        room := room.(currentPlayerIdx := (i + 1) % |room.players|);
        room := room.(rollsLeft := StartRolls, dice := StartDice, held := StartHeld);
        assert room == CommitRoom(rooms[roomId], catId, score);
        rooms := rooms[roomId := room];
      }
    }
  }

  /**
   * `player.scores[catId] = score` and the recomputed total: the upper sum
   * and the sum of all values, each by its own loop, and the bonus.
   */
  method RecordScore(player: Player, catId: string, score: int) returns (p: Player)
    ensures p == CommitPlayer(player, catId, score)
  {
    var scores := player.scores[catId := score];
    var upper := ComputeUpper(scores);
    var total := ComputeSheetSum(scores);
    p := player.(scores := scores, total := total + Bonus(upper));
  }
}

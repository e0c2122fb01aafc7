/**
 * The state the server keeps per room and what each socket handler does to
 * the registry of rooms, as functions from the registry before an event to the
 * registry after it.  The `Registry` class in module `Server` performs these
 * updates in place; the properties of the game are proved here, on values.
 */
module Rooms {
  import opened Scoring
  import opened ScoreSheet
  import ScoringProperties

  /** A seat in a room: the socket id, the display name, the score sheet and the stored total. */
  datatype Player = Player(id: string, name: string, scores: map<string, int>, total: int)

  /** A room: its players in join order, whether the game is on, whose turn it is, and the shared roll. */
  datatype Room = Room(
    players: seq<Player>,
    gameStarted: bool,
    currentPlayerIdx: int,
    dice: seq<int>,
    rollsLeft: int,
    held: seq<bool>)

  const StartDice: seq<int> := [0, 0, 0, 0, 0]
  const StartHeld: seq<bool> := [false, false, false, false, false]
  const StartRolls := 3

  /** The record join-room stores for a room id seen for the first time. */
  function NewRoom(): Room {
    Room([], false, 0, StartDice, StartRolls, StartHeld)
  }

  /** The record join-room appends for a joining socket. */
  function NewPlayer(sessionId: string, playerName: string): Player {
    Player(sessionId, playerName, map[], 0)
  }

  // ---------------------------------------------------------------------------
  // Invariants

  /** A player's stored total is the total of the sheet, and no entry is negative. */
  ghost predicate PlayerInvariant(p: Player) {
    (forall k :: k in p.scores ==> p.scores[k] >= 0) && p.total == SheetTotal(p.scores)
  }

  /** A room has a player, the turn index names one of them, and every player is consistent. */
  ghost predicate RoomInvariant(r: Room) {
    |r.players| > 0 &&
    0 <= r.currentPlayerIdx < |r.players| &&
    forall i :: 0 <= i < |r.players| ==> PlayerInvariant(r.players[i])
  }

  ghost predicate RegistryInvariant(rooms: map<string, Room>) {
    forall k :: k in rooms ==> RoomInvariant(rooms[k])
  }

  /** The turn index of a stored room names a player; this is all select-category relies on. */
  predicate HasCurrentPlayer(r: Room) {
    0 <= r.currentPlayerIdx < |r.players|
  }

  // ---------------------------------------------------------------------------
  // The handlers

  /** join-room: create the room if it is missing, then seat the player unless the game has started. */
  function JoinRoomStep(rooms: map<string, Room>, roomId: string, sessionId: string, playerName: string): map<string, Room> {
    var room := if roomId in rooms then rooms[roomId] else NewRoom();
    if !room.gameStarted then rooms[roomId := room.(players := room.players + [NewPlayer(sessionId, playerName)])]
    else rooms[roomId := room]
  }

  /** start-game: raise the flag of an existing room. */
  function StartGameStep(rooms: map<string, Room>, roomId: string): map<string, Room> {
    if roomId in rooms then rooms[roomId := rooms[roomId].(gameStarted := true)] else rooms
  }

  /** dice-rolled: store the roll and the rolls left that the client sent. */
  function DiceRolledStep(rooms: map<string, Room>, roomId: string, dice: seq<int>, rollsLeft: int): map<string, Room> {
    if roomId in rooms then rooms[roomId := rooms[roomId].(dice := dice, rollsLeft := rollsLeft)] else rooms
  }

  /** toggle-hold: store the held flags that the client sent. */
  function ToggleHoldStep(rooms: map<string, Room>, roomId: string, held: seq<bool>): map<string, Room> {
    if roomId in rooms then rooms[roomId := rooms[roomId].(held := held)] else rooms
  }

  /** Writing `score` under `catId` and storing the recomputed total. */
  ghost function CommitPlayer(p: Player, catId: string, score: int): Player {
    var scores := p.scores[catId := score];
    p.(scores := scores, total := SheetTotal(scores))
  }

  /**
   * select-category on a room, once the score is known: the current player
   * records it, the turn passes, the roll is reset.
   */
  ghost function CommitRoom(r: Room, catId: string, score: int): (r': Room)
    requires HasCurrentPlayer(r)
    ensures |r'.players| == |r.players| && HasCurrentPlayer(r') && AreDice(r'.dice)
  {
    var i := r.currentPlayerIdx;
    var player := CommitPlayer(r.players[i], catId, score);
    r.(players := r.players[i := player],
       currentPlayerIdx := (i + 1) % |r.players|,
       rollsLeft := StartRolls,
       dice := StartDice,
       held := StartHeld)
  }

  /** select-category: score the stored roll under `catId` and commit it; a no-op for a room id that is not there. */
  ghost function SelectCategoryStep(rooms: map<string, Room>, roomId: string, catId: string): (after: map<string, Room>)
    requires roomId in rooms ==> AreDice(rooms[roomId].dice) && HasCurrentPlayer(rooms[roomId])
    ensures roomId in rooms ==> roomId in after && AreDice(after[roomId].dice) && HasCurrentPlayer(after[roomId])
  {
    if roomId in rooms then
      var r := rooms[roomId];
      rooms[roomId := CommitRoom(r, catId, Score(catId, r.dice))]
    else rooms
  }

  // ---------------------------------------------------------------------------
  // What each handler changes

  /**
   * join-room leaves every other room alone; for a missing id it stores a
   * fresh room; before the game starts it appends exactly one player, with an
   * empty sheet, at the end; once the game has started nothing changes.
   */
  lemma JoinRoomEffect(rooms: map<string, Room>, roomId: string, sessionId: string, playerName: string)
    ensures var after := JoinRoomStep(rooms, roomId, sessionId, playerName);
            after.Keys == rooms.Keys + {roomId} &&
            (forall k :: k in rooms && k != roomId ==> after[k] == rooms[k])
    ensures var after := JoinRoomStep(rooms, roomId, sessionId, playerName);
            var before := if roomId in rooms then rooms[roomId] else NewRoom();
            var r := after[roomId];
            if before.gameStarted then after == rooms
            else
              |r.players| == |before.players| + 1 &&
              r.players[..|before.players|] == before.players &&
              r.players[|before.players|] == Player(sessionId, playerName, map[], 0) &&
              r.(players := before.players) == before
    ensures roomId !in rooms ==>
            var r := JoinRoomStep(rooms, roomId, sessionId, playerName)[roomId];
            r.players == [NewPlayer(sessionId, playerName)] && !r.gameStarted && r.currentPlayerIdx == 0 &&
            r.dice == [0, 0, 0, 0, 0] && r.rollsLeft == 3 && r.held == [false, false, false, false, false]
  {
    var before := if roomId in rooms then rooms[roomId] else NewRoom();
    if before.gameStarted {
      assert roomId in rooms;
      assert rooms[roomId := before] == rooms;
    } else {
      var ps := before.players + [NewPlayer(sessionId, playerName)];
      assert ps[..|before.players|] == before.players;
    }
  }

  /** start-game changes only the flag of the named room, and nothing when the room is missing. */
  lemma StartGameEffect(rooms: map<string, Room>, roomId: string)
    ensures var after := StartGameStep(rooms, roomId);
            after.Keys == rooms.Keys && (forall k :: k in rooms && k != roomId ==> after[k] == rooms[k])
    ensures roomId in rooms ==>
            var r := StartGameStep(rooms, roomId)[roomId];
            r.gameStarted && r.(gameStarted := rooms[roomId].gameStarted) == rooms[roomId]
    ensures roomId !in rooms ==> StartGameStep(rooms, roomId) == rooms
  {
  }

  /** dice-rolled changes only the roll and the rolls left of the named room. */
  lemma DiceRolledEffect(rooms: map<string, Room>, roomId: string, dice: seq<int>, rollsLeft: int)
    ensures var after := DiceRolledStep(rooms, roomId, dice, rollsLeft);
            after.Keys == rooms.Keys && (forall k :: k in rooms && k != roomId ==> after[k] == rooms[k])
    ensures roomId in rooms ==>
            var r := DiceRolledStep(rooms, roomId, dice, rollsLeft)[roomId];
            r.dice == dice && r.rollsLeft == rollsLeft &&
            r.(dice := rooms[roomId].dice, rollsLeft := rooms[roomId].rollsLeft) == rooms[roomId]
    ensures roomId !in rooms ==> DiceRolledStep(rooms, roomId, dice, rollsLeft) == rooms
  {
  }

  /** toggle-hold changes only the held flags of the named room. */
  lemma ToggleHoldEffect(rooms: map<string, Room>, roomId: string, held: seq<bool>)
    ensures var after := ToggleHoldStep(rooms, roomId, held);
            after.Keys == rooms.Keys && (forall k :: k in rooms && k != roomId ==> after[k] == rooms[k])
    ensures roomId in rooms ==>
            var r := ToggleHoldStep(rooms, roomId, held)[roomId];
            r.held == held && r.(held := rooms[roomId].held) == rooms[roomId]
    ensures roomId !in rooms ==> ToggleHoldStep(rooms, roomId, held) == rooms
  {
  }

  /**
   * A commit on a room: the current player's sheet gets `score` under
   * `catId` and a total recomputed from the whole sheet; every other player is
   * untouched; the turn passes to the next seat, wrapping to the first after
   * the last; the roll is reset.
   */
  lemma CommitRoomEffect(r: Room, catId: string, score: int)
    requires HasCurrentPlayer(r)
    ensures var r' := CommitRoom(r, catId, score);
            var i := r.currentPlayerIdx;
            var p, p' := r.players[i], r'.players[i];
            p'.id == p.id && p'.name == p.name &&
            p'.scores == p.scores[catId := score] &&
            p'.total == SumValues(p'.scores) + (if UpperSum(p'.scores) >= 63 then 35 else 0) &&
            (forall j :: 0 <= j < |r.players| && j != i ==> r'.players[j] == r.players[j])
    ensures var r' := CommitRoom(r, catId, score);
            var i := r.currentPlayerIdx;
            (i + 1 < |r.players| ==> r'.currentPlayerIdx == i + 1) &&
            (i + 1 == |r.players| ==> r'.currentPlayerIdx == 0)
    ensures var r' := CommitRoom(r, catId, score);
            r'.rollsLeft == 3 && r'.dice == [0, 0, 0, 0, 0] && r'.held == [false, false, false, false, false] &&
            r'.gameStarted == r.gameStarted
  {
  }

  /** The committed player's new total, from the sheet before the commit. */
  lemma CommitTotal(p: Player, catId: string, score: int)
    ensures CommitPlayer(p, catId, score).total ==
            SumValues(p.scores) - Entry(p.scores, catId) + score + Bonus(UpperSum(p.scores[catId := score]))
    ensures UpperSum(p.scores[catId := score]) ==
            if catId in UpperKeys then UpperSum(p.scores) - Entry(p.scores, catId) + score else UpperSum(p.scores)
  {
    TotalAfterCommit(p.scores, catId, score);
    UpperSumUpdate(p.scores, catId, score);
  }

  /** Committing the same score to the same category again leaves the player, total included, as one commit did. */
  lemma RecommitSamePlayer(p: Player, catId: string, score: int)
    ensures CommitPlayer(CommitPlayer(p, catId, score), catId, score) == CommitPlayer(p, catId, score)
  {
    assert p.scores[catId := score][catId := score] == p.scores[catId := score];
  }

  /**
   * select-category commits the score `calculateScore` gives the stored roll,
   * leaves every other room alone, and leaves the registry alone when the
   * room is missing.
   */
  lemma SelectCategoryEffect(rooms: map<string, Room>, roomId: string, catId: string)
    requires roomId in rooms ==> AreDice(rooms[roomId].dice) && HasCurrentPlayer(rooms[roomId])
    ensures var after := SelectCategoryStep(rooms, roomId, catId);
            after.Keys == rooms.Keys && (forall k :: k in rooms && k != roomId ==> after[k] == rooms[k])
    ensures roomId in rooms ==>
            var r := rooms[roomId];
            SelectCategoryStep(rooms, roomId, catId)[roomId] == CommitRoom(r, catId, Score(catId, r.dice))
    ensures roomId !in rooms ==> SelectCategoryStep(rooms, roomId, catId) == rooms
  {
  }

  // ---------------------------------------------------------------------------
  // Every handler keeps the invariant

  lemma NewPlayerInvariant(sessionId: string, playerName: string)
    ensures PlayerInvariant(NewPlayer(sessionId, playerName))
  {
    var s: map<string, int> := map[];
    assert SumValues(s) == 0;
    assert UpperSum(s) == 0 by {
      UpperSumExplicit(s);
    }
  }

  lemma JoinRoomKeepsInvariant(rooms: map<string, Room>, roomId: string, sessionId: string, playerName: string)
    requires RegistryInvariant(rooms)
    ensures RegistryInvariant(JoinRoomStep(rooms, roomId, sessionId, playerName))
  {
    var after := JoinRoomStep(rooms, roomId, sessionId, playerName);
    var before := if roomId in rooms then rooms[roomId] else NewRoom();
    if !before.gameStarted {
      NewPlayerInvariant(sessionId, playerName);
      var r := after[roomId];
      assert r.players == before.players + [NewPlayer(sessionId, playerName)];
      forall i | 0 <= i < |r.players| ensures PlayerInvariant(r.players[i]) {
        if i < |before.players| {
          assert r.players[i] == before.players[i];
        }
      }
      if roomId in rooms {
        assert RoomInvariant(rooms[roomId]);
      }
      assert RoomInvariant(r);
    } else {
      assert after == rooms by {
        assert rooms[roomId := before] == rooms;
      }
    }
  }

  lemma StartGameKeepsInvariant(rooms: map<string, Room>, roomId: string)
    requires RegistryInvariant(rooms)
    ensures RegistryInvariant(StartGameStep(rooms, roomId))
  {
    if roomId in rooms {
      assert RoomInvariant(rooms[roomId]);
    }
  }

  lemma DiceRolledKeepsInvariant(rooms: map<string, Room>, roomId: string, dice: seq<int>, rollsLeft: int)
    requires RegistryInvariant(rooms)
    ensures RegistryInvariant(DiceRolledStep(rooms, roomId, dice, rollsLeft))
  {
    if roomId in rooms {
      assert RoomInvariant(rooms[roomId]);
    }
  }

  lemma ToggleHoldKeepsInvariant(rooms: map<string, Room>, roomId: string, held: seq<bool>)
    requires RegistryInvariant(rooms)
    ensures RegistryInvariant(ToggleHoldStep(rooms, roomId, held))
  {
    if roomId in rooms {
      assert RoomInvariant(rooms[roomId]);
    }
  }

  lemma CommitRoomInvariant(r: Room, catId: string, score: int)
    requires RoomInvariant(r) && score >= 0
    ensures RoomInvariant(CommitRoom(r, catId, score))
  {
    var i := r.currentPlayerIdx;
    var r' := CommitRoom(r, catId, score);
    assert PlayerInvariant(CommitPlayer(r.players[i], catId, score));
    forall j | 0 <= j < |r'.players| ensures PlayerInvariant(r'.players[j]) {
      if j != i {
        assert r'.players[j] == r.players[j];
      }
    }
  }

  lemma SelectCategoryKeepsInvariant(rooms: map<string, Room>, roomId: string, catId: string)
    requires RegistryInvariant(rooms)
    requires roomId in rooms ==> AreDice(rooms[roomId].dice)
    ensures roomId in rooms ==> HasCurrentPlayer(rooms[roomId])
    ensures RegistryInvariant(SelectCategoryStep(rooms, roomId, catId))
  {
    if roomId in rooms {
      var r := rooms[roomId];
      assert RoomInvariant(r);
      ScoringProperties.ScoreRange(r.dice, catId);
      CommitRoomInvariant(r, catId, Score(catId, r.dice));
    }
  }

  // ---------------------------------------------------------------------------
  // Several commits in a row

  /** The room after the current player of each turn commits `entries[k]`, one after another. */
  ghost function CommitAll(r: Room, entries: seq<(string, int)>): (r': Room)
    requires HasCurrentPlayer(r)
    ensures |r'.players| == |r.players| && HasCurrentPlayer(r')
    decreases |entries|
  {
    if entries == [] then r else CommitAll(CommitRoom(r, entries[0].0, entries[0].1), entries[1..])
  }

  lemma MulAtLeast(a: int, n: int)
    requires n > 0 && a >= 1
    ensures a * n >= n
  {
  }

  /** Euclidean remainder is unique: `k * n + r` with `0 <= r < n` leaves `r`. */
  lemma ModUnique(x: int, n: int, k: int, r: int)
    requires n > 0 && 0 <= r < n && x == k * n + r
    ensures x % n == r
  {
    var d := x / n - k;
    assert x == (x / n) * n + x % n;
    assert d * n == r - x % n;
    if d >= 1 {
      MulAtLeast(d, n);
    } else if d <= -1 {
      MulAtLeast(-d, n);
    }
    assert d == 0;
  }

  /** The seat after `i` at a table of `n`: the next one, or the first after the last. */
  function NextSeat(i: int, n: int): int {
    if i + 1 < n then i + 1 else 0
  }

  /** The seat reached from `i` after `k` turns. */
  function Rotate(i: int, n: int, k: nat): int
    decreases k
  {
    if k == 0 then i else Rotate(NextSeat(i, n), n, k - 1)
  }

  /** `(i + 1) % n` is the next seat. */
  lemma NextSeatMod(i: int, n: int)
    requires 0 <= i < n
    ensures (i + 1) % n == NextSeat(i, n)
  {
    if i + 1 < n {
      ModUnique(i + 1, n, 0, i + 1);
    } else {
      ModUnique(i + 1, n, 1, 0);
    }
  }

  /** Up to a full round, `k` turns from seat `i` reach seat `i + k`, counted round the table. */
  lemma {:induction false} RotateWithinRound(i: int, n: int, k: nat)
    requires 0 <= i < n && k <= n
    ensures Rotate(i, n, k) == if i + k < n then i + k else i + k - n
    decreases k
  {
    if k > 0 {
      RotateWithinRound(NextSeat(i, n), n, k - 1);
    }
  }

  /** Each commit passes the turn one seat on. */
  lemma {:induction false} TurnRotation(r: Room, entries: seq<(string, int)>)
    requires HasCurrentPlayer(r)
    ensures CommitAll(r, entries).currentPlayerIdx == Rotate(r.currentPlayerIdx, |r.players|, |entries|)
    decreases |entries|
  {
    if entries != [] {
      var r1 := CommitRoom(r, entries[0].0, entries[0].1);
      NextSeatMod(r.currentPlayerIdx, |r.players|);
      TurnRotation(r1, entries[1..]);
    }
  }

  /**
   * In `|players|` commits every seat has its turn exactly once, in seat order
   * from the current one, and then the turn is back where it started.
   */
  lemma FullRound(r: Room, entries: seq<(string, int)>)
    requires HasCurrentPlayer(r) && |entries| == |r.players|
    ensures CommitAll(r, entries).currentPlayerIdx == r.currentPlayerIdx
    ensures forall k :: 0 <= k < |entries| ==>
              CommitAll(r, entries[..k]).currentPlayerIdx ==
              if r.currentPlayerIdx + k < |r.players| then r.currentPlayerIdx + k else r.currentPlayerIdx + k - |r.players|
  {
    TurnRotation(r, entries);
    RotateWithinRound(r.currentPlayerIdx, |r.players|, |entries|);
    forall k | 0 <= k < |entries|
      ensures CommitAll(r, entries[..k]).currentPlayerIdx ==
              if r.currentPlayerIdx + k < |r.players| then r.currentPlayerIdx + k else r.currentPlayerIdx + k - |r.players|
    {
      TurnRotation(r, entries[..k]);
      RotateWithinRound(r.currentPlayerIdx, |r.players|, k);
    }
  }

  /**
   * The roll is reset to zeros after a commit, and zeros are scored as faces:
   * the next player selecting "kn" without rolling gets 50.
   */
  lemma CommitWithoutRolling(rooms: map<string, Room>, roomId: string, catId: string)
    requires roomId in rooms && AreDice(rooms[roomId].dice) && HasCurrentPlayer(rooms[roomId])
    ensures var once := SelectCategoryStep(rooms, roomId, catId);
            var twice := SelectCategoryStep(once, roomId, "kn");
            twice[roomId].players[once[roomId].currentPlayerIdx].scores["kn"] == 50
  {
    var once := SelectCategoryStep(rooms, roomId, catId);
    ScoringProperties.ZeroDiceScore(once[roomId].dice);
  }
}

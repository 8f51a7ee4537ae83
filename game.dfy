/**
 * The older player/drawer iteration of the round engine. Its chambers have
 * their own shape: a `players` Map keyed by socket id, a status, a drawer,
 * the current word and hint, word choices, a stroke history and a round
 * deadline. They are read through a chamber store of their own (Table).
 */
module Game {
  import opened Optional
  import opened Chance
  import opened Text
  import opened Guess

  const WordBank: seq<string> := ["Apple", "Robot", "Guitar", "Sun", "Tree", "Computer"]

  /** Points a correct guess earns: `Math.floor(100 * 0.5)`. */
  const GuessPoints := 50

  /** Points the drawer earns for each correct guess. */
  const DrawerBonus := 10

  datatype Status = Waiting | SelectingWord | Playing | RoundOver

  datatype Point = Point(x: int, y: int)

  datatype Stroke = Stroke(color: string, width: int, points: seq<Point>)

  datatype Player = Player(
    playerId: string,
    socketId: string,
    handle: string,
    avatar: string,
    score: int,
    isDrawer: bool,
    hasGuessedCorrectly: bool,
    scoreThisRound: int)

  /** One entry of the `players` Map: its key and its value, in insertion order. */
  datatype Seat = Seat(key: string, player: Player)

  datatype Config = Config(maxPlayers: int, roundTimeMs: int, totalRounds: int)

  datatype Room = Room(
    chamberId: string,
    players: seq<Seat>,
    status: Status,
    currentDrawerId: Option<string>,
    currentWord: Option<string>,
    currentHint: Option<string>,
    wordChoices: seq<string>,
    roundEndTime: int,
    strokeHistory: seq<Stroke>,
    config: Config,
    createdAt: int)

  datatype Verdict = Correct | Close | Wrong | AlreadyGuessed

  datatype GuessResult = GuessResult(kind: Verdict, points: int, msg: string)

  /** What getGameState hands out: players as a list, the word and the choices nulled. */
  datatype GameState = GameState(
    chamberId: string,
    players: seq<Player>,
    status: Status,
    currentDrawerId: Option<string>,
    currentWord: Option<string>,
    currentHint: Option<string>,
    wordChoices: Option<seq<string>>,
    roundEndTime: int,
    strokeHistory: seq<Stroke>,
    config: Config,
    createdAt: int)

  /** A Map holds each key once. */
  predicate DistinctKeys(players: seq<Seat>) {
    forall i, j :: 0 <= i < j < |players| ==> players[i].key != players[j].key
  }

  /** `players.get(key)`, as the index of the entry. */
  function Lookup(players: seq<Seat>, key: string): (r: Option<nat>)
    ensures r.Some? ==> r.value < |players| && players[r.value].key == key
    ensures r.Some? ==> forall j :: 0 <= j < r.value ==> players[j].key != key
    ensures r.None? <==> forall j :: 0 <= j < |players| ==> players[j].key != key
  {
    if players == [] then None
    else if players[0].key == key then Some(0)
    else match Lookup(players[1..], key)
      case None => None
      case Some(k) => Some(k + 1)
  }

  /** `players.get(id)` for an id that may be unset: nothing is stored under `undefined`. */
  function LookupDrawer(players: seq<Seat>, drawerId: Option<string>): Option<nat> {
    if drawerId.Some? then Lookup(players, drawerId.value) else None
  }

  /** In a Map, whose keys are distinct, `get` by an entry's key finds that entry. */
  lemma {:induction false} LookupFindsEntry(players: seq<Seat>, k: nat)
    requires DistinctKeys(players) && k < |players|
    ensures Lookup(players, players[k].key) == Some(k)
  {
    assert Lookup(players, players[k].key).Some?;
  }

  /** Two tables with the same keys at the same places answer every `get` alike. */
  lemma {:induction false} SameKeysSameLookup(a: seq<Seat>, b: seq<Seat>, key: string)
    requires |a| == |b| && forall j :: 0 <= j < |a| ==> a[j].key == b[j].key
    ensures Lookup(a, key) == Lookup(b, key)
  {
    if a != [] {
      SameKeysSameLookup(a[1..], b[1..], key);
    }
  }

  /** One player after startNextTurn's `forEach`. */
  function Dealt(s: Seat, drawerId: Option<string>): Seat {
    s.(player := s.player.(isDrawer := drawerId == Some(s.player.socketId),
                           hasGuessedCorrectly := false, scoreThisRound := 0))
  }

  /** Three draws from the word bank, repeats allowed; the `??` fallbacks are unreachable. */
  function DrawWords(wordRolls: seq<real>): (r: seq<string>)
    requires |wordRolls| == 3 && AllRolls(wordRolls)
    ensures |r| == 3
    ensures forall w :: w in r ==> w in WordBank
  {
    [ WordBank[PickIndex(wordRolls[0], |WordBank|)],
      WordBank[PickIndex(wordRolls[1], |WordBank|)],
      WordBank[PickIndex(wordRolls[2], |WordBank|)] ]
  }

  /** The drawer startNextTurn picks: a key drawn from the Map's keys; unset when there are none. */
  function PickDrawer(players: seq<Seat>, drawerRoll: real): (r: Option<string>)
    requires IsRoll(drawerRoll)
    ensures r.None? <==> players == []
    ensures r.Some? ==> Lookup(players, r.value).Some?
  {
    if players == [] then None else Some(players[PickIndex(drawerRoll, |players|)].key)
  }

  /** No two players share a socket id. */
  predicate UniqueSocketIds(players: seq<Seat>) {
    forall i, j :: 0 <= i < j < |players| ==> players[i].player.socketId != players[j].player.socketId
  }

  /**
   * startNextTurn on one room: a drawer drawn from the keys; exactly the
   * players whose socket id is the drawer id draw; everybody's round is
   * reset; the canvas is cleared; three word choices; SELECTING_WORD.
   */
  function NextTurn(r: Room, drawerRoll: real, wordRolls: seq<real>): (d: Room)
    requires IsRoll(drawerRoll) && |wordRolls| == 3 && AllRolls(wordRolls)
    ensures d.currentDrawerId.Some? <==> |r.players| > 0
    ensures d.currentDrawerId.Some? ==> Lookup(r.players, d.currentDrawerId.value).Some?
    ensures |d.players| == |r.players|
    ensures forall i :: 0 <= i < |d.players| ==> var p := d.players[i].player;
      && d.players[i].key == r.players[i].key
      && (p.isDrawer <==> d.currentDrawerId == Some(p.socketId))
      && !p.hasGuessedCorrectly && p.scoreThisRound == 0
      && p.(isDrawer := false, hasGuessedCorrectly := false, scoreThisRound := 0)
         == r.players[i].player.(isDrawer := false, hasGuessedCorrectly := false, scoreThisRound := 0)
    ensures UniqueSocketIds(r.players) ==> forall i, j ::
      (0 <= i < |d.players| && 0 <= j < |d.players| && d.players[i].player.isDrawer && d.players[j].player.isDrawer)
      ==> i == j
    ensures d.strokeHistory == [] && d.status == SelectingWord
    ensures |d.wordChoices| == 3 && forall w :: w in d.wordChoices ==> w in WordBank
    ensures d == r.(players := d.players, currentDrawerId := d.currentDrawerId, strokeHistory := [],
                    status := SelectingWord, wordChoices := d.wordChoices)
  {
    var drawerId := PickDrawer(r.players, drawerRoll);
    r.(players := DealAll(r.players, drawerId), currentDrawerId := drawerId, strokeHistory := [],
       status := SelectingWord, wordChoices := DrawWords(wordRolls))
  }

  /** Every player after startNextTurn's `forEach`, in Map order. */
  function DealAll(players: seq<Seat>, drawerId: Option<string>): (r: seq<Seat>)
    ensures |r| == |players| && forall i :: 0 <= i < |r| ==> r[i] == Dealt(players[i], drawerId)
  {
    seq(|players|, i requires 0 <= i < |players| => Dealt(players[i], drawerId))
  }

  /** NextTurn, unfolded once, for the method that carries it out step by step. */
  lemma NextTurnDeals(r: Room, drawerRoll: real, wordRolls: seq<real>)
    requires IsRoll(drawerRoll) && |wordRolls| == 3 && AllRolls(wordRolls)
    ensures var drawerId := PickDrawer(r.players, drawerRoll);
      NextTurn(r, drawerRoll, wordRolls) ==
      r.(players := DealAll(r.players, drawerId), currentDrawerId := drawerId, strokeHistory := [],
         status := SelectingWord, wordChoices := DrawWords(wordRolls))
  {
  }

  /** Dealing keeps the keys, so a Map's keys stay distinct. */
  lemma DealKeepsKeys(players: seq<Seat>, drawerId: Option<string>)
    requires DistinctKeys(players)
    ensures DistinctKeys(DealAll(players, drawerId))
  {
  }

  /**
   * setWordAndStartRound on one room: the word, its hint (one placeholder
   * per character, spaces kept, glyphs joined by spaces), PLAYING, and a
   * deadline `now + roundTimeMS`.
   */
  function StartRound(r: Room, word: string, now: int): (d: Room)
    ensures d == r.(currentWord := Some(word), currentHint := d.currentHint, status := Playing,
                    roundEndTime := d.roundEndTime)
    ensures d.roundEndTime - now == r.config.roundTimeMs
    ensures d.currentHint == Some(Mask(word))
    ensures word != [] ==> |d.currentHint.value| == 2 * |word| - 1
    ensures forall j :: 0 <= j < |d.currentHint.value| ==> d.currentHint.value[j] in {'_', ' '}
  {
    r.(currentWord := Some(word), currentHint := Some(Mask(word)), status := Playing,
       roundEndTime := now + r.config.roundTimeMs)
  }

  /** Every player who is not the drawer has guessed (vacuous without such players). */
  predicate AllGuessed(players: seq<Seat>) {
    forall i :: 0 <= i < |players| && !players[i].player.isDrawer ==> players[i].player.hasGuessedCorrectly
  }

  /** The player sits in some entry of the Map. */
  predicate Seated(players: seq<Seat>, p: Player) {
    exists i :: 0 <= i < |players| && players[i].player == p
  }

  /** `Array.from(players.values()).filter(p => !p.isDrawer)`. */
  function Guessers(players: seq<Seat>): (r: seq<Player>)
    ensures forall p :: p in r <==> Seated(players, p) && !p.isDrawer
  {
    if players == [] then []
    else
      var rest := Guessers(players[1..]);
      assert forall p :: Seated(players, p) <==> p == players[0].player || Seated(players[1..], p) by {
        forall p | Seated(players, p)
          ensures p == players[0].player || Seated(players[1..], p)
        {
          var i :| 0 <= i < |players| && players[i].player == p;
          if i > 0 { assert players[1..][i - 1].player == p; }
        }
      }
      if players[0].player.isDrawer then rest else [players[0].player] + rest
  }

  /** `guessers.every(p => p.hasGuessedCorrectly)`. */
  function EveryGuessed(guessers: seq<Player>): (b: bool)
    ensures b <==> forall p :: p in guessers ==> p.hasGuessedCorrectly
  {
    guessers == [] || (guessers[0].hasGuessedCorrectly && EveryGuessed(guessers[1..]))
  }

  /**
   * checkIfRoundShouldEnd on one room: ROUND_OVER exactly when every
   * non-drawer has guessed, so also when there is no non-drawer at all.
   */
  function EndIfAllGuessed(r: Room): (d: Room)
    ensures d == r.(status := d.status)
    ensures d.status == (if AllGuessed(r.players) then RoundOver else r.status)
    ensures (forall i :: 0 <= i < |r.players| ==> r.players[i].player.isDrawer) ==> d.status == RoundOver
  {
    var guessers := Guessers(r.players);
    assert EveryGuessed(guessers) <==> AllGuessed(r.players) by {
      if EveryGuessed(guessers) {
        forall i | 0 <= i < |r.players| && !r.players[i].player.isDrawer
          ensures r.players[i].player.hasGuessedCorrectly
        {
          assert Seated(r.players, r.players[i].player);
        }
      }
    }
    if EveryGuessed(guessers) then r.(status := RoundOver) else r
  }

  /** A guess is heard: a truthy current word and status PLAYING. */
  predicate IsAccepting(r: Room) {
    r.currentWord.Some? && r.currentWord.value != "" && r.status == Playing
  }

  /** The player on the socket is known, does not draw and has not guessed yet, while a guess is heard. */
  predicate CanGuess(r: Room, socketId: string) {
    && IsAccepting(r)
    && Lookup(r.players, socketId).Some?
    && !r.players[Lookup(r.players, socketId).value].player.hasGuessedCorrectly
    && !r.players[Lookup(r.players, socketId).value].player.isDrawer
  }

  /** `secret.includes(cleanGuess) && secret.length - cleanGuess.length < 2` (no Math.abs here). */
  predicate IsNearGuess(text: string, word: string) {
    var clean, secret := Clean(text), ToLower(word);
    Includes(secret, clean) && |secret| - |clean| < 2
  }

  /** Dropping Math.abs changes nothing: a contained guess is never longer than the secret. */
  lemma NearGuessAgreesWithRitual(text: string, word: string)
    ensures IsNearGuess(text, word) <==> IsNear(text, word)
  {
    var clean, secret := Clean(text), ToLower(word);
    if Includes(secret, clean) {
      var i :| Occurs(secret, clean, i);
      assert |clean| <= |secret|;
    }
  }

  /** The sum of every player's cumulative score. */
  function TotalScore(players: seq<Seat>): int {
    if players == [] then 0 else players[0].player.score + TotalScore(players[1..])
  }

  lemma {:induction false} TotalScoreAfterUpdate(players: seq<Seat>, k: nat, s: Seat)
    requires k < |players|
    ensures TotalScore(players[k := s]) == TotalScore(players) - players[k].player.score + s.player.score
  {
    if k > 0 {
      assert players[k := s][1..] == players[1..][k - 1 := s];
      TotalScoreAfterUpdate(players[1..], k - 1, s);
    }
  }

  /** The guesser's share of a correct guess. */
  function Scored(s: Seat): Seat {
    s.(player := s.player.(score := s.player.score + GuessPoints, scoreThisRound := GuessPoints,
                           hasGuessedCorrectly := true))
  }

  /**
   * The score changes of a correct guess by the player at index i: the
   * guesser gets the points, then the drawer (looked up by the drawer id)
   * gets the bonus on the cumulative score only.
   */
  function Credit(r: Room, i: nat): (d: Room)
    requires i < |r.players|
    ensures d == r.(players := d.players) && |d.players| == |r.players|
    ensures d.players == Reward(r.players[i := Scored(r.players[i])], r.currentDrawerId)
    ensures forall j :: 0 <= j < |r.players| ==>
      d.players[j].key == r.players[j].key && d.players[j].player.isDrawer == r.players[j].player.isDrawer
    ensures forall j :: 0 <= j < |r.players| && j != i ==>
      d.players[j].player.hasGuessedCorrectly == r.players[j].player.hasGuessedCorrectly
    ensures d.players[i].player.hasGuessedCorrectly && d.players[i].player.scoreThisRound == GuessPoints
    ensures LookupDrawer(r.players, r.currentDrawerId) != Some(i) ==> d.players[i] == Scored(r.players[i])
    ensures forall j :: 0 <= j < |r.players| && j != i && Some(j) != LookupDrawer(r.players, r.currentDrawerId) ==>
      d.players[j] == r.players[j]
    ensures TotalScore(d.players) ==
      TotalScore(r.players) + GuessPoints + (if LookupDrawer(r.players, r.currentDrawerId).Some? then DrawerBonus else 0)
  {
    var scored := r.players[i := Scored(r.players[i])];
    TotalScoreAfterUpdate(r.players, i, Scored(r.players[i]));
    if r.currentDrawerId.Some? then
      SameKeysSameLookup(scored, r.players, r.currentDrawerId.value);
      r.(players := Reward(scored, r.currentDrawerId))
    else
      assert Reward(scored, r.currentDrawerId) == scored;
      r.(players := scored)
  }

  /**
   * `const drawer = players.get(currentDrawerId); if (drawer) drawer.score += 10`:
   * only the drawer's cumulative score changes, and only when the drawer is seated.
   */
  function Reward(players: seq<Seat>, drawerId: Option<string>): (r: seq<Seat>)
    ensures |r| == |players|
    ensures forall j :: 0 <= j < |players| ==>
      r[j].key == players[j].key && r[j].player.(score := 0) == players[j].player.(score := 0)
    ensures forall j :: 0 <= j < |players| && Some(j) != LookupDrawer(players, drawerId) ==> r[j] == players[j]
    ensures LookupDrawer(players, drawerId).Some? ==> var k := LookupDrawer(players, drawerId).value;
      r[k] == players[k].(player := players[k].player.(score := players[k].player.score + DrawerBonus))
    ensures TotalScore(r) == TotalScore(players) + (if LookupDrawer(players, drawerId).Some? then DrawerBonus else 0)
  {
    match LookupDrawer(players, drawerId)
    case None => players
    case Some(k) =>
      var drawer := players[k].(player := players[k].player.(score := players[k].player.score + DrawerBonus));
      TotalScoreAfterUpdate(players, k, drawer);
      players[k := drawer]
  }

  /**
   * processGuess on one room: the verdict and the room afterwards. Only
   * CORRECT changes anything: Credit, then checkIfRoundShouldEnd.
   */
  function Judge(r: Room, socketId: string, text: string): (g: (GuessResult, Room))
    ensures g.0.kind != Correct ==> g.1 == r && g.0.points == 0
    ensures g.0.kind == AlreadyGuessed <==>
      IsAccepting(r) && Lookup(r.players, socketId).Some? &&
      (r.players[Lookup(r.players, socketId).value].player.hasGuessedCorrectly ||
       r.players[Lookup(r.players, socketId).value].player.isDrawer)
    ensures g.0.kind == Correct <==> CanGuess(r, socketId) && IsExact(text, r.currentWord.value)
    ensures g.0.kind == Close <==>
      CanGuess(r, socketId) && !IsExact(text, r.currentWord.value) && IsNearGuess(text, r.currentWord.value)
    ensures g.0.kind == Correct ==>
      g.0.points == GuessPoints && g.1 == EndIfAllGuessed(Credit(r, Lookup(r.players, socketId).value))
  {
    if !IsAccepting(r) then (GuessResult(Wrong, 0, text), r)
    else match Lookup(r.players, socketId)
      case None => (GuessResult(Wrong, 0, text), r)
      case Some(i) =>
        var player := r.players[i].player;
        if player.hasGuessedCorrectly || player.isDrawer then
          (GuessResult(AlreadyGuessed, 0, text), r)
        else if IsExact(text, r.currentWord.value) then
          (GuessResult(Correct, GuessPoints, "Guessed the word!"), EndIfAllGuessed(Credit(r, i)))
        else if IsNearGuess(text, r.currentWord.value) then
          (GuessResult(Close, 0, "'" + text + "' is close!"), r)
        else
          (GuessResult(Wrong, 0, text), r)
  }

  /** A player is scored at most once per round: after CORRECT, the same socket never scores again. */
  lemma ScoredAtMostOnce(r: Room, socketId: string, first: string, second: string)
    requires Judge(r, socketId, first).0.kind == Correct
    ensures Judge(Judge(r, socketId, first).1, socketId, second).0.kind in {AlreadyGuessed, Wrong}
  {
    var i := Lookup(r.players, socketId).value;
    var d := Judge(r, socketId, first).1;
    SameKeysSameLookup(r.players, d.players, socketId);
  }

  /** The last non-drawer to guess ends the round. */
  lemma LastGuessEndsRound(r: Room, socketId: string, text: string)
    requires CanGuess(r, socketId) && IsExact(text, r.currentWord.value)
    requires forall j :: (0 <= j < |r.players| && j != Lookup(r.players, socketId).value &&
      !r.players[j].player.isDrawer) ==> r.players[j].player.hasGuessedCorrectly
    ensures Judge(r, socketId, text).1.status == RoundOver
  {
    var d := Credit(r, Lookup(r.players, socketId).value);
    assert AllGuessed(d.players);
  }

  /**
   * The store game.service reads its rooms from. Each room's players form a
   * Map, so their keys are distinct and every `get` by a seated player's key
   * finds that player (LookupFindsEntry).
   */
  class Table {
    var rooms: map<string, Room>

    ghost predicate Valid()
      reads this
    {
      forall id :: id in rooms ==> DistinctKeys(rooms[id].players)
    }

    constructor ()
      ensures Valid() && rooms == map[]
    {
      rooms := map[];
    }
  }

  /** addStroke: appends the stroke to a stored room that is PLAYING; otherwise nothing changes. */
  method AddStroke(t: Table, id: string, stroke: Stroke)
    requires t.Valid()
    modifies t
    ensures t.Valid()
    ensures id in old(t.rooms) && old(t.rooms)[id].status == Playing ==>
      var r := old(t.rooms)[id];
      t.rooms == old(t.rooms)[id := r.(strokeHistory := r.strokeHistory + [stroke])]
    ensures !(id in old(t.rooms) && old(t.rooms)[id].status == Playing) ==> t.rooms == old(t.rooms)
  {
    if id in t.rooms && t.rooms[id].status == Playing {
      var r := t.rooms[id];
      t.rooms := t.rooms[id := r.(strokeHistory := r.strokeHistory + [stroke])];
    }
  }

  /** clearCanvas: empties the stroke history of a stored room, whatever its status. */
  method ClearCanvas(t: Table, id: string)
    requires t.Valid()
    modifies t
    ensures t.Valid()
    ensures id in old(t.rooms) ==> t.rooms == old(t.rooms)[id := old(t.rooms)[id].(strokeHistory := [])]
    ensures id !in old(t.rooms) ==> t.rooms == old(t.rooms)
  {
    if id in t.rooms {
      t.rooms := t.rooms[id := t.rooms[id].(strokeHistory := [])];
    }
  }

  /**
   * startNextTurn: false for an unknown room; otherwise the room is
   * replaced by NextTurn's. The per-player reset is the source's `forEach`.
   */
  method StartNextTurn(t: Table, id: string, drawerRoll: real, wordRolls: seq<real>) returns (ok: bool)
    requires t.Valid()
    requires IsRoll(drawerRoll) && |wordRolls| == 3 && AllRolls(wordRolls)
    modifies t
    ensures t.Valid()
    ensures ok <==> id in old(t.rooms)
    ensures !ok ==> t.rooms == old(t.rooms)
    ensures ok ==> t.rooms == old(t.rooms)[id := NextTurn(old(t.rooms)[id], drawerRoll, wordRolls)]
  {
    if id !in t.rooms {
      return false;
    }
    var r := t.rooms[id];
    var drawerId := PickDrawer(r.players, drawerRoll);
    var players := r.players;
    var i := 0;
    while i < |players|
      invariant 0 <= i <= |players| == |r.players|
      invariant forall j :: 0 <= j < i ==> players[j] == Dealt(r.players[j], drawerId)
      invariant forall j :: i <= j < |players| ==> players[j] == r.players[j]
    {
      players := players[i := Dealt(players[i], drawerId)];
      i := i + 1;
    }
    assert players == DealAll(r.players, drawerId);
    DealKeepsKeys(r.players, drawerId);
    NextTurnDeals(r, drawerRoll, wordRolls);
    var next := r.(players := players, currentDrawerId := drawerId, strokeHistory := [],
                   status := SelectingWord, wordChoices := DrawWords(wordRolls));
    t.rooms := t.rooms[id := next];
    ok := true;
  }

  /**
   * startGame: false, and nothing changes, for an unknown room or fewer
   * than two players; otherwise startNextTurn. The reset copy the source
   * builds first is never stored, so it is not modelled.
   */
  method StartGame(t: Table, id: string, drawerRoll: real, wordRolls: seq<real>) returns (ok: bool)
    requires t.Valid()
    requires IsRoll(drawerRoll) && |wordRolls| == 3 && AllRolls(wordRolls)
    modifies t
    ensures t.Valid()
    ensures ok <==> id in old(t.rooms) && |old(t.rooms)[id].players| >= 2
    ensures !ok ==> t.rooms == old(t.rooms)
    ensures ok ==> t.rooms == old(t.rooms)[id := NextTurn(old(t.rooms)[id], drawerRoll, wordRolls)]
  {
    if id !in t.rooms || |t.rooms[id].players| < 2 {
      return false;
    }
    ok := StartNextTurn(t, id, drawerRoll, wordRolls);
  }

  /** setWordAndStartRound: a stored room is replaced by StartRound's; `now` stands for `Date.now()`. */
  method SetWordAndStartRound(t: Table, id: string, word: string, now: int)
    requires t.Valid()
    modifies t
    ensures t.Valid()
    ensures id in old(t.rooms) ==> t.rooms == old(t.rooms)[id := StartRound(old(t.rooms)[id], word, now)]
    ensures id !in old(t.rooms) ==> t.rooms == old(t.rooms)
  {
    if id in t.rooms {
      t.rooms := t.rooms[id := StartRound(t.rooms[id], word, now)];
    }
  }

  /** processGuess: WRONG for an unknown room, otherwise Judge's verdict and room. */
  method ProcessGuess(t: Table, id: string, socketId: string, text: string) returns (g: GuessResult)
    requires t.Valid()
    modifies t
    ensures t.Valid()
    ensures id !in old(t.rooms) ==> g == GuessResult(Wrong, 0, text) && t.rooms == old(t.rooms)
    ensures id in old(t.rooms) ==>
      var j := Judge(old(t.rooms)[id], socketId, text);
      g == j.0 && t.rooms == old(t.rooms)[id := j.1]
  {
    if id !in t.rooms {
      return GuessResult(Wrong, 0, text);
    }
    var j := Judge(t.rooms[id], socketId, text);
    g := j.0;
    t.rooms := t.rooms[id := j.1];
  }

  /** checkIfRoundShouldEnd: a stored room is replaced by EndIfAllGuessed's. */
  method CheckIfRoundShouldEnd(t: Table, id: string)
    requires t.Valid()
    modifies t
    ensures t.Valid()
    ensures id in old(t.rooms) ==> t.rooms == old(t.rooms)[id := EndIfAllGuessed(old(t.rooms)[id])]
    ensures id !in old(t.rooms) ==> t.rooms == old(t.rooms)
  {
    if id in t.rooms {
      t.rooms := t.rooms[id := EndIfAllGuessed(t.rooms[id])];
    }
  }

  /**
   * getGameState: null for an unknown room; otherwise the room with the
   * players as a list in Map order and the word and the choices nulled.
   */
  function GetGameState(t: Table, id: string): (s: Option<GameState>)
    reads t
    ensures s.None? <==> id !in t.rooms
    ensures s.Some? ==> var r := t.rooms[id];
      && s.value.currentWord.None? && s.value.wordChoices.None?
      && |s.value.players| == |r.players|
      && (forall i :: 0 <= i < |r.players| ==> s.value.players[i] == r.players[i].player)
      && s.value.chamberId == r.chamberId && s.value.status == r.status
      && s.value.currentDrawerId == r.currentDrawerId && s.value.currentHint == r.currentHint
      && s.value.roundEndTime == r.roundEndTime && s.value.strokeHistory == r.strokeHistory
      && s.value.config == r.config && s.value.createdAt == r.createdAt
  {
    if id !in t.rooms then None
    else
      var r := t.rooms[id];
      var players := seq(|r.players|, i requires 0 <= i < |r.players| => r.players[i].player);
      Some(GameState(r.chamberId, players, r.status, r.currentDrawerId, None, r.currentHint, None,
                     r.roundEndTime, r.strokeHistory, r.config, r.createdAt))
  }
}

/** The client side of the cards game (`globalGame` in the browser): the
    handlers for a server update, for joining a game, for another player
    joining and for the end of the game, and the projection of the dealt
    cards onto the view of one player (`pData`). */
module CardsGameClient {
  import opened Wrappers
  import opened SeqUtil
  import opened CardsGameCore

  /** How a handler finished: normally, or by a thrown `TypeError`. */
  datatype Outcome = Done | Thrown(error: string)

  /** The errors the handlers throw, as JavaScript words them. */
  const MessageOfNull := "TypeError: Cannot set property 'message' of null"
  const ReadIdOfUndefined := "TypeError: Cannot read property 'id' of undefined"
  const SetIdOfUndefined := "TypeError: Cannot set property 'id' of undefined"
  const ReadDataOfUndefined := "TypeError: Cannot read property 'subject_information' of undefined"
  const SetRoleOfNull := "TypeError: Cannot set property 'role' of null"

  /** The part of `globalGame.data` the handlers touch:
      `subject_information.score`. */
  datatype DataObj = DataObj(score: Option<int>)

  /** The hands of `pData` as seen by one player. */
  datatype Hands = Hands(isMyTurn: bool, myHand: seq<int>, theirHand: seq<int>)

  /** `pData`: the deck and the table, and the hands when the role is known. */
  datatype PData = PData(deck: seq<int>, onTable: seq<int>, hands: Option<Hands>)

  // ---------------------------------------------------------------------------
  // The view of one player

  /** `pData` for a role: player 1 moves first and sees hand 1 as its own,
      player 2 the other way round; any other role gets no hands. */
  function Project(cards: Cards, role: string): (p: PData)
    ensures p.deck == cards.deck && p.onTable == cards.onTable
    ensures p.hands.Some? <==> role == "player1" || role == "player2"
  {
    var hands :=
      if role == "player1" then Some(Hands(true, cards.p1Hand, cards.p2Hand))
      else if role == "player2" then Some(Hands(false, cards.p2Hand, cards.p1Hand))
      else None;
    PData(cards.deck, cards.onTable, hands)
  }

  /** The two players see the same deck and table; each one's hand is the
      other's "their hand", exactly one of them is told it is their turn,
      player 1's own hand is hand 1, and each view holds every card of the
      deal once. */
  lemma PlayerViews(cards: Cards)
    ensures var v1, v2 := Project(cards, "player1"), Project(cards, "player2");
      v1.hands.Some? && v2.hands.Some? &&
      v1.deck == v2.deck && v1.onTable == v2.onTable &&
      v1.hands.value.myHand == cards.p1Hand && v2.hands.value.myHand == cards.p2Hand &&
      v1.hands.value.myHand == v2.hands.value.theirHand &&
      v2.hands.value.myHand == v1.hands.value.theirHand &&
      v1.hands.value.isMyTurn != v2.hands.value.isMyTurn && v1.hands.value.isMyTurn
  {
  }

  /** Every card of the deal appears in a player's view as often as in the deal. */
  lemma {:induction false} ViewKeepsCards(cards: Cards, role: string)
    requires role == "player1" || role == "player2"
    ensures var v := Project(cards, role);
      multiset(v.deck + v.onTable + v.hands.value.myHand + v.hands.value.theirHand) ==
      multiset(cards.deck + cards.onTable + cards.p1Hand + cards.p2Hand)
  {
    var v := Project(cards, role);
    var h := v.hands.value;
    assert multiset(v.deck + v.onTable + h.myHand + h.theirHand) ==
      multiset(v.deck) + multiset(v.onTable) + multiset(h.myHand) + multiset(h.theirHand);
    assert multiset(cards.deck + cards.onTable + cards.p1Hand + cards.p2Hand) ==
      multiset(cards.deck) + multiset(cards.onTable) + multiset(cards.p1Hand) + multiset(cards.p2Hand);
  }

  // ---------------------------------------------------------------------------
  // The player list of the client copy

  /** The entry for a player the client knows only by position. */
  const Placeholder := PlayerEntry(None, None, Some(GamePlayer(None, "")))

  /** `n` placeholder entries. */
  function Placeholders(n: nat): (r: seq<PlayerEntry>)
    ensures |r| == n && forall k :: 0 <= k < n ==> r[k] == Placeholder
  {
    seq(n, _ => Placeholder)
  }

  /** One more `unshift` of a placeholder. */
  lemma PlaceholderInFront(k: nat, s: seq<PlayerEntry>)
    ensures [Placeholder] + (Placeholders(k) + s) == Placeholders(k + 1) + s
  {
    assert [Placeholder] + Placeholders(k) == Placeholders(k + 1);
  }

  /** The ids of a player list, in order. */
  function Ids(players: seq<PlayerEntry>): seq<Option<string>>
  {
    Apply(players, (e: PlayerEntry) => e.id)
  }

  /** The local list with the ids of the update copied over position by
      position; entries past the end of the update keep their ids. */
  function CopyIds(local: seq<PlayerEntry>, incoming: seq<PlayerEntry>): (r: seq<PlayerEntry>)
    ensures |r| == |local|
    ensures forall k :: 0 <= k < |r| ==> r[k].instance == local[k].instance && r[k].player == local[k].player
    ensures forall k :: 0 <= k < |r| ==> r[k].id == (if k < |incoming| then incoming[k].id else local[k].id)
  {
    seq(|local|, k requires 0 <= k < |local| => if k < |incoming| then local[k].(id := incoming[k].id) else local[k])
  }

  /** With lists of one length, the copy has exactly the ids of the update and
      keeps the local player objects; copying again changes nothing. */
  lemma {:induction false} CopyIdsMatches(local: seq<PlayerEntry>, incoming: seq<PlayerEntry>)
    requires |local| == |incoming|
    ensures Ids(CopyIds(local, incoming)) == Ids(incoming)
    ensures CopyIds(CopyIds(local, incoming), incoming) == CopyIds(local, incoming)
  {
    var r := CopyIds(local, incoming);
    assert forall k :: 0 <= k < |r| ==> Ids(r)[k] == Ids(incoming)[k];
    var r2 := CopyIds(r, incoming);
    assert forall k :: 0 <= k < |r| ==> r2[k] == r[k];
  }

  /** Copying only the first `i` ids, where `i` is the shorter length, is the
      same as copying them all. */
  lemma CopyIdsPrefix(local: seq<PlayerEntry>, incoming: seq<PlayerEntry>, i: int)
    requires i == |local| <= |incoming| || i == |incoming| <= |local|
    ensures CopyIds(local, incoming[..i]) == CopyIds(local, incoming)
  {
    var a, b := CopyIds(local, incoming[..i]), CopyIds(local, incoming);
    assert forall k :: 0 <= k < |a| ==> a[k] == b[k];
  }

  /** One more step of the copy. */
  lemma CopyIdsStep(local: seq<PlayerEntry>, incoming: seq<PlayerEntry>, i: int)
    requires 0 <= i < |local| && i < |incoming|
    ensures var r := CopyIds(local, incoming[..i]);
      CopyIds(local, incoming[..i + 1]) == r[i := r[i].(id := incoming[i].id)]
  {
    var r := CopyIds(local, incoming[..i]);
    var a, b := CopyIds(local, incoming[..i + 1]), r[i := r[i].(id := incoming[i].id)];
    assert forall k :: 0 <= k < |a| ==> a[k] == b[k];
  }

  /** `get_player(id)` finds a player object (neither a missing entry nor a
      `null` player). */
  predicate KnowsPlayer(players: seq<PlayerEntry>, id: string)
  {
    var r := GetPlayer(players, Some(id));
    r.Ok? && r.value.Some?
  }

  /** The first entry with the id, or -1 (`_.find`, by position). */
  function FirstWithId(players: seq<PlayerEntry>, id: Option<string>): (i: int)
    ensures -1 <= i < |players|
    ensures i == -1 <==> forall k :: 0 <= k < |players| ==> players[k].id != id
    ensures 0 <= i ==> players[i].id == id && forall k :: 0 <= k < i ==> players[k].id != id
  {
    if players == [] then -1
    else if players[0].id == id then 0
    else
      var i := FirstWithId(players[1..], id);
      assert forall k :: 1 <= k < |players| ==> players[k] == players[1..][k - 1];
      if i == -1 then -1 else i + 1
  }

  /** `get_player` reads the entry `FirstWithId` points at. */
  lemma FirstWithIdIsGetPlayer(players: seq<PlayerEntry>, id: Option<string>)
    ensures var i, r := FirstWithId(players, id), GetPlayer(players, id);
      (r.Ok? <==> 0 <= i) && (r.Ok? ==> r.value == players[i].player)
  {
    var i, r := FirstWithId(players, id), GetPlayer(players, id);
    if r.Ok? {
      var j :| 0 <= j < |players| && players[j].id == id && r.value == players[j].player &&
        forall k :: 0 <= k < j ==> players[k].id != id;
      assert !(i < j) && !(j < i);
    }
  }

  /** Entries put in front with no id do not change which player an id
      finds. */
  lemma {:induction false} PlaceholdersKeepLookup(n: nat, players: seq<PlayerEntry>, id: string)
    ensures GetPlayer(Placeholders(n) + players, Some(id)) == GetPlayer(players, Some(id))
  {
    if n > 0 {
      var s := Placeholders(n) + players;
      assert s[1..] == Placeholders(n - 1) + players;
      PlaceholdersKeepLookup(n - 1, players, id);
    } else {
      assert Placeholders(n) + players == players;
    }
  }

  /** The score recorded at the end of the game. */
  function Score(isWon: bool): (s: int)
    ensures s == 100 <==> isWon
    ensures s == 50 <==> !isWon
  {
    if isWon then 100 else 50
  }

  // ---------------------------------------------------------------------------
  // The client copy and its handlers

  class ClientGame {
    const myId: string
    var myRole: string
    var players: seq<PlayerEntry>
    var gameStarted: bool
    var playersThreshold: int
    var playerCount: int
    /** `roundNum`: `None` once an update without a round number arrived. */
    var roundNum: Option<int>
    /** Whether `data` has been set (`_.has(globalGame, 'data')`), and its value. */
    var hasData: bool
    var data: Option<DataObj>
    var won: Option<bool>

    /** The client copy before any message: its own placeholder entry. */
    constructor (id: string)
      ensures myId == id && myRole == "" && players == [Placeholder]
      ensures !gameStarted && playersThreshold == 2 && playerCount == 0 && roundNum == Some(-1)
      ensures !hasData && data.None? && won.None?
    {
      myId := id;
      myRole := "";
      players := [Placeholder];
      gameStarted := false;
      playersThreshold := 2;
      playerCount := 0;
      roundNum := Some(-1);
      hasData := false;
      data := None;
      won := None;
    }

    /** `client_onserverupdate_received(state)`. The ids of the update are
        copied onto the local list pairwise; when the two lists differ in
        length the pairing reaches a missing entry and throws after copying
        the common part. With more than one player the client then looks
        itself up. The counters are taken over, `data` only from the first
        update, and the view is handed to the graphics once the game has
        started. `round` and `dataObj` are the update's `roundNum` and
        `dataObj`, which the server's snapshot does not carry. */
    method OnServerUpdate(state: Snapshot, round: Option<int>, dataObj: Option<DataObj>)
      returns (outcome: Outcome, view: Option<PData>)
      modifies this`players, this`gameStarted, this`playersThreshold, this`playerCount, this`roundNum
      modifies this`hasData, this`data
      ensures players == CopyIds(old(players), state.players)
      ensures outcome.Thrown? <==>
        |state.players| != |old(players)| || (|state.players| > 1 && !KnowsPlayer(players, myId))
      ensures outcome.Thrown? ==> (view.None? &&
        gameStarted == old(gameStarted) && playersThreshold == old(playersThreshold) &&
        playerCount == old(playerCount) && roundNum == old(roundNum) && hasData == old(hasData) && data == old(data))
      ensures outcome == Done ==>
        gameStarted == state.gs && playersThreshold == state.pt && playerCount == state.pc && roundNum == round
      ensures outcome == Done ==> hasData && data == (if old(hasData) then old(data) else dataObj)
      ensures outcome == Done ==> view == (if state.gs then Some(Project(state.cards, myRole)) else None)
    {
      var zipped := ZipIds(state.players);
      if zipped.Thrown? {
        return zipped, None;
      }
      if |state.players| > 1 {
        var me := GetPlayer(players, Some(myId));
        if me.Err? {
          return Thrown(me.msg), None;
        }
        if me.value.None? {
          return Thrown(MessageOfNull), None;
        }
      }
      gameStarted := state.gs;
      playersThreshold := state.pt;
      playerCount := state.pc;
      roundNum := round;
      if !hasData {
        hasData := true;
        data := dataObj;
      }
      outcome := Done;
      view := if gameStarted then Some(Project(state.cards, myRole)) else None;
    }

    /** The `_.zip` loop: copies each incoming id onto the local entry at
        the same position. A shorter list on either side leaves `undefined`
        in the pair, which throws once the common prefix is copied. */
    method ZipIds(incoming: seq<PlayerEntry>) returns (outcome: Outcome)
      modifies this`players
      ensures players == CopyIds(old(players), incoming)
      ensures outcome.Thrown? <==> |incoming| != |old(players)|
      ensures |incoming| < |old(players)| ==> outcome == Thrown(ReadIdOfUndefined)
      ensures |old(players)| < |incoming| ==> outcome == Thrown(SetIdOfUndefined)
    {
      ghost var local := players;
      var i := 0;
      while i < |incoming| || i < |players|
        invariant 0 <= i <= |incoming| && i <= |players| == |local|
        invariant players == CopyIds(local, incoming[..i])
        decreases |incoming| + |players| - i
      {
        if i == |incoming| {
          CopyIdsPrefix(local, incoming, i);
          return Thrown(ReadIdOfUndefined);
        }
        if i == |players| {
          CopyIdsPrefix(local, incoming, i);
          return Thrown(SetIdOfUndefined);
        }
        CopyIdsStep(local, incoming, i);
        players := players[i := players[i].(id := incoming[i].id)];
        i := i + 1;
      }
      assert incoming[..i] == incoming;
      outcome := Done;
    }

    /** `client_onjoingame(num_players, role)`: records the role on the
        client's own player object, then puts `num_players - 1` placeholder
        entries in front of the list, one `unshift` at a time. */
    method JoinGame(numPlayers: int, role: string) returns (outcome: Outcome)
      modifies this`myRole, this`players
      ensures myRole == role
      ensures var r := SetRole(old(players), myId, role);
        (r.Err? ==> outcome == Thrown(r.msg) && players == old(players)) &&
        (r.Ok? ==> outcome == Done && players == Placeholders(if numPlayers > 1 then numPlayers - 1 else 0) + r.value)
    {
      myRole := role;
      var named := SetRole(players, myId, role);
      if named.Err? {
        return Thrown(named.msg);
      }
      players := named.value;
      PrependPlaceholders(if numPlayers > 1 then numPlayers - 1 else 0);
      outcome := Done;
    }

    /** `count` placeholder entries put in front, one `unshift` at a time. */
    method PrependPlaceholders(count: nat)
      modifies this`players
      ensures players == Placeholders(count) + old(players)
    {
      var k := 0;
      while k < count
        invariant 0 <= k <= count
        invariant players == Placeholders(k) + old(players)
      {
        PlaceholderInFront(k, old(players));
        players := [Placeholder] + players;
        k := k + 1;
      }
    }

    /** The `add_player` message: a new entry with that id at the end. */
    method AddPlayer(id: string)
      modifies this`players
      ensures players == old(players) + [PlayerEntry(Some(id), None, Some(GamePlayer(None, "")))]
    {
      players := players + [PlayerEntry(Some(id), None, Some(GamePlayer(None, "")))];
    }

    /** The `gameEnd` message: records the outcome and the score; without a
        data object the assignment throws. */
    method GameEnd(isWon: bool) returns (outcome: Outcome)
      modifies this`won, this`data
      ensures won == Some(isWon)
      ensures old(data).Some? ==> outcome == Done && data == Some(old(data).value.(score := Some(Score(isWon))))
      ensures old(data).None? ==> outcome.Thrown? && data.None?
    {
      won := Some(isWon);
      if data.None? {
        return Thrown(ReadDataOfUndefined);
      }
      data := Some(data.value.(score := Some(Score(isWon))));
      outcome := Done;
    }
  }

  /** `get_player(my_id).role = role` on a player list: a `TypeError` when
      the lookup finds no entry or a `null` player, otherwise the list with
      the role set on the first entry with that id. */
  function SetRole(players: seq<PlayerEntry>, id: string, role: string): (r: Result<seq<PlayerEntry>>)
    ensures r.Ok? <==> KnowsPlayer(players, id)
    ensures r.Ok? ==> |r.value| == |players| && Ids(r.value) == Ids(players)
  {
    FirstWithIdIsGetPlayer(players, Some(id));
    var i := FirstWithId(players, Some(id));
    if i < 0 then Err(ReadPlayerOfUndefined)
    else if players[i].player.None? then Err(SetRoleOfNull)
    else
      var r := players[i := players[i].(player := Some(players[i].player.value.(role := role)))];
      assert forall k :: 0 <= k < |r| ==> Ids(r)[k] == Ids(players)[k];
      Ok(r)
  }

  /** After joining, the client's own lookup finds its player object with
      the new role and nothing else changed, however many placeholders were
      put in front. */
  lemma {:induction false} JoinedPlayerHasRole(players: seq<PlayerEntry>, myId: string, role: string, n: nat)
    requires KnowsPlayer(players, myId)
    ensures var r := SetRole(players, myId, role);
      var p := GetPlayer(players, Some(myId)).value.value;
      GetPlayer(Placeholders(n) + r.value, Some(myId)) == Ok(Some(p.(role := role)))
  {
    SetRoleLookup(players, myId, role);
    PlaceholdersKeepLookup(n, SetRole(players, myId, role).value, myId);
  }

  /** After `SetRole` the lookup of the same id finds the same player
      object, now with the new role. */
  lemma SetRoleLookup(players: seq<PlayerEntry>, myId: string, role: string)
    requires KnowsPlayer(players, myId)
    ensures var r := SetRole(players, myId, role);
      var p := GetPlayer(players, Some(myId)).value.value;
      r.Ok? && GetPlayer(r.value, Some(myId)) == Ok(Some(p.(role := role)))
  {
    FirstWithIdIsGetPlayer(players, Some(myId));
    var i := FirstWithId(players, Some(myId));
    var p := players[i].player.value;
    var named := SetRole(players, myId, role).value;
    assert named == players[i := players[i].(player := Some(p.(role := role)))];
    assert named[i].id == Some(myId);
    assert forall k :: 0 <= k < i ==> named[k].id == players[k].id;
    assert FirstWithId(named, Some(myId)) == i;
    FirstWithIdIsGetPlayer(named, Some(myId));
  }
}

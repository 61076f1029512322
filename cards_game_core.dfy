/** The cards game object (`game_core`): the authoritative deal made by the
    server copy, the placeholder state of a client copy, the round counter,
    and the player-list filters and the player packet sent with each update. */
module CardsGameCore {
  import opened Wrappers
  import opened SeqUtil

  /** `gameOptions`. */
  const CardsPerHand := 3
  const CardsOnTable := 4
  const ReshuffleProbability: real := 0.5

  /** Size of the deck of card values 0..51. */
  const DeckSize := 52

  /** Placeholder value of a card the client copy has not been told yet. */
  const HiddenCard := -1

  /** `game_player`: the socket handle it wraps (absent on a client) and its
      role name, initially empty. */
  datatype GamePlayer = GamePlayer(instance: Option<string>, role: string)

  /** An entry of `players`: a socket id (or `null`), a socket handle, and the
      game player object, which is `null` in a packet. */
  datatype PlayerEntry = PlayerEntry(id: Option<string>, instance: Option<string>, player: Option<GamePlayer>)

  /** `this.cards`. */
  datatype Cards = Cards(deck: seq<int>, onTable: seq<int>, p1Hand: seq<int>, p2Hand: seq<int>)

  /** The snapshot `server_send_update` stores in `state` and emits. */
  datatype Snapshot = Snapshot(gs: bool, pt: int, pc: int, players: seq<PlayerEntry>, cards: Cards)

  /** What `newRound` does besides updating the counter: either it ends the
      game by disconnecting the active players, or it sends an update to them. */
  datatype RoundEffect = Disconnected(players: seq<PlayerEntry>) | Advanced(recipients: seq<PlayerEntry>)

  // ---------------------------------------------------------------------------
  // Dealing by `splice`

  /** `s.splice(0, n)` on a value: the removed front and what is left. */
  function Splice(s: seq<int>, n: nat): (r: (seq<int>, seq<int>))
    ensures |r.0| == if n <= |s| then n else |s|
    ensures |r.0| + |r.1| == |s|
    ensures r.0 == s[..if n <= |s| then n else |s|]
    ensures r.0 + r.1 == s
  {
    var k := if n <= |s| then n else |s|;
    (s[..k], s[k..])
  }

  /** The deal the server copy makes from the shuffled deck: table, then
      hand 1, then hand 2, each taken from the front of what is left. */
  function Deal(shuffled: seq<int>): (c: Cards)
    ensures c.onTable + c.p1Hand + c.p2Hand + c.deck == shuffled
    ensures |shuffled| >= CardsOnTable + 2 * CardsPerHand ==>
      |c.onTable| == CardsOnTable && |c.p1Hand| == CardsPerHand && |c.p2Hand| == CardsPerHand &&
      |c.deck| == |shuffled| - CardsOnTable - 2 * CardsPerHand
  {
    var table := Splice(shuffled, CardsOnTable);
    var hand1 := Splice(table.1, CardsPerHand);
    var hand2 := Splice(hand1.1, CardsPerHand);
    assert hand1.1 == hand2.0 + hand2.1;
    assert table.1 == hand1.0 + hand2.0 + hand2.1;
    Cards(hand2.1, table.0, hand1.0, hand2.0)
  }

  /** Four consecutive pieces of a sequence without repetitions are each
      without repetitions and pairwise disjoint. */
  lemma DistinctPieces(a: seq<int>, b: seq<int>, h: seq<int>, d: seq<int>)
    requires Distinct(a + (b + (h + d)))
    ensures Distinct(a) && Distinct(b) && Distinct(h) && Distinct(d)
    ensures Disjoint(a, b) && Disjoint(a, h) && Disjoint(a, d)
    ensures Disjoint(b, h) && Disjoint(b, d) && Disjoint(h, d)
  {
    var bhd := b + (h + d);
    DistinctHalves(a, bhd);
    DistinctHalves(b, h + d);
    DistinctHalves(h, d);
    forall i, j | 0 <= i < |a| && 0 <= j < |b| ensures a[i] != b[j] {
      assert b[j] == bhd[j];
    }
    forall i, j | 0 <= i < |a| && 0 <= j < |h| ensures a[i] != h[j] {
      assert h[j] == bhd[|b| + j];
    }
    forall i, j | 0 <= i < |a| && 0 <= j < |d| ensures a[i] != d[j] {
      assert d[j] == bhd[|b| + |h| + j];
    }
    forall i, j | 0 <= i < |b| && 0 <= j < |h| ensures b[i] != h[j] {
      assert h[j] == (h + d)[j];
    }
    forall i, j | 0 <= i < |b| && 0 <= j < |d| ensures b[i] != d[j] {
      assert d[j] == (h + d)[|h| + j];
    }
  }

  /** The server's deal: 4 table cards, two hands of 3 and a deck of 42,
      each without repetitions and pairwise disjoint. */
  lemma DealPartitions(shuffled: seq<int>)
    requires IsPermutationOf(shuffled, Range(0, DeckSize))
    ensures var c := Deal(shuffled);
      |c.onTable| == 4 && |c.p1Hand| == 3 && |c.p2Hand| == 3 && |c.deck| == 42 &&
      Distinct(c.onTable) && Distinct(c.p1Hand) && Distinct(c.p2Hand) && Distinct(c.deck) &&
      Disjoint(c.onTable, c.p1Hand) && Disjoint(c.onTable, c.p2Hand) && Disjoint(c.onTable, c.deck) &&
      Disjoint(c.p1Hand, c.p2Hand) && Disjoint(c.p1Hand, c.deck) && Disjoint(c.p2Hand, c.deck)
  {
    PermutationSameLength(shuffled, Range(0, DeckSize));
    var c := Deal(shuffled);
    var a, b, h, d := c.onTable, c.p1Hand, c.p2Hand, c.deck;
    RangeDistinct(0, DeckSize);
    PermutationKeepsDistinct(shuffled, Range(0, DeckSize));
    assert a + (b + (h + d)) == shuffled;
    DistinctPieces(a, b, h, d);
  }

  /** Together the four collections of the deal are exactly the values 0..51. */
  lemma DealIsWholeDeck(shuffled: seq<int>)
    requires IsPermutationOf(shuffled, Range(0, DeckSize))
    ensures var c := Deal(shuffled);
      multiset(c.onTable + c.p1Hand + c.p2Hand + c.deck) == multiset(Range(0, DeckSize)) &&
      forall x :: (x in c.onTable || x in c.p1Hand || x in c.p2Hand || x in c.deck) <==> 0 <= x < DeckSize
  {
    var c := Deal(shuffled);
    var a, b, h, d := c.onTable, c.p1Hand, c.p2Hand, c.deck;
    assert a + b + h + d == shuffled;
    RangePermutationMembers(shuffled, DeckSize);
    forall x ensures (x in a || x in b || x in h || x in d) <==> x in shuffled {
      assert x in shuffled <==> x in a + b + h || x in d;
      assert x in a + b + h <==> x in a + b || x in h;
    }
  }

  // ---------------------------------------------------------------------------
  // Player lists

  /** The elements of `s` that satisfy `p`, in order (`_.filter`). */
  function Filter<T(!new)>(s: seq<T>, p: T -> bool): (r: seq<T>)
    ensures |r| == CountWhere(s, p)
    ensures forall x :: x in r <==> x in s && p(x)
  {
    if s == [] then []
    else if p(s[0]) then [s[0]] + Filter(s[1..], p)
    else Filter(s[1..], p)
  }

  /** A one-element list keeps its element exactly when it passes. */
  lemma FilterSingleton<T(!new)>(x: T, p: T -> bool)
    ensures Filter([x], p) == if p(x) then [x] else []
  {
    assert [x][1..] == [];
  }

  /** Filtering a concatenation filters each part and keeps them in order;
      with `FilterSingleton` this fixes the result as the in-order
      subsequence of the passing elements, repetitions included. */
  lemma {:induction false} FilterAppend<T(!new)>(s: seq<T>, t: seq<T>, p: T -> bool)
    ensures Filter(s + t, p) == Filter(s, p) + Filter(t, p)
  {
    if s == [] {
      assert s + t == t;
    } else {
      var u := s + t;
      assert u[0] == s[0] && u[1..] == s[1..] + t;
      var rest := Filter(s[1..], p) + Filter(t, p);
      FilterAppend(s[1..], t, p);
      if p(s[0]) {
        assert Filter(u, p) == [s[0]] + rest;
        assert Filter(s, p) == [s[0]] + Filter(s[1..], p);
      } else {
        assert Filter(u, p) == rest;
      }
    }
  }

  /** Filtering keeps every element of a list whose elements all pass. */
  lemma {:induction false} FilterKeepsAll<T(!new)>(s: seq<T>, p: T -> bool)
    requires forall i :: 0 <= i < |s| ==> p(s[i])
    ensures Filter(s, p) == s
  {
    if s != [] {
      FilterKeepsAll(s[1..], p);
      assert s == [s[0]] + s[1..];
    }
  }

  /** Two filters can be applied in either order. */
  lemma {:induction false} FilterCommutes<T(!new)>(s: seq<T>, p: T -> bool, q: T -> bool)
    ensures Filter(Filter(s, p), q) == Filter(Filter(s, q), p)
  {
    if s != [] {
      FilterCommutes(s[1..], p, q);
      var x, t := s[0], s[1..];
      if p(x) {
        assert Filter(s, p) == [x] + Filter(t, p);
        assert ([x] + Filter(t, p))[1..] == Filter(t, p);
      }
      if q(x) {
        assert Filter(s, q) == [x] + Filter(t, q);
        assert ([x] + Filter(t, q))[1..] == Filter(t, q);
      }
    }
  }

  function HasPlayer(e: PlayerEntry): bool
  {
    e.player.Some?
  }

  function IdIsNot(id: Option<string>): PlayerEntry -> bool
  {
    (e: PlayerEntry) => e.id != id
  }

  /** `get_active_players()`: the entries whose player object is present. */
  function GetActivePlayers(players: seq<PlayerEntry>): (r: seq<PlayerEntry>)
    ensures forall e :: e in r <==> e in players && e.player.Some?
    ensures |r| <= |players|
  {
    Filter(players, HasPlayer)
  }

  /** The active players of a concatenation are those of each part, in
      order, and a single entry is active exactly when it has a player. */
  lemma ActivePlayersInOrder(a: seq<PlayerEntry>, b: seq<PlayerEntry>, e: PlayerEntry)
    ensures GetActivePlayers(a + b) == GetActivePlayers(a) + GetActivePlayers(b)
    ensures GetActivePlayers([e]) == if e.player.Some? then [e] else []
  {
    FilterAppend(a, b, HasPlayer);
    FilterSingleton(e, HasPlayer);
  }

  /** `get_others(id)`: the entries with another id, then those with a
      player object present. */
  function GetOthers(players: seq<PlayerEntry>, id: Option<string>): (r: seq<PlayerEntry>)
    ensures forall e :: e in r <==> e in players && e.id != id && e.player.Some?
    ensures |r| <= |players|
  {
    Filter(Filter(players, IdIsNot(id)), HasPlayer)
  }

  /** The others of `id` are the active players whose id is not `id`, in the
      same order. */
  lemma OthersAreActiveOthers(players: seq<PlayerEntry>, id: Option<string>)
    ensures GetOthers(players, id) == Filter(GetActivePlayers(players), IdIsNot(id))
  {
    FilterCommutes(players, IdIsNot(id), HasPlayer);
  }

  /** When every entry has a player object, all of them are active, in order. */
  lemma AllActive(players: seq<PlayerEntry>)
    requires forall i :: 0 <= i < |players| ==> players[i].player.Some?
    ensures GetActivePlayers(players) == players
  {
    FilterKeepsAll(players, HasPlayer);
  }

  /** The error reading `.player` of the `undefined` that `_.find` returns. */
  const ReadPlayerOfUndefined := "TypeError: Cannot read property 'player' of undefined"

  /** `get_player(id)`: the player object of the first entry with that id; a
      `TypeError` when there is none. */
  function GetPlayer(players: seq<PlayerEntry>, id: Option<string>): (r: Result<Option<GamePlayer>>)
    ensures r.Ok? <==> exists i :: 0 <= i < |players| && players[i].id == id
    ensures r.Ok? ==> exists i :: (0 <= i < |players| && players[i].id == id && r.value == players[i].player &&
      forall j :: 0 <= j < i ==> players[j].id != id)
  {
    if players == [] then Err(ReadPlayerOfUndefined)
    else if players[0].id == id then Ok(players[0].player)
    else
      var r := GetPlayer(players[1..], id);
      assert forall i :: 0 < i < |players| ==> players[i] == players[1..][i - 1];
      if r.Ok? then
        assert exists i :: (0 <= i < |players| && players[i].id == id && r.value == players[i].player &&
          forall j :: 0 <= j < i ==> players[j].id != id) by {
          var i :| 0 <= i < |players| - 1 && players[1..][i].id == id && r.value == players[1..][i].player &&
            forall j :: 0 <= j < i ==> players[1..][j].id != id;
          assert players[i + 1] == players[1..][i];
        }
        r
      else r
  }

  /** The player list sent with an update: the same ids in the same order,
      each with `player: null`. */
  function PlayerPacket(players: seq<PlayerEntry>): (r: seq<PlayerEntry>)
    ensures |r| == |players|
    ensures forall i :: 0 <= i < |r| ==> r[i] == PlayerEntry(players[i].id, None, None)
  {
    Apply(players, (p: PlayerEntry) => PlayerEntry(p.id, None, None))
  }

  // ---------------------------------------------------------------------------
  // The round counter

  datatype RoundState = RoundState(roundNum: int, gameStarted: bool)

  /** The counter part of `newRound`: unchanged on the last round, otherwise
      one more, with the game marked started when leaving round -1. */
  function NextRound(s: RoundState, numRounds: int): (n: RoundState)
    ensures s.roundNum == numRounds - 1 ==> n == s
    ensures s.roundNum != numRounds - 1 ==> n.roundNum == s.roundNum + 1
    ensures s.roundNum == -1 && numRounds != 0 ==> n == RoundState(0, true)
    ensures s.roundNum != -1 ==> n.gameStarted == s.gameStarted
  {
    if s.roundNum == numRounds - 1 then s
    else
      var started := if s.roundNum < 0 && s.roundNum + 1 == 0 then true else s.gameStarted;
      RoundState(s.roundNum + 1, started)
  }

  /** The server's counter never passes the last round, and the game counts
      as started exactly from round 0 on. */
  predicate RoundsValid(s: RoundState, numRounds: int)
  {
    -1 <= s.roundNum <= numRounds - 1 && (s.gameStarted <==> s.roundNum >= 0)
  }

  lemma NextRoundKeepsValid(s: RoundState, numRounds: int)
    requires RoundsValid(s, numRounds)
    ensures RoundsValid(NextRound(s, numRounds), numRounds)
  {
  }

  /** With the single round of the cards game, the first call starts round 0
      and every later call leaves the counter alone. */
  lemma SingleRoundGame(s: RoundState)
    requires RoundsValid(s, 1)
    ensures NextRound(s, 1) == RoundState(0, true)
    ensures NextRound(NextRound(s, 1), 1) == RoundState(0, true)
  {
  }

  // ---------------------------------------------------------------------------
  // The game object

  class GameCore {
    var isServer: bool
    var id: Option<string>
    var playerCount: int
    var playersThreshold: int
    var roundNum: int
    var numRounds: int
    var turnNum: int
    var gameStarted: bool
    var reshuffleP: real
    var players: seq<PlayerEntry>
    var deck: seq<int>
    var onTable: seq<int>
    var p1Hand: seq<int>
    var p2Hand: seq<int>
    var state: Option<Snapshot>

    function CurrentCards(): Cards
      reads this
    {
      Cards(deck, onTable, p1Hand, p2Hand)
    }

    function Round(): RoundState
      reads this
    {
      RoundState(roundNum, gameStarted)
    }

    /** The server copy: one player entry for the first connection, the deal
      taken from `shuffled` (the result of shuffling 0..51, for which
      `DealPartitions` describes the deal), and a first update sent. */
    constructor Server(gameId: string, count: int, firstId: string, firstInstance: string, shuffled: seq<int>)
      ensures isServer && id == Some(gameId) && playerCount == count
      ensures playersThreshold == 2 && roundNum == -1 && numRounds == 1 && turnNum == 0
      ensures !gameStarted && reshuffleP == ReshuffleProbability
      ensures players == [PlayerEntry(Some(firstId), Some(firstInstance), Some(GamePlayer(Some(firstInstance), "")))]
      ensures CurrentCards() == Deal(shuffled)
      ensures state == Some(Snapshot(false, 2, count, PlayerPacket(players), Deal(shuffled)))
    {
      isServer := true;
      id := Some(gameId);
      playerCount := count;
      playersThreshold := 2;
      roundNum := -1;
      numRounds := 1;
      turnNum := 0;
      gameStarted := false;
      reshuffleP := ReshuffleProbability;
      players := [PlayerEntry(Some(firstId), Some(firstInstance), Some(GamePlayer(Some(firstInstance), "")))];
      var dealt := Deal(shuffled);
      deck := dealt.deck;
      onTable := dealt.onTable;
      p1Hand := dealt.p1Hand;
      p2Hand := dealt.p2Hand;
      state := None;
      new;
      var _ := ServerSendUpdate();
    }

    /** A client copy: a placeholder entry for itself and a deck of 52
      unknown cards, nothing on the table and empty hands. */
    constructor Client()
      ensures !isServer && id.None? && roundNum == -1 && numRounds == 1 && turnNum == 0
      ensures !gameStarted && playersThreshold == 2 && reshuffleP == ReshuffleProbability
      ensures players == [PlayerEntry(None, None, Some(GamePlayer(None, "")))]
      ensures |deck| == DeckSize && forall i :: 0 <= i < |deck| ==> deck[i] == HiddenCard
      ensures onTable == [] && p1Hand == [] && p2Hand == []
      ensures state.None?
    {
      isServer := false;
      id := None;
      playerCount := 0;
      playersThreshold := 2;
      roundNum := -1;
      numRounds := 1;
      turnNum := 0;
      gameStarted := false;
      reshuffleP := ReshuffleProbability;
      players := [PlayerEntry(None, None, Some(GamePlayer(None, "")))];
      deck := seq(DeckSize, _ => HiddenCard);
      onTable := [];
      p1Hand := [];
      p2Hand := [];
      state := None;
    }

    /** `server_send_update()`: stores the snapshot and returns the players it
      is emitted to. */
    method ServerSendUpdate() returns (recipients: seq<PlayerEntry>)
      modifies this`state
      ensures state == Some(Snapshot(gameStarted, playersThreshold, playerCount, PlayerPacket(players), CurrentCards()))
      ensures recipients == GetActivePlayers(players)
    {
      state := Some(Snapshot(gameStarted, playersThreshold, playerCount, PlayerPacket(players), CurrentCards()));
      recipients := GetActivePlayers(players);
    }

    /** `newRound()`: on the last round the active players are disconnected
      and nothing else changes; otherwise the counter advances and an update
      is sent. */
    method NewRound() returns (effect: RoundEffect)
      modifies this`roundNum, this`gameStarted, this`state
      ensures Round() == NextRound(old(Round()), numRounds)
      ensures old(roundNum) == numRounds - 1 ==>
        effect == Disconnected(GetActivePlayers(players)) && state == old(state)
      ensures old(roundNum) != numRounds - 1 ==>
        effect == Advanced(GetActivePlayers(players)) &&
        state == Some(Snapshot(gameStarted, playersThreshold, playerCount, PlayerPacket(players), CurrentCards()))
    {
      if roundNum == numRounds - 1 {
        effect := Disconnected(GetActivePlayers(players));
      } else {
        if roundNum < 0 && roundNum + 1 == 0 {
          gameStarted := true;
        }
        roundNum := roundNum + 1;
        var recipients := ServerSendUpdate();
        effect := Advanced(recipients);
      }
    }
  }
}

/** The card-table bookkeeping of the cards client: which two card sprites
    may be exchanged, the exchange itself on the three sprite groups (their
    hand, the table, my hand), `Array.prototype.swap`, and the two status
    strings. A sprite is abstracted to its frame (card value), whether it
    accepts input, the group array it belongs to and its snap position. */
module GraphicUtils {
  import opened Wrappers
  import opened SeqUtil
  import opened Text

  /** A snap position on the table (a Phaser point). */
  datatype Position = Position(x: int, y: int)

  /** A card sprite. */
  class Card {
    const frame: int
    var inputEnabled: bool
    var parentGroup: array<Card>
    var snapPosition: Position

    constructor (frame0: int, enabled: bool, group: array<Card>, snap: Position)
      ensures frame == frame0 && inputEnabled == enabled && parentGroup == group && snapPosition == snap
    {
      frame := frame0;
      inputEnabled := enabled;
      parentGroup := group;
      snapPosition := snap;
    }
  }

  // ---------------------------------------------------------------------------
  // Index helpers

  /** `Array.prototype.indexOf`: the first index holding `x`, or -1. */
  function IndexOf<T(==)>(s: seq<T>, x: T): (i: int)
    ensures -1 <= i < |s|
    ensures i == -1 <==> x !in s
    ensures 0 <= i ==> s[i] == x && forall j :: 0 <= j < i ==> s[j] != x
  {
    if s == [] then -1
    else if s[0] == x then 0
    else
      var i := IndexOf(s[1..], x);
      assert forall j :: 1 <= j < |s| ==> s[j] == s[1..][j - 1];
      if i == -1 then -1 else i + 1
  }

  /** In a sequence without repetitions, the index of the element at `k` is `k`. */
  lemma IndexOfDistinct<T>(s: seq<T>, k: int)
    requires Distinct(s) && 0 <= k < |s|
    ensures IndexOf(s, s[k]) == k
  {
  }

  /** The sequence with the entries at `x` and `y` exchanged. */
  function SwapAt<T>(s: seq<T>, x: int, y: int): (r: seq<T>)
    requires 0 <= x < |s| && 0 <= y < |s|
    ensures |r| == |s| && r[x] == s[y] && r[y] == s[x]
    ensures forall k :: 0 <= k < |s| && k != x && k != y ==> r[k] == s[k]
    ensures multiset(r) == multiset(s)
  {
    s[x := s[y]][y := s[x]]
  }

  /** Swapping twice restores the sequence. */
  lemma SwapAtTwice<T>(s: seq<T>, x: int, y: int)
    requires 0 <= x < |s| && 0 <= y < |s|
    ensures SwapAt(SwapAt(s, x, y), x, y) == s
  {
    var r := SwapAt(SwapAt(s, x, y), x, y);
    assert forall k :: 0 <= k < |s| ==> r[k] == s[k];
  }

  /** `Array.prototype.swap(x, y)`: exchanges two entries of the array in place. */
  method Swap<T>(a: array<T>, x: int, y: int)
    requires 0 <= x < a.Length && 0 <= y < a.Length
    modifies a
    ensures a[..] == SwapAt(old(a[..]), x, y)
  {
    var b := a[x];
    a[x] := a[y];
    a[y] := b;
  }

  /** The frames of a list of sprites (`group.map(c => c.frame)`). */
  function Frames(cards: seq<Card>): (r: seq<int>)
    ensures |r| == |cards|
    ensures forall i :: 0 <= i < |cards| ==> r[i] == cards[i].frame
  {
    if cards == [] then [] else [cards[0].frame] + Frames(cards[1..])
  }

  // ---------------------------------------------------------------------------
  // The table

  /** Every sprite of `g` records `g` as its group, as `makeHandGroup` and
      `makeOnTableGroup` arrange when they build a group. */
  predicate InGroup(g: array<Card>)
    reads g, g[..]
  {
    forall i :: 0 <= i < g.Length ==> g[i].parentGroup == g
  }

  class Board {
    const theirHandGroup: array<Card>
    const onTableGroup: array<Card>
    const myHandGroup: array<Card>
    var theirHand: seq<int>
    var onTable: seq<int>
    var myHand: seq<int>
    /** `isMyTurn`: `Some(false)` at first; `None` stands for `null`, the
        value `getTurnString` reports as a game not yet started. */
    var isMyTurn: Option<bool>

    /** Every sprite on the table, group by group. */
    function AllCards(): seq<Card>
      reads theirHandGroup, onTableGroup, myHandGroup
    {
      theirHandGroup[..] + onTableGroup[..] + myHandGroup[..]
    }

    /** The three groups are different arrays, no group holds a sprite
        twice, and every sprite records the group it is in. */
    predicate Valid()
      reads theirHandGroup, onTableGroup, myHandGroup, theirHandGroup[..], onTableGroup[..], myHandGroup[..]
    {
      theirHandGroup != onTableGroup && theirHandGroup != myHandGroup && onTableGroup != myHandGroup &&
      Distinct(theirHandGroup[..]) && Distinct(onTableGroup[..]) && Distinct(myHandGroup[..]) &&
      InGroup(theirHandGroup) && InGroup(onTableGroup) && InGroup(myHandGroup)
    }

    /** The sprite lies in the group it records, one of the three. */
    predicate Placed(card: Card)
      reads card, card.parentGroup
    {
      (card.parentGroup == theirHandGroup || card.parentGroup == onTableGroup || card.parentGroup == myHandGroup) &&
      card in card.parentGroup[..]
    }

    /** The board over three groups built by `makeHandGroup` and
        `makeOnTableGroup`: three different groups of fresh sprites, each
        sprite tagged with its group. */
    constructor (their: array<Card>, table: array<Card>, mine: array<Card>, turn: Option<bool>)
      requires their != table && their != mine && table != mine
      requires Distinct(their[..]) && Distinct(table[..]) && Distinct(mine[..])
      requires InGroup(their) && InGroup(table) && InGroup(mine)
      ensures Valid()
      ensures theirHandGroup == their && onTableGroup == table && myHandGroup == mine && isMyTurn == turn
      ensures theirHand == Frames(their[..]) && onTable == Frames(table[..]) && myHand == Frames(mine[..])
    {
      theirHandGroup := their;
      onTableGroup := table;
      myHandGroup := mine;
      isMyTurn := turn;
      theirHand := Frames(their[..]);
      onTable := Frames(table[..]);
      myHand := Frames(mine[..]);
    }

    /** `shouldSwap(card1, card2)`: `Some(b)` for a decided answer, `None`
        for the `undefined` left when no case applies. */
    function ShouldSwap(card1: Card, card2: Card): (r: Option<bool>)
      reads this, myHandGroup, onTableGroup, card1, card2
      ensures !card1.inputEnabled || !card2.inputEnabled ==> r == Some(false)
      ensures r == Some(true) <==>
        card1.inputEnabled && card2.inputEnabled &&
        ((card1 in myHandGroup[..] && card2 in myHandGroup[..]) ||
         (card1 in onTableGroup[..] && card2 in onTableGroup[..]) ||
         (isMyTurn == Some(true) &&
          ((card1 in myHandGroup[..] && card2 in onTableGroup[..]) ||
           (card2 in myHandGroup[..] && card1 in onTableGroup[..]))))
      ensures r != Some(false) <==> card1.inputEnabled && card2.inputEnabled
    {
      var mine, table := myHandGroup[..], onTableGroup[..];
      if !card1.inputEnabled || !card2.inputEnabled then Some(false)
      else if card1 in mine && card2 in mine then Some(true)
      else if card1 in table && card2 in table then Some(true)
      else if isMyTurn == Some(true) &&
              ((card1 in mine && card2 in table) || (card2 in mine && card1 in table)) then Some(true)
      else None
    }

    /** `swapPosition(card1, card2)`: exchanges the snap positions, then
        either swaps the two sprites inside their common group, or puts each
        in the other's place and group; finally the frame lists are rebuilt
        from the groups. The third group is outside the frame, so it is
        unchanged. */
    method SwapPosition(card1: Card, card2: Card)
      requires Valid() && Placed(card1) && Placed(card2)
      modifies this`theirHand, this`onTable, this`myHand
      modifies card1`snapPosition, card2`snapPosition, card1`parentGroup, card2`parentGroup
      modifies card1.parentGroup, card2.parentGroup
      ensures Valid()
      ensures card1.snapPosition == old(card2.snapPosition) && card2.snapPosition == old(card1.snapPosition)
      ensures old(card1.parentGroup) == old(card2.parentGroup) ==>
        var g := old(card1.parentGroup);
        g[..] == SwapAt(old(g[..]), IndexOf(old(g[..]), card1), IndexOf(old(g[..]), card2)) &&
        card1.parentGroup == g && card2.parentGroup == g
      ensures old(card1.parentGroup) != old(card2.parentGroup) ==>
        var g1, g2 := old(card1.parentGroup), old(card2.parentGroup);
        g1[..] == old(g1[..])[IndexOf(old(g1[..]), card1) := card2] &&
        g2[..] == old(g2[..])[IndexOf(old(g2[..]), card2) := card1] &&
        card1.parentGroup == g2 && card2.parentGroup == g1
      ensures theirHand == Frames(theirHandGroup[..]) && onTable == Frames(onTableGroup[..]) &&
        myHand == Frames(myHandGroup[..])
    {
      ghost var g1, g2 := card1.parentGroup, card2.parentGroup;
      ghost var s1, s2 := g1[..], g2[..];
      ExchangeSnapPositions(card1, card2);
      assert card1.parentGroup == g1 && card2.parentGroup == g2 && g1[..] == s1 && g2[..] == s2;
      if card1.parentGroup == card2.parentGroup {
        SwapWithinGroup(card1, card2);
      } else {
        MoveAcrossGroups(card1, card2);
      }
      RefreshFrames();
    }

    /** The frame lists rebuilt from the groups (`group.map(c => c.frame)`). */
    method RefreshFrames()
      requires Valid()
      modifies this`theirHand, this`onTable, this`myHand
      ensures theirHand == Frames(theirHandGroup[..]) && onTable == Frames(onTableGroup[..]) &&
        myHand == Frames(myHandGroup[..])
      ensures Valid()
    {
      theirHand := Frames(theirHandGroup[..]);
      onTable := Frames(onTableGroup[..]);
      myHand := Frames(myHandGroup[..]);
    }

    /** The snap-position exchange at the start of `swapPosition`. */
    method ExchangeSnapPositions(card1: Card, card2: Card)
      requires Valid()
      modifies card1`snapPosition, card2`snapPosition
      ensures card1.snapPosition == old(card2.snapPosition) && card2.snapPosition == old(card1.snapPosition)
      ensures Valid()
    {
      var temp := card1.snapPosition;
      card1.snapPosition := card2.snapPosition;
      card2.snapPosition := temp;
    }

    /** Both sprites in one group: an index swap inside that group. */
    method SwapWithinGroup(card1: Card, card2: Card)
      requires Valid() && Placed(card1) && Placed(card2)
      requires card1.parentGroup == card2.parentGroup
      modifies card1.parentGroup
      ensures var g := card1.parentGroup;
        g[..] == SwapAt(old(g[..]), IndexOf(old(g[..]), card1), IndexOf(old(g[..]), card2))
      ensures Valid()
    {
      var parentGroup := card1.parentGroup;
      var index1 := IndexOf(parentGroup[..], card1);
      var index2 := IndexOf(parentGroup[..], card2);
      Swap(parentGroup, index1, index2);
      PermutationKeepsDistinct(parentGroup[..], old(parentGroup[..]));
      forall k | 0 <= k < parentGroup.Length
        ensures parentGroup[k].parentGroup == parentGroup
      {
        assert parentGroup[k] in multiset(old(parentGroup[..]));
        var m :| 0 <= m < parentGroup.Length && old(parentGroup[m]) == parentGroup[k];
      }
    }

    /** The sprites in different groups: each takes the other's place and group. */
    method MoveAcrossGroups(card1: Card, card2: Card)
      requires Valid() && Placed(card1) && Placed(card2)
      requires card1.parentGroup != card2.parentGroup
      modifies card1.parentGroup, card2.parentGroup, card1`parentGroup, card2`parentGroup
      ensures var g1, g2 := old(card1.parentGroup), old(card2.parentGroup);
        g1[..] == old(g1[..])[IndexOf(old(g1[..]), card1) := card2] &&
        g2[..] == old(g2[..])[IndexOf(old(g2[..]), card2) := card1] &&
        card1.parentGroup == g2 && card2.parentGroup == g1
      ensures Valid()
    {
      var c1Group := card1.parentGroup;
      var c1Index := IndexOf(c1Group[..], card1);
      var c2Group := card2.parentGroup;
      var c2Index := IndexOf(c2Group[..], card2);
      NotInOtherGroup(card2, c1Group);
      NotInOtherGroup(card1, c2Group);
      c1Group[c1Index] := card2;
      c2Group[c2Index] := card1;
      card1.parentGroup := c2Group;
      card2.parentGroup := c1Group;
      DistinctUpdate(old(c1Group[..]), c1Index, card2);
      DistinctUpdate(old(c2Group[..]), c2Index, card1);
      forall k | 0 <= k < theirHandGroup.Length ensures theirHandGroup[k].parentGroup == theirHandGroup {
        if !(theirHandGroup == c1Group && k == c1Index) && !(theirHandGroup == c2Group && k == c2Index) {
          var c := old(theirHandGroup[k]);
          assert theirHandGroup[k] == c;
          assert old(c.parentGroup) == theirHandGroup;
          assert c != card1 && c != card2;
        }
      }
      forall k | 0 <= k < onTableGroup.Length ensures onTableGroup[k].parentGroup == onTableGroup {
        if !(onTableGroup == c1Group && k == c1Index) && !(onTableGroup == c2Group && k == c2Index) {
          var c := old(onTableGroup[k]);
          assert onTableGroup[k] == c;
          assert old(c.parentGroup) == onTableGroup;
          assert c != card1 && c != card2;
        }
      }
      forall k | 0 <= k < myHandGroup.Length ensures myHandGroup[k].parentGroup == myHandGroup {
        if !(myHandGroup == c1Group && k == c1Index) && !(myHandGroup == c2Group && k == c2Index) {
          var c := old(myHandGroup[k]);
          assert myHandGroup[k] == c;
          assert old(c.parentGroup) == myHandGroup;
          assert c != card1 && c != card2;
        }
      }
    }

    /** A sprite placed in one group is in no other of the three. */
    lemma NotInOtherGroup(card: Card, g: array<Card>)
      requires Valid() && Placed(card)
      requires g == theirHandGroup || g == onTableGroup || g == myHandGroup
      requires g != card.parentGroup
      ensures card !in g[..]
    {
    }

    /** On a valid table no sprite lies in two groups, so the whole table
        holds no sprite twice. */
    lemma {:induction false} AllCardsDistinct()
      requires Valid()
      ensures Distinct(AllCards())
    {
      var a, b, c := theirHandGroup[..], onTableGroup[..], myHandGroup[..];
      var s := AllCards();
      assert s == a + b + c;
      forall i, j | 0 <= i < j < |s|
        ensures s[i] != s[j]
      {
        var gi := if i < |a| then theirHandGroup else if i < |a| + |b| then onTableGroup else myHandGroup;
        var gj := if j < |a| then theirHandGroup else if j < |a| + |b| then onTableGroup else myHandGroup;
        var ki := if i < |a| then i else if i < |a| + |b| then i - |a| else i - |a| - |b|;
        var kj := if j < |a| then j else if j < |a| + |b| then j - |a| else j - |a| - |b|;
        assert s[i] == gi[ki] && s[j] == gj[kj];
        assert gi[ki].parentGroup == gi && gj[kj].parentGroup == gj;
        if gi == gj {
          assert ki < kj;
          assert gi[..][ki] != gi[..][kj];
        }
      }
    }

    /** On a valid table the sprites on it are exactly the placed ones. */
    lemma PlacedIffOnTable(card: Card)
      requires Valid()
      ensures card in AllCards() <==> Placed(card)
    {
      var a, b, c := theirHandGroup[..], onTableGroup[..], myHandGroup[..];
      assert AllCards() == a + b + c;
      if card in AllCards() {
        if card in a {
          var i :| 0 <= i < |a| && a[i] == card;
          assert theirHandGroup[i].parentGroup == theirHandGroup;
        } else if card in b {
          var i :| 0 <= i < |b| && b[i] == card;
          assert onTableGroup[i].parentGroup == onTableGroup;
        } else {
          var i :| 0 <= i < |c| && c[i] == card;
          assert myHandGroup[i].parentGroup == myHandGroup;
        }
      }
    }
  }

  /** Writing a value that was absent keeps a sequence free of repetitions. */
  lemma DistinctUpdate<T>(s: seq<T>, i: int, x: T)
    requires Distinct(s) && 0 <= i < |s| && x !in s
    ensures Distinct(s[i := x])
  {
    var r := s[i := x];
    forall j, k | 0 <= j < k < |r|
      ensures r[j] != r[k]
    {
      if j != i && k != i {
        assert r[j] == s[j] && r[k] == s[k];
      }
    }
  }

  /** An exchange between two groups keeps the sprites of the two together. */
  lemma ExchangeKeepsCards<T>(a: seq<T>, i: int, b: seq<T>, j: int)
    requires 0 <= i < |a| && 0 <= j < |b|
    ensures multiset(a[i := b[j]]) + multiset(b[j := a[i]]) == multiset(a) + multiset(b)
  {
  }

  // ---------------------------------------------------------------------------
  // Status strings

  const NotStartedText := "Game has not started yet"

  /** `getTurnString()`. */
  function GetTurnString(isMyTurn: Option<bool>): (r: string)
    ensures isMyTurn.None? ==> r == NotStartedText
    ensures isMyTurn == Some(true) ==> r == "It's your turn."
    ensures isMyTurn == Some(false) ==> r == "It's your partner's turn."
  {
    if isMyTurn.None? then NotStartedText
    else
      var isPartner := if isMyTurn.value then "" else "partner's ";
      "It's your " + isPartner + "turn."
  }

  /** The turn string tells the three states apart. */
  lemma TurnStringDetermines(a: Option<bool>, b: Option<bool>)
    requires GetTurnString(a) == GetTurnString(b)
    ensures a == b
  {
  }

  /** The noun of the counter: singular exactly for one card. */
  function CardNoun(num: int): (r: string)
    ensures r == " card" <==> num == 1
    ensures r == " card" || r == " cards"
  {
    var plural := if num == 1 then "" else "s";
    " card" + plural
  }

  /** The descriptor of the counter: "left in deck" exactly for type 'left'. */
  function CounterDescriptor(counterType: string): (r: string)
    ensures r == "left in deck" <==> counterType == "left"
    ensures r == "left in deck" || r == "reshuffled"
  {
    if counterType == "left" then "left in deck" else "reshuffled"
  }

  /** `getCounterString(num, counterType)`: the count (signed when negative)
      first, the kind of counter last. */
  function GetCounterString(num: int, counterType: string): (r: string)
    ensures counterType == "left" ==> |r| > 12 && r[|r| - 12..] == "left in deck"
    ensures counterType != "left" ==> |r| > 10 && r[|r| - 10..] == "reshuffled"
    ensures num < 0 ==> r[0] == '-'
  {
    var front, desc := NumberString(num) + CardNoun(num) + " ", CounterDescriptor(counterType);
    assert (front + desc)[|front + desc| - |desc|..] == desc;
    assert (front + desc)[0] == NumberString(num)[0];
    front + desc
  }

  /** A counter string is the digits of the count followed by text that
      starts with a space. */
  lemma CounterStringParts(n: nat, t: string)
    ensures var rest := CardNoun(n) + " " + CounterDescriptor(t);
      GetCounterString(n, t) == Natural(n) + rest && rest[0] == ' '
  {
    var noun, desc := CardNoun(n), CounterDescriptor(t);
    assert noun[0] == ' ';
    assert (noun + " " + desc)[0] == noun[0];
    assert NumberString(n) + noun + " " + desc == Natural(n) + (noun + " " + desc);
  }

  lemma SameAfterPrefix(p: string, a: string, b: string)
    requires p + a == p + b
    ensures a == b
  {
    assert a == (p + a)[|p|..];
  }

  /** Two counter strings for non-negative counts are equal only for the
      same count and the same kind of counter. */
  lemma CounterStringInjective(n1: nat, t1: string, n2: nat, t2: string)
    requires GetCounterString(n1, t1) == GetCounterString(n2, t2)
    ensures n1 == n2
    ensures (t1 == "left") <==> (t2 == "left")
  {
    CounterStringParts(n1, t1);
    CounterStringParts(n2, t2);
    var desc1, desc2 := CounterDescriptor(t1), CounterDescriptor(t2);
    DigitPrefix(Natural(n1), CardNoun(n1) + " " + desc1, Natural(n2), CardNoun(n2) + " " + desc2);
    NaturalInjective(n1, n2);
    SameAfterPrefix(CardNoun(n1) + " ", desc1, desc2);
  }
}

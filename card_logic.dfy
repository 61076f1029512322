/** experiments/cards/card-logic.js: returning table cards to the deck, the
    suit of a card value, and the test whether two hands together form a
    single-suit straight that may wrap from the highest rank to the lowest. */
module CardLogic {
  import opened Wrappers
  import opened SeqUtil

  /** `cardsInSuit`. The functions below take the number of cards per suit
      as a parameter `k`, and this is the value the game uses. */
  const CardsInSuit := 12

  // ------------------------------------------------- JavaScript integer ops

  /** `Math.trunc(a / b)`: the quotient rounded toward zero, which for a
      negative `a` is one more than Dafny's Euclidean `a / b` unless `b`
      divides `a`. */
  function TruncDiv(a: int, b: int): (q: int)
    requires b > 0
    ensures a >= 0 ==> q >= 0
    ensures a <= 0 ==> q <= 0
  {
    if a >= 0 then a / b else -((-a) / b)
  }

  /** `a % b`: the remainder takes the sign of `a`. */
  function JsRem(a: int, b: int): (r: int)
    requires b > 0
    ensures a >= 0 ==> 0 <= r < b
    ensures a < 0 ==> -b < r <= 0
  {
    if a >= 0 then a % b else -((-a) % b)
  }

  /** Rounding toward zero is symmetric about zero, unlike Euclidean
      division: `Math.trunc(-1 / 12)` is 0 where `-1 / 12` is -1 here. */
  lemma TruncDivSymmetric(a: int, b: int)
    requires b > 0
    ensures TruncDiv(-a, b) == -TruncDiv(a, b)
    ensures JsRem(-a, b) == -JsRem(a, b)
    ensures TruncDiv(-1, 12) == 0 && -1 / 12 == -1
    ensures JsRem(-1, 12) == -1 && -1 % 12 == 11
  {
  }

  // ------------------------------------------------------------------ getSuit

  /** `getSuit(cardValue)`: the suit `r` is the block of `k` consecutive
      values holding `v`, counted from 0 upwards and, for a negative `v`,
      rounded toward zero. */
  function GetSuit(v: int, k: int): (r: int)
    requires k > 0
    ensures v >= 0 ==> r * k <= v < (r + 1) * k
    ensures v < 0 ==> (r - 1) * k < v <= r * k
  {
    TruncDiv(v, k)
  }

  /** With 12 cards per suit the values 0..51 fall in suits 0..4, the fifth
      holding only 48..51; with 13 they fall in the four suits 0..3. */
  lemma SuitsOfTheDeck(v: int)
    requires 0 <= v < 52
    ensures 0 <= GetSuit(v, CardsInSuit) <= 4
    ensures GetSuit(v, CardsInSuit) == 4 <==> 48 <= v
    ensures 0 <= GetSuit(v, 13) <= 3
  {
  }

  // ---------------------------------------------------------------- reshuffle

  /** The frames, in order, of the cards whose random draw is at most `p`
      (`Math.random() <= p`); `draws[i]` is the draw made for `frames[i]`. */
  function Returned(frames: seq<int>, draws: seq<real>, p: real): (r: seq<int>)
    requires |draws| == |frames|
    ensures |r| <= |frames|
    ensures multiset(r) <= multiset(frames)
    decreases |frames|
  {
    if |frames| == 0 then []
    else
      var n := |frames| - 1;
      assert frames == frames[..n] + [frames[n]];
      Returned(frames[..n], draws[..n], p) + (if draws[n] <= p then [frames[n]] else [])
  }

  /** A card is returned iff its draw passed. */
  lemma {:induction false} ReturnedMembers(frames: seq<int>, draws: seq<real>, p: real, x: int)
    requires |draws| == |frames|
    ensures x in Returned(frames, draws, p) <==>
      exists i :: 0 <= i < |frames| && frames[i] == x && draws[i] <= p
    decreases |frames|
  {
    if |frames| > 0 {
      var n := |frames| - 1;
      var prefix := Returned(frames[..n], draws[..n], p);
      ReturnedMembers(frames[..n], draws[..n], p, x);
      if x in Returned(frames, draws, p) {
        if x in prefix {
          var i :| 0 <= i < n && frames[..n][i] == x && draws[..n][i] <= p;
          assert frames[i] == x && draws[i] <= p;
        } else {
          assert frames[n] == x && draws[n] <= p;
        }
      } else {
        forall i | 0 <= i < |frames|
          ensures !(frames[i] == x && draws[i] <= p)
        {
          if i < n {
            assert frames[..n][i] == frames[i] && draws[..n][i] == draws[i];
          }
        }
      }
    }
  }

  /** `Math.random()` lies in [0, 1), so with p >= 1 every card returns, in order. */
  lemma {:induction false} ReturnedAllWhenCertain(frames: seq<int>, draws: seq<real>, p: real)
    requires |draws| == |frames|
    requires forall i :: 0 <= i < |draws| ==> 0.0 <= draws[i] < 1.0
    requires p >= 1.0
    ensures Returned(frames, draws, p) == frames
    decreases |frames|
  {
    if |frames| > 0 {
      var n := |frames| - 1;
      ReturnedAllWhenCertain(frames[..n], draws[..n], p);
      assert frames[..n] + [frames[n]] == frames;
    }
  }

  /** With p < 0 no card returns. */
  lemma {:induction false} ReturnedNoneWhenNegative(frames: seq<int>, draws: seq<real>, p: real)
    requires |draws| == |frames|
    requires forall i :: 0 <= i < |draws| ==> 0.0 <= draws[i] < 1.0
    requires p < 0.0
    ensures Returned(frames, draws, p) == []
    decreases |frames|
  {
    if |frames| > 0 {
      var n := |frames| - 1;
      ReturnedNoneWhenNegative(frames[..n], draws[..n], p);
    }
  }

  lemma ReturnedStep(frames: seq<int>, draws: seq<real>, p: real, i: int)
    requires |draws| == |frames| && 0 <= i < |frames|
    ensures Returned(frames[..i + 1], draws[..i + 1], p) ==
      Returned(frames[..i], draws[..i], p) + (if draws[i] <= p then [frames[i]] else [])
  {
    assert frames[..i + 1][..i] == frames[..i] && draws[..i + 1][..i] == draws[..i];
  }

  /** The caller's deck array, which `reshuffle` appends to. */
  class Deck {
    var cards: seq<int>

    constructor (cards0: seq<int>)
      ensures cards == cards0
    {
      cards := cards0;
    }
  }

  /** The `forEach` of `reshuffle`: one draw per table card; each card
      whose draw is at most `p` has its frame pushed onto `deck`, and `n`
      counts them. */
  method ReturnCards(p: real, frames: seq<int>, deck: Deck, draws: seq<real>) returns (n: int)
    requires |draws| == |frames|
    modifies deck
    ensures deck.cards == old(deck.cards) + Returned(frames, draws, p)
    ensures n == |Returned(frames, draws, p)|
  {
    n := 0;
    var i := 0;
    ghost var returned: seq<int> := [];
    while i < |frames|
      invariant 0 <= i <= |frames|
      invariant returned == Returned(frames[..i], draws[..i], p)
      invariant deck.cards == old(deck.cards) + returned
      invariant n == |returned|
    {
      ReturnedStep(frames, draws, p, i);
      if draws[i] <= p {
        n := n + 1;
        assert old(deck.cards) + (returned + [frames[i]]) == (old(deck.cards) + returned) + [frames[i]];
        deck.cards := deck.cards + [frames[i]];
        returned := returned + [frames[i]];
      }
      i := i + 1;
    }
    assert frames[..i] == frames && draws[..i] == draws;
  }

  /** `reshuffle(p, cards, deck)`: returns cards to `deck` as above, then
      shuffles it. `frames` are the table cards' frames, `draws` the
      `Math.random()` outcomes and `order` the permutation of deck positions
      `_.shuffle` picks. */
  method Reshuffle(p: real, frames: seq<int>, deck: Deck, draws: seq<real>, order: seq<int>)
    returns (newDeck: seq<int>, n: int)
    requires |draws| == |frames|
    requires IsPermutationOf(order, Range(0, |deck.cards| + |Returned(frames, draws, p)|))
    modifies deck
    ensures deck.cards == old(deck.cards) + Returned(frames, draws, p)
    ensures n == |Returned(frames, draws, p)| && 0 <= n <= |frames|
    ensures |newDeck| == |order| == |old(deck.cards)| + n
    ensures IsPermutationOf(newDeck, deck.cards)
    ensures forall j :: 0 <= j < |newDeck| ==> 0 <= order[j] < |deck.cards| && newDeck[j] == deck.cards[order[j]]
  {
    n := ReturnCards(p, frames, deck, draws);
    var cards := deck.cards;
    assert |multiset(order)| == |order| == |cards|;
    PermuteRearranges(cards, order);
    newDeck := Permute(cards, order);
  }

  // ----------------------------------------------------- sorting the ranks

  predicate Sorted(s: seq<int>)
  {
    forall i, j :: 0 <= i < j < |s| ==> s[i] <= s[j]
  }

  /** `x` inserted before the first element not below it. */
  function Insert(x: int, s: seq<int>): (r: seq<int>)
    ensures multiset(r) == multiset(s) + multiset{x}
    ensures Sorted(s) ==> Sorted(r)
  {
    if s == [] then [x]
    else if x <= s[0] then
      assert Sorted(s) ==> Sorted([x] + s) by {
        if Sorted(s) {
          forall i, j | 0 <= i < j < |s| + 1 ensures ([x] + s)[i] <= ([x] + s)[j] {
            if i > 0 {
              assert ([x] + s)[i] == s[i - 1];
            }
          }
        }
      }
      [x] + s
    else
      var rest := Insert(x, s[1..]);
      assert s == s[..1] + s[1..] && s[..1] == [s[0]];
      InsertSorted(x, s, rest);
      [s[0]] + rest
  }

  /** The sortedness step of `Insert` when `x` goes after `s[0]`. */
  lemma InsertSorted(x: int, s: seq<int>, rest: seq<int>)
    requires |s| > 0 && s[0] < x
    requires multiset(rest) == multiset(s[1..]) + multiset{x}
    requires Sorted(s[1..]) ==> Sorted(rest)
    ensures Sorted(s) ==> Sorted([s[0]] + rest)
  {
    if Sorted(s) {
      assert Sorted(s[1..]);
      var r := [s[0]] + rest;
      forall i, j | 0 <= i < j < |r| ensures r[i] <= r[j] {
        assert r[j] == rest[j - 1];
        if i == 0 {
          assert rest[j - 1] in multiset(rest);
          if rest[j - 1] != x {
            assert rest[j - 1] in s[1..];
          }
        } else {
          assert r[i] == rest[i - 1];
        }
      }
    }
  }

  /** The ranks in ascending order: the intended effect of `.sort` at
      card-logic.js:38. */
  function SortAscending(s: seq<int>): (r: seq<int>)
    ensures Sorted(r) && IsPermutationOf(r, s)
  {
    if s == [] then []
    else
      assert s == [s[0]] + s[1..];
      Insert(s[0], SortAscending(s[1..]))
  }

  // ------------------------------------------------------ hasWrappedStraight

  /** `getSuit(hand1[0])`: `NaN` (here `None`) when the first hand is empty. */
  function FirstSuit(hand1: seq<int>, k: int): (r: Option<int>)
    requires k > 0
    ensures r.Some? <==> |hand1| > 0
  {
    if |hand1| == 0 then None else Some(GetSuit(hand1[0], k))
  }

  /** `every(cardVal => firstSuit == getSuit(cardVal))`: a comparison with
      `NaN` is false, so with no first suit only an empty list passes. */
  predicate MatchingSuits(cards: seq<int>, first: Option<int>, k: int)
    requires k > 0
  {
    forall i :: 0 <= i < |cards| ==> first == Some(GetSuit(cards[i], k))
  }

  /** `allCards.map(a => a % cardsInSuit)`. */
  function Ranks(cards: seq<int>, k: int): (r: seq<int>)
    requires k > 0
    ensures |r| == |cards|
    ensures forall i :: 0 <= i < |cards| && cards[i] >= 0 ==> 0 <= r[i] < k
  {
    Apply(cards, a => JsRem(a, k))
  }

  /** The number of positions 1 <= i < |s| with `s[i] != s[i - 1] + 1`. */
  function Breaks(s: seq<int>): nat
  {
    if |s| <= 1 then 0
    else Breaks(s[..|s| - 1]) + (if s[|s| - 1] != s[|s| - 2] + 1 then 1 else 0)
  }

  /** Consecutive values, each one more than the previous. */
  predicate IsRun(s: seq<int>)
  {
    forall i :: 0 <= i < |s| ==> s[i] == s[0] + i
  }

  /** What `hasWrappedStraight(hand1, hand2)` returns, with the ranks sorted
      ascending: every card has the suit of `hand1[0]`, the sorted ranks
      have at most one break, and a single break needs both the lowest and
      the highest rank present. */
  predicate IsWrappedStraight(hand1: seq<int>, hand2: seq<int>, k: int)
    requires k > 0
  {
    var all := hand1 + hand2;
    MatchingSuits(all, FirstSuit(hand1, k), k) && AcceptsRanks(SortAscending(Ranks(all, k)), k)
  }

  /** At most one break, and a single break only with both the lowest and
      the highest rank present. */
  predicate AcceptsRanks(s: seq<int>, k: int)
  {
    Breaks(s) <= 1 && (Breaks(s) == 1 ==> 0 in s && k - 1 in s)
  }

  /** `hasWrappedStraight(hand1, hand2)`: the suit check, then the scan of
      the sorted ranks. */
  method HasWrappedStraight(hand1: seq<int>, hand2: seq<int>, k: int) returns (r: bool)
    requires k > 0
    ensures r == IsWrappedStraight(hand1, hand2, k)
  {
    var firstSuit := FirstSuit(hand1, k);
    var allCards := hand1 + hand2;
    if !MatchingSuits(allCards, firstSuit, k) {
      return false;
    }
    var simplified := SortAscending(Ranks(allCards, k));
    r := ScanRanks(simplified, k);
  }

  /** The rest of `hasWrappedStraight`: a pass over the sorted ranks that
      counts breaks and gives up at the second, then accepts a single break
      only when both the lowest and the highest rank are present. */
  method ScanRanks(simplified: seq<int>, k: int) returns (r: bool)
    ensures r == AcceptsRanks(simplified, k)
  {
    var breaks := 0;
    var hasBeg := 0 in simplified;
    var hasEnd := k - 1 in simplified;
    var i := 1;
    while i < |simplified|
      invariant 1 <= i && (|simplified| == 0 || i <= |simplified|)
      invariant |simplified| == 0 ==> breaks == 0
      invariant |simplified| > 0 ==> breaks == Breaks(simplified[..i])
      invariant breaks <= 1
    {
      BreaksStep(simplified, i);
      if simplified[i] != simplified[i - 1] + 1 {
        breaks := breaks + 1;
      }
      if breaks > 1 {
        BreaksSplit(simplified, i + 1);
        return false;
      }
      i := i + 1;
    }
    assert breaks == Breaks(simplified) by {
      if |simplified| > 0 {
        assert simplified[..i] == simplified;
      }
    }
    if breaks == 1 {
      return hasBeg && hasEnd;
    } else {
      return true;
    }
  }

  // ------------------------------------------------------- facts about breaks

  lemma BreaksStep(s: seq<int>, i: int)
    requires 1 <= i < |s|
    ensures Breaks(s[..i + 1]) == Breaks(s[..i]) + (if s[i] != s[i - 1] + 1 then 1 else 0)
  {
    assert s[..i + 1][..i] == s[..i];
  }

  /** The breaks of a sequence are those of a prefix plus those of the
      suffix that overlaps it in one element. */
  lemma {:induction false} BreaksSplit(s: seq<int>, m: int)
    requires 1 <= m <= |s|
    ensures Breaks(s[..m]) + Breaks(s[m - 1..]) == Breaks(s)
    decreases |s|
  {
    if m < |s| {
      var n := |s| - 1;
      BreaksSplit(s[..n], m);
      assert s[..n][..m] == s[..m];
      assert s[..n][m - 1..] == s[m - 1..][..|s[m - 1..]| - 1];
    } else {
      assert s[..m] == s;
    }
  }

  /** No breaks means a run of consecutive values, and conversely. */
  lemma {:induction false} NoBreaksIsRun(s: seq<int>)
    ensures Breaks(s) == 0 <==> IsRun(s)
    decreases |s|
  {
    if |s| > 1 {
      var n := |s| - 1;
      NoBreaksIsRun(s[..n]);
      if IsRun(s) {
        assert forall i :: 0 <= i < n ==> s[..n][i] == s[..n][0] + i;
      }
      if Breaks(s) == 0 {
        assert forall i :: 0 <= i < n ==> s[i] == s[..n][i];
      }
    }
  }

  /** A single break splits the sequence into two runs. */
  lemma {:induction false} OneBreakSplits(s: seq<int>) returns (j: int)
    requires Breaks(s) == 1
    ensures 0 < j < |s| && IsRun(s[..j]) && IsRun(s[j..]) && s[j] != s[j - 1] + 1
    decreases |s|
  {
    var n := |s| - 1;
    if s[n] != s[n - 1] + 1 {
      j := n;
      NoBreaksIsRun(s[..n]);
    } else {
      j := OneBreakSplits(s[..n]);
      assert s[..n][..j] == s[..j];
      assert s[j..][..|s[j..]| - 1] == s[..n][j..];
      NoBreaksIsRun(s[..n][j..]);
      NoBreaksIsRun(s[j..]);
    }
  }

  /** Two runs, the second starting anywhere above the first's end, have at
      most one break between them. */
  lemma TwoRunsBreaks(s: seq<int>, j: int)
    requires 0 < j < |s| && IsRun(s[..j]) && IsRun(s[j..])
    ensures Breaks(s) <= 1
  {
    BreaksSplit(s, j);
    NoBreaksIsRun(s[..j]);
    BreaksSplit(s[j - 1..], 2);
    assert s[j - 1..][1..] == s[j..];
    NoBreaksIsRun(s[j..]);
  }

  // ---------------------------------------- what a wrapped straight is

  /** The ranks run from 0 up to `j - 1`, then from some higher rank up to
      the top rank `k - 1`: a straight that wraps past the top. */
  predicate IsWrappedRun(s: seq<int>, k: int)
  {
    exists j :: 0 < j < |s| && IsRun(s[..j]) && IsRun(s[j..]) && s[0] == 0 && s[|s| - 1] == k - 1
  }

  predicate NonNegative(cards: seq<int>)
  {
    forall i :: 0 <= i < |cards| ==> cards[i] >= 0
  }

  /** The sorted ranks of non-negative card values lie in [0, k). */
  lemma SortedRanksInRange(cards: seq<int>, k: int)
    requires k > 0 && NonNegative(cards)
    ensures forall x :: x in SortAscending(Ranks(cards, k)) ==> 0 <= x < k
  {
    var rs := Ranks(cards, k);
    forall x | x in SortAscending(rs) ensures 0 <= x < k {
      assert x in multiset(rs);
    }
  }

  /** Sorted ranks in [0, k) with at most one break, and a single break
      only when 0 and k - 1 are both present, form a run or a wrapped run. */
  lemma AcceptedShape(s: seq<int>, k: int)
    requires Sorted(s) && forall x :: x in s ==> 0 <= x < k
    requires AcceptsRanks(s, k)
    ensures IsRun(s) || IsWrappedRun(s, k)
  {
    if Breaks(s) == 0 {
      NoBreaksIsRun(s);
    } else {
      var j := OneBreakSplits(s);
      assert s[0] <= 0 by {
        var z :| 0 <= z < |s| && s[z] == 0;
      }
      assert s[|s| - 1] >= k - 1 by {
        var z :| 0 <= z < |s| && s[z] == k - 1;
      }
      assert s[0] in s && s[|s| - 1] in s;
    }
  }

  /** Whatever `hasWrappedStraight` accepts is one suit whose sorted ranks
      are consecutive, or consecutive after wrapping from `k - 1` to 0. */
  lemma WrappedStraightSound(hand1: seq<int>, hand2: seq<int>, k: int)
    requires k > 0 && NonNegative(hand1 + hand2)
    requires IsWrappedStraight(hand1, hand2, k)
    ensures MatchingSuits(hand1 + hand2, FirstSuit(hand1, k), k)
    ensures var s := SortAscending(Ranks(hand1 + hand2, k)); IsRun(s) || IsWrappedRun(s, k)
  {
    SortedRanksInRange(hand1 + hand2, k);
    AcceptedShape(SortAscending(Ranks(hand1 + hand2, k)), k);
  }

  /** Conversely, two hands of one suit whose sorted ranks are consecutive,
      or consecutive after wrapping, are accepted. */
  lemma WrappedStraightComplete(hand1: seq<int>, hand2: seq<int>, k: int)
    requires k > 0
    requires MatchingSuits(hand1 + hand2, FirstSuit(hand1, k), k)
    requires var s := SortAscending(Ranks(hand1 + hand2, k)); IsRun(s) || IsWrappedRun(s, k)
    ensures IsWrappedStraight(hand1, hand2, k)
  {
    var s := SortAscending(Ranks(hand1 + hand2, k));
    if IsRun(s) {
      NoBreaksIsRun(s);
    } else {
      var j :| 0 < j < |s| && IsRun(s[..j]) && IsRun(s[j..]) && s[0] == 0 && s[|s| - 1] == k - 1;
      TwoRunsBreaks(s, j);
    }
  }

  /** Any card outside the suit of `hand1[0]` rules out a straight, and so
      does an empty first hand when the second is not empty. */
  lemma SuitMismatchIsNotStraight(hand1: seq<int>, hand2: seq<int>, k: int, i: int)
    requires k > 0 && 0 <= i < |hand1 + hand2|
    requires |hand1| == 0 || GetSuit((hand1 + hand2)[i], k) != GetSuit(hand1[0], k)
    ensures !IsWrappedStraight(hand1, hand2, k)
  {
  }

  /** A run, or a wrapped run of at most `k` ranks, repeats no rank. */
  lemma StraightShapeDistinct(s: seq<int>, k: int)
    requires |s| <= k && (IsRun(s) || IsWrappedRun(s, k))
    ensures Distinct(s)
  {
    if !IsRun(s) {
      var j :| 0 < j < |s| && IsRun(s[..j]) && IsRun(s[j..]) && s[0] == 0 && s[|s| - 1] == k - 1;
      assert forall i :: j <= i < |s| ==> s[i] == s[j] + (i - j) by {
        assert forall i :: j <= i < |s| ==> s[i] == s[j..][i - j];
      }
      assert forall i :: 0 <= i < j ==> s[i] == i by {
        assert forall i :: 0 <= i < j ==> s[i] == s[..j][i];
      }
    }
  }

  /** A straight among at most `k` cards never repeats a rank: two cards of
      equal rank, such as overlapping hands, are not a straight. */
  lemma RepeatedRankIsNotStraight(hand1: seq<int>, hand2: seq<int>, k: int, a: int, b: int)
    requires k > 0 && NonNegative(hand1 + hand2) && |hand1 + hand2| <= k
    requires 0 <= a < b < |hand1 + hand2|
    requires JsRem((hand1 + hand2)[a], k) == JsRem((hand1 + hand2)[b], k)
    ensures !IsWrappedStraight(hand1, hand2, k)
  {
    var rs := Ranks(hand1 + hand2, k);
    var s := SortAscending(rs);
    if IsWrappedStraight(hand1, hand2, k) {
      WrappedStraightSound(hand1, hand2, k);
      StraightShapeDistinct(s, k);
      PermutationKeepsDistinct(rs, s);
    }
  }

  lemma SortedTail(s: seq<int>)
    requires Sorted(s) && |s| > 0
    ensures Sorted(s[1..])
  {
    forall i, j | 0 <= i < j < |s| - 1 ensures s[1..][i] <= s[1..][j] {
      assert s[1..][i] == s[i + 1] && s[1..][j] == s[j + 1];
    }
  }

  /** Two sorted rearrangements of each other start with the same element. */
  lemma SortedHeads(s: seq<int>, t: seq<int>)
    requires Sorted(s) && Sorted(t) && IsPermutationOf(s, t) && |s| > 0
    ensures |t| > 0 && s[0] == t[0]
  {
    assert |t| == |multiset(t)| == |s|;
    assert s[0] in multiset(t) && t[0] in multiset(s);
    var i :| 0 <= i < |s| && s[i] == t[0];
    var j :| 0 <= j < |t| && t[j] == s[0];
    assert s[0] <= s[i] && t[0] <= t[j];
  }

  /** Rearrangements of each other with the same first element have tails
      that are rearrangements of each other. */
  lemma PermutationTails(s: seq<int>, t: seq<int>)
    requires IsPermutationOf(s, t) && |s| > 0 && |t| > 0 && s[0] == t[0]
    ensures IsPermutationOf(s[1..], t[1..])
  {
    assert s == [s[0]] + s[1..];
    assert t == [t[0]] + t[1..];
    assert multiset(s) == multiset{s[0]} + multiset(s[1..]);
    assert multiset(t) == multiset{t[0]} + multiset(t[1..]);
    assert multiset(s[1..]) == multiset(s) - multiset{s[0]};
    assert multiset(t[1..]) == multiset(t) - multiset{t[0]};
  }

  /** A sorted rearrangement is unique. */
  lemma {:induction false} SortedUnique(s: seq<int>, t: seq<int>)
    requires Sorted(s) && Sorted(t) && IsPermutationOf(s, t)
    ensures s == t
    decreases |s|
  {
    if s == [] {
      assert |t| == |multiset(t)| == 0;
    } else {
      SortedHeads(s, t);
      PermutationTails(s, t);
      SortedTail(s);
      SortedTail(t);
      SortedUnique(s[1..], t[1..]);
      assert s == s[..1] + s[1..] && t == t[..1] + t[1..];
      assert s[..1] == t[..1];
    }
  }

  /** Sorting a list equals a sorted list with the same elements. */
  lemma SortsTo(r: seq<int>, t: seq<int>)
    requires Sorted(t) && IsPermutationOf(t, r)
    ensures SortAscending(r) == t
  {
    SortedUnique(SortAscending(r), t);
  }

  /** Each element at most the next one: sorted. */
  lemma {:induction false} AdjacentSorted(s: seq<int>)
    requires forall i :: 0 < i < |s| ==> s[i - 1] <= s[i]
    ensures Sorted(s)
    decreases |s|
  {
    if |s| > 1 {
      var n := |s| - 1;
      AdjacentSorted(s[..n]);
      forall i, j | 0 <= i < j < |s| ensures s[i] <= s[j] {
        if j < n {
          assert s[..n][i] == s[i] && s[..n][j] == s[j];
        } else if i < n - 1 {
          assert s[..n][i] == s[i] && s[..n][n - 1] == s[n - 1];
        }
      }
    }
  }

  /** Two hands form a straight when their cards share a suit and their
      ranks, sorted, are accepted; the sorted ranks may be given as any
      sorted rearrangement. */
  lemma StraightFromSortedRanks(hand1: seq<int>, hand2: seq<int>, k: int, ranks: seq<int>, sorted: seq<int>)
    requires k > 0
    requires MatchingSuits(hand1 + hand2, FirstSuit(hand1, k), k)
    requires Ranks(hand1 + hand2, k) == ranks
    requires Sorted(sorted) && multiset(sorted) == multiset(ranks)
    requires AcceptsRanks(sorted, k)
    ensures IsWrappedStraight(hand1, hand2, k)
  {
    SortsTo(ranks, sorted);
  }

  /** Cards of the first suit (values 0..k-1) all match the suit of the
      first card, and each card is its own rank. */
  lemma FirstSuitHands(hand1: seq<int>, hand2: seq<int>, k: int)
    requires k > 0 && |hand1| > 0
    requires forall i :: 0 <= i < |hand1 + hand2| ==> 0 <= (hand1 + hand2)[i] < k
    ensures MatchingSuits(hand1 + hand2, FirstSuit(hand1, k), k)
    ensures Ranks(hand1 + hand2, k) == hand1 + hand2
  {
    var all := hand1 + hand2;
    forall i | 0 <= i < |all| ensures GetSuit(all[i], k) == 0 && JsRem(all[i], k) == all[i] {
      SmallValue(all[i], k);
    }
    assert hand1[0] == all[0];
    var r := Ranks(all, k);
    assert forall i :: 0 <= i < |all| ==> r[i] == all[i];
  }

  /** A value below the divisor is its own remainder, with quotient 0. */
  lemma SmallValue(x: int, k: int)
    requires 0 <= x < k
    ensures TruncDiv(x, k) == 0 && JsRem(x, k) == x
  {
  }

  // ------------------------------------------------------- worked examples

  /** The ranks 0..5 form one run: sorted, no break. */
  lemma RunToFive()
    ensures Sorted([0, 1, 2, 3, 4, 5]) && AcceptsRanks([0, 1, 2, 3, 4, 5], 12)
  {
    var run := [0, 1, 2, 3, 4, 5];
    assert IsRun(run);
    AdjacentSorted(run);
    NoBreaksIsRun(run);
  }

  /** The ranks 0, 1 and 8..11 have exactly the wrapping break. */
  lemma WrappedTwelve()
    ensures Sorted([0, 1, 8, 9, 10, 11]) && AcceptsRanks([0, 1, 8, 9, 10, 11], 12)
  {
    var w := [0, 1, 8, 9, 10, 11];
    assert IsRun(w[..2]) && IsRun(w[2..]);
    TwoRunsBreaks(w, 2);
    assert !IsRun(w);
    NoBreaksIsRun(w);
    AdjacentSorted(w);
  }

  /** The multiset facts of the examples below, each kept in a lemma of its
      own so that the example proofs do not carry them. */
  lemma InOrderRanks()
    ensures multiset([0, 1, 2] + [3, 4, 5]) == multiset([0, 1, 2, 3, 4, 5])
  {
    assert [0, 1, 2] + [3, 4, 5] == [0, 1, 2, 3, 4, 5];
  }

  lemma OutOfOrderRanks()
    ensures multiset([5, 1, 2] + [3, 0, 4]) == multiset([0, 1, 2, 3, 4, 5])
  {
    assert multiset([5, 1, 2] + [3, 0, 4]) == multiset([5, 1, 2]) + multiset([3, 0, 4]);
    assert multiset([5, 1, 2]) == multiset{5, 1, 2};
    assert multiset([3, 0, 4]) == multiset{3, 0, 4};
    assert multiset{5, 1, 2} + multiset{3, 0, 4} == multiset{0, 1, 2, 3, 4, 5};
    assert multiset([0, 1, 2, 3, 4, 5]) == multiset{0, 1, 2, 3, 4, 5};
  }

  lemma WrappingInOrderRanks()
    ensures multiset([8, 9, 10] + [11, 0, 1]) == multiset([0, 1, 8, 9, 10, 11])
  {
    assert multiset([8, 9, 10] + [11, 0, 1]) == multiset([8, 9, 10]) + multiset([11, 0, 1]);
    assert multiset([8, 9, 10]) == multiset{8, 9, 10};
    assert multiset([11, 0, 1]) == multiset{11, 0, 1};
    assert multiset{8, 9, 10} + multiset{11, 0, 1} == multiset{0, 1, 8, 9, 10, 11};
    assert multiset([0, 1, 8, 9, 10, 11]) == multiset{0, 1, 8, 9, 10, 11};
  }

  lemma WrappingOutOfOrderRanks()
    ensures multiset([10, 0, 8] + [9, 1, 11]) == multiset([0, 1, 8, 9, 10, 11])
  {
    assert multiset([10, 0, 8] + [9, 1, 11]) == multiset([10, 0, 8]) + multiset([9, 1, 11]);
    assert multiset([10, 0, 8]) == multiset{10, 0, 8};
    assert multiset([9, 1, 11]) == multiset{9, 1, 11};
    assert multiset{10, 0, 8} + multiset{9, 1, 11} == multiset{0, 1, 8, 9, 10, 11};
    assert multiset([0, 1, 8, 9, 10, 11]) == multiset{0, 1, 8, 9, 10, 11};
  }

  /** Six consecutive ranks in order. */
  lemma StraightInOrder()
    ensures IsWrappedStraight([0, 1, 2], [3, 4, 5], CardsInSuit)
  {
    FirstSuitHands([0, 1, 2], [3, 4, 5], 12);
    InOrderRanks();
    RunToFive();
    StraightFromSortedRanks([0, 1, 2], [3, 4, 5], 12, [0, 1, 2] + [3, 4, 5], [0, 1, 2, 3, 4, 5]);
  }

  /** The same six ranks dealt out of order. */
  lemma StraightOutOfOrder()
    ensures IsWrappedStraight([5, 1, 2], [3, 0, 4], CardsInSuit)
  {
    FirstSuitHands([5, 1, 2], [3, 0, 4], 12);
    OutOfOrderRanks();
    RunToFive();
    StraightFromSortedRanks([5, 1, 2], [3, 0, 4], 12, [5, 1, 2] + [3, 0, 4], [0, 1, 2, 3, 4, 5]);
  }

  /** Overlapping hands repeat rank 2. */
  lemma OverlapExample()
    ensures !IsWrappedStraight([0, 1, 2], [2, 3, 4], CardsInSuit)
  {
    RepeatedRankIsNotStraight([0, 1, 2], [2, 3, 4], 12, 2, 3);
  }

  /** A straight wrapping from rank 11 to rank 1, in order. */
  lemma WrappingInOrder()
    ensures IsWrappedStraight([8, 9, 10], [11, 0, 1], CardsInSuit)
  {
    FirstSuitHands([8, 9, 10], [11, 0, 1], 12);
    WrappingInOrderRanks();
    WrappedTwelve();
    StraightFromSortedRanks([8, 9, 10], [11, 0, 1], 12, [8, 9, 10] + [11, 0, 1], [0, 1, 8, 9, 10, 11]);
  }

  /** The same wrapping straight dealt out of order. */
  lemma WrappingOutOfOrder()
    ensures IsWrappedStraight([10, 0, 8], [9, 1, 11], CardsInSuit)
  {
    FirstSuitHands([10, 0, 8], [9, 1, 11], 12);
    WrappingOutOfOrderRanks();
    WrappedTwelve();
    StraightFromSortedRanks([10, 0, 8], [9, 1, 11], 12, [10, 0, 8] + [9, 1, 11], [0, 1, 8, 9, 10, 11]);
  }

  /** Consecutive values across two suits. */
  lemma MixedSuitsExample()
    ensures !IsWrappedStraight([0, 1, 2], [15, 16, 17], CardsInSuit)
  {
    SuitMismatchIsNotStraight([0, 1, 2], [15, 16, 17], 12, 5);
  }

  /** The ranks 0 and 8..12 have exactly the wrapping break. */
  lemma WrappedThirteen()
    ensures AcceptsRanks([0, 8, 9, 10, 11, 12], 13) && Sorted([0, 8, 9, 10, 11, 12])
  {
    var w := [0, 8, 9, 10, 11, 12];
    assert IsRun(w[..1]) && IsRun(w[1..]);
    TwoRunsBreaks(w, 1);
    assert !IsRun(w);
    NoBreaksIsRun(w);
    AdjacentSorted(w);
  }

  lemma ThirteenCardRanks()
    ensures multiset([8, 9, 10] + [11, 12, 0]) == multiset([0, 8, 9, 10, 11, 12])
  {
    assert multiset([8, 9, 10] + [11, 12, 0]) == multiset([8, 9, 10]) + multiset([11, 12, 0]);
    assert multiset([8, 9, 10]) == multiset{8, 9, 10};
    assert multiset([11, 12, 0]) == multiset{11, 12, 0};
    assert multiset{8, 9, 10} + multiset{11, 12, 0} == multiset{0, 8, 9, 10, 11, 12};
    assert multiset([0, 8, 9, 10, 11, 12]) == multiset{0, 8, 9, 10, 11, 12};
  }

  /** The wrapping hand written for 13 cards per suit is a straight with 13. */
  lemma ThirteenCardExample()
    ensures IsWrappedStraight([8, 9, 10], [11, 12, 0], 13)
  {
    FirstSuitHands([8, 9, 10], [11, 12, 0], 13);
    ThirteenCardRanks();
    WrappedThirteen();
    StraightFromSortedRanks([8, 9, 10], [11, 12, 0], 13, [8, 9, 10] + [11, 12, 0], [0, 8, 9, 10, 11, 12]);
  }

  /** With the game's 12 cards per suit the same hand is rejected: 12 is
      the first card of the next suit. */
  lemma ThirteenCardHandWithTwelve()
    ensures !IsWrappedStraight([8, 9, 10], [11, 12, 0], CardsInSuit)
  {
    SuitMismatchIsNotStraight([8, 9, 10], [11, 12, 0], 12, 4);
  }

  // ------------------------------------------- the comparator as written

  /** The comparator `(a, b) => a > b` coerced to a number: 1 or 0, never
      negative. */
  function CompareAsWritten(a: int, b: int): (c: int)
    ensures c >= 0
    ensures c == 0 <==> a <= b
  {
    if a > b then 1 else 0
  }

  /** A sort whose comparator never reports "less than" sees the whole array
      as one non-descending run and, in engines using TimSort (V8 7.0 and
      later), returns it unchanged. With that sort `hasWrappedStraight`
      examines the ranks in hand order, and so agrees with the intended check
      exactly when the hands already list their ranks in ascending order. */
  predicate IsWrappedStraightAsWritten(hand1: seq<int>, hand2: seq<int>, k: int)
    requires k > 0
    ensures Sorted(Ranks(hand1 + hand2, k)) ==>
      (IsWrappedStraightAsWritten(hand1, hand2, k) <==> IsWrappedStraight(hand1, hand2, k))
  {
    var all := hand1 + hand2;
    var s := Ranks(all, k);
    SortLeavesSorted(s);
    MatchingSuits(all, FirstSuit(hand1, k), k) && AcceptsRanks(s, k)
  }

  /** Sorting leaves an already sorted list as it is. */
  lemma SortLeavesSorted(s: seq<int>)
    ensures Sorted(s) ==> SortAscending(s) == s
  {
    if Sorted(s) {
      SortsTo(s, s);
    }
  }

  /** Six consecutive cards given out of order are rejected as written but
      accepted once the ranks are sorted. */
  lemma ComparatorCounterexample()
    ensures !IsWrappedStraightAsWritten([5, 1, 2], [3, 0, 4], CardsInSuit)
    ensures IsWrappedStraight([5, 1, 2], [3, 0, 4], CardsInSuit)
  {
    var r := Ranks([5, 1, 2] + [3, 0, 4], 12);
    assert r == [5, 1, 2, 3, 0, 4];
    assert r[..1] + [r[1]] == r[..2];
    assert Breaks(r[..2]) == 1;
    BreaksSplit(r, 2);
    BreaksSplit(r[1..], 4);
    assert r[1..][..4] == [1, 2, 3, 0];
    StraightOutOfOrder();
  }
}

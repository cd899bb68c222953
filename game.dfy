/**
 * pages/2_Game.py: the session state of one game, the card toggle, and the
 * judgment of a completed selection with its board update.
 */
module Game {
  import opened Wrappers
  import opened Collections
  import opened Cards
  import opened SetRule

  /** One row of set_successes or set_failures: its 1-based number and the elapsed seconds. */
  datatype Record = Record(number: nat, elapsed: nat)

  /** The rows of a log are numbered 1, 2, 3, ... */
  predicate Numbered(log: seq<Record>) {
    forall k :: 0 <= k < |log| ==> log[k].number == k + 1
  }

  /** `log.append((len(log) + 1, now))` */
  function AppendRecord(log: seq<Record>, now: nat): (r: seq<Record>)
    ensures Numbered(log) ==> Numbered(r)
    ensures |r| == |log| + 1 && r[..|log|] == log && r[|log|].elapsed == now
  {
    log + [Record(|log| + 1, now)]
  }

  // ---------------------------------------------------------------------
  // Selection

  /** Python's `list.remove(x)`: drops the first occurrence of x. */
  function RemoveFirst(s: seq<nat>, x: nat): seq<nat> {
    if s == [] then []
    else if s[0] == x then s[1..]
    else [s[0]] + RemoveFirst(s[1..], x)
  }

  /** `remove` deletes the first occurrence of x, at position i, and keeps everything else in order. */
  lemma {:induction false} RemoveFirstAt(s: seq<nat>, x: nat, i: nat)
    requires i < |s| && s[i] == x && x !in s[..i]
    ensures RemoveFirst(s, x) == s[..i] + s[i + 1..]
  {
    if i > 0 {
      assert s[0] == s[..i][0];
      assert s[1..][..i - 1] == s[1..i];
      assert x !in s[1..][..i - 1];
      RemoveFirstAt(s[1..], x, i - 1);
      assert s[..i] == [s[0]] + s[1..][..i - 1];
      assert s[i + 1..] == s[1..][i - 1 + 1..];
    }
  }

  lemma {:induction false} RemoveFirstDistinct(s: seq<nat>, x: nat)
    requires Distinct(s) && x in s
    ensures |RemoveFirst(s, x)| == |s| - 1
    ensures Distinct(RemoveFirst(s, x))
    ensures forall y :: y in RemoveFirst(s, x) <==> y in s && y != x
  {
    assert s == [s[0]] + s[1..];
    assert Distinct(s[1..]);
    if s[0] != x {
      assert x in s[1..];
      RemoveFirstDistinct(s[1..], x);
      assert s[0] !in s[1..];
      assert RemoveFirst(s, x) == [s[0]] + RemoveFirst(s[1..], x);
    } else {
      assert forall y :: y in s[1..] ==> y != s[0];
    }
  }

  /** The selection after toggle_card(idx). */
  function Toggled(sel: seq<nat>, idx: nat): seq<nat> {
    if idx in sel then RemoveFirst(sel, idx)
    else if |sel| < 3 then sel + [idx]
    else sel
  }

  /**
   * toggle_card removes a selected index, adds an unselected one while fewer
   * than three are selected, and otherwise does nothing; so a selection
   * stays duplicate-free and holds at most three indices.
   */
  lemma ToggledSelection(sel: seq<nat>, idx: nat)
    requires Distinct(sel) && |sel| <= 3
    ensures Distinct(Toggled(sel, idx)) && |Toggled(sel, idx)| <= 3
    ensures forall x :: x in Toggled(sel, idx) <==>
      (x in sel && x != idx) || (x == idx && idx !in sel && |sel| < 3)
    ensures idx in sel ==> |Toggled(sel, idx)| == |sel| - 1
    ensures idx !in sel && |sel| < 3 ==> Toggled(sel, idx) == sel + [idx]
    ensures idx !in sel && |sel| == 3 ==> Toggled(sel, idx) == sel
  {
    if idx in sel {
      RemoveFirstDistinct(sel, idx);
    }
  }

  /** Clicking the same card twice restores the set of selected indices when the first click was not ignored. */
  lemma ToggleTwice(sel: seq<nat>, idx: nat)
    requires Distinct(sel) && |sel| <= 3
    requires idx in sel || |sel| < 3
    ensures Elements(Toggled(Toggled(sel, idx), idx)) == Elements(sel)
  {
    ToggledSelection(sel, idx);
    ToggledSelection(Toggled(sel, idx), idx);
  }

  // ---------------------------------------------------------------------
  // Removing the selected cards

  /** The cards of s, taken to sit at positions base, base+1, ..., without those whose position is in drop. */
  function WithoutFrom(s: seq<string>, drop: set<nat>, base: nat): seq<string> {
    if s == [] then []
    else (if base in drop then [] else [s[0]]) + WithoutFrom(s[1..], drop, base + 1)
  }

  /** The list s with the positions in drop deleted, the others kept in order. */
  function Without(s: seq<string>, drop: set<nat>): seq<string> {
    WithoutFrom(s, drop, 0)
  }

  /** A card survives exactly when one of its occurrences sits at a kept position. */
  lemma {:induction false} WithoutFromMember(s: seq<string>, drop: set<nat>, base: nat, x: string)
    ensures x in WithoutFrom(s, drop, base) <==> exists i :: 0 <= i < |s| && base + i !in drop && s[i] == x
  {
    if s != [] {
      WithoutFromMember(s[1..], drop, base + 1, x);
      assert WithoutFrom(s, drop, base) == (if base in drop then [] else [s[0]]) + WithoutFrom(s[1..], drop, base + 1);
      if exists i :: 0 <= i < |s| && base + i !in drop && s[i] == x {
        var i :| 0 <= i < |s| && base + i !in drop && s[i] == x;
        if i > 0 {
          assert s[1..][i - 1] == x && base + 1 + (i - 1) !in drop;
        }
      }
      if x in WithoutFrom(s[1..], drop, base + 1) {
        var i :| 0 <= i < |s| - 1 && base + 1 + i !in drop && s[1..][i] == x;
        assert s[i + 1] == x && base + (i + 1) !in drop;
      }
    }
  }

  lemma WithoutFromMembers(s: seq<string>, drop: set<nat>, base: nat)
    ensures forall x :: x in WithoutFrom(s, drop, base) <==>
      exists i :: 0 <= i < |s| && base + i !in drop && s[i] == x
  {
    forall x ensures x in WithoutFrom(s, drop, base) <==> exists i :: 0 <= i < |s| && base + i !in drop && s[i] == x {
      WithoutFromMember(s, drop, base, x);
    }
  }

  lemma {:induction false} WithoutFromDistinct(s: seq<string>, drop: set<nat>, base: nat)
    requires Distinct(s)
    ensures Distinct(WithoutFrom(s, drop, base))
  {
    if s != [] {
      assert Distinct(s[1..]);
      WithoutFromDistinct(s[1..], drop, base + 1);
      WithoutFromMembers(s[1..], drop, base + 1);
      assert s[0] !in WithoutFrom(s[1..], drop, base + 1) by {
        forall i | 0 <= i < |s| - 1 ensures s[1..][i] != s[0] {
          assert s[1..][i] == s[i + 1];
        }
      }
    }
  }

  /** Positions below base do not matter. */
  lemma {:induction false} WithoutFromBelow(s: seq<string>, drop: set<nat>, base: nat, x: nat)
    requires x < base
    ensures WithoutFrom(s, drop + {x}, base) == WithoutFrom(s, drop, base)
    ensures WithoutFrom(s, drop - {x}, base) == WithoutFrom(s, drop, base)
  {
    if s != [] {
      WithoutFromBelow(s[1..], drop, base + 1, x);
    }
  }

  /** A prefix of positions none of which is dropped is kept as it is. */
  lemma {:induction false} WithoutFromPrefix(s: seq<string>, drop: set<nat>, base: nat, k: nat)
    requires k <= |s|
    requires forall d :: d in drop ==> !(base <= d < base + k)
    ensures WithoutFrom(s, drop, base) == s[..k] + WithoutFrom(s[k..], drop, base + k)
  {
    if k > 0 {
      WithoutFromPrefix(s[1..], drop, base + 1, k - 1);
      assert s[1..][..k - 1] == s[1..k] && s[1..][k - 1..] == s[k..];
      assert s[..k] == [s[0]] + s[1..k];
    }
  }

  /** Deleting each position of an in-range set deletes exactly that many cards. */
  lemma {:induction false} WithoutFromLength(s: seq<string>, drop: set<nat>, base: nat)
    requires forall d :: d in drop ==> base <= d < base + |s|
    ensures |WithoutFrom(s, drop, base)| == |s| - |drop|
  {
    if s == [] {
    } else if base in drop {
      WithoutFromBelow(s[1..], drop, base + 1, base);
      WithoutFromLength(s[1..], drop - {base}, base + 1);
    } else {
      WithoutFromLength(s[1..], drop, base + 1);
    }
  }

  /**
   * `del s[i]` on a list from which only positions above i have been deleted
   * so far deletes position i of the original list: the reason the source
   * deletes in descending order.
   */
  lemma DeleteBelowDeleted(s: seq<string>, done: set<nat>, i: nat)
    requires i < |s|
    requires forall d :: d in done ==> d > i
    ensures i < |Without(s, done)|
    ensures Without(s, done)[..i] + Without(s, done)[i + 1..] == Without(s, done + {i})
  {
    var kept := Without(s, done);
    var rest := WithoutFrom(s[i + 1..], done, i + 1);
    WithoutFromPrefix(s, done, 0, i + 1);
    assert kept == s[..i + 1] + rest;
    WithoutFromPrefix(s, done + {i}, 0, i);
    assert s[i..][1..] == s[i + 1..];
    assert WithoutFrom(s[i..], done + {i}, i) == WithoutFrom(s[i + 1..], done + {i}, i + 1);
    WithoutFromBelow(s[i + 1..], done, i + 1, i);
    assert Without(s, done + {i}) == s[..i] + rest;
    assert s[..i + 1] == s[..i] + [s[i]];
    assert kept[..i] == s[..i];
    assert Without(s, done)[i + 1..] == rest;
  }

  // ---------------------------------------------------------------------
  // sorted(selected, reverse=True)

  predicate StrictlyDescending(s: seq<nat>) {
    forall i, j :: 0 <= i < j < |s| ==> s[i] > s[j]
  }

  /** Places x into a descending list. */
  function Insert(x: nat, s: seq<nat>): (r: seq<nat>)
    ensures |r| == |s| + 1
    ensures forall y :: y in r <==> y == x || y in s
  {
    if s == [] || x > s[0] then [x] + s
    else
      assert s == [s[0]] + s[1..];
      [s[0]] + Insert(x, s[1..])
  }

  lemma {:induction false} InsertDescending(x: nat, s: seq<nat>)
    requires StrictlyDescending(s) && x !in s
    ensures StrictlyDescending(Insert(x, s))
  {
    if s != [] && x <= s[0] {
      var t := s[1..];
      assert StrictlyDescending(t);
      assert x !in t;
      InsertDescending(x, t);
      var u := Insert(x, t);
      forall y | y in u ensures y < s[0] {
        if y != x {
          var j :| 0 <= j < |t| && t[j] == y;
          assert s[j + 1] == y;
        }
      }
      forall i, j | 0 <= i < j < |u| + 1 ensures ([s[0]] + u)[i] > ([s[0]] + u)[j] {
        if i == 0 {
          assert ([s[0]] + u)[j] == u[j - 1];
          assert u[j - 1] in u;
        } else {
          assert ([s[0]] + u)[i] == u[i - 1] && ([s[0]] + u)[j] == u[j - 1];
        }
      }
    }
  }

  /** `sorted(s, reverse=True)` for indices without repetitions: the same indices, in descending order. */
  function SortedDescending(s: seq<nat>): (r: seq<nat>)
    requires Distinct(s)
    ensures StrictlyDescending(r)
    ensures |r| == |s| && forall x :: x in r <==> x in s
  {
    if s == [] then []
    else
      assert Distinct(s[1..]);
      assert s == [s[0]] + s[1..];
      var t := SortedDescending(s[1..]);
      assert s[0] !in s[1..];
      InsertDescending(s[0], t);
      Insert(s[0], t)
  }

  /** In a descending list below n, the k-th entry leaves room for k larger ones. */
  lemma {:induction false} DescendingBound(s: seq<nat>, n: nat, k: nat)
    requires StrictlyDescending(s) && k < |s| && s[0] < n
    ensures s[k] + k < n
  {
    if k > 0 {
      DescendingBound(s, n, k - 1);
    }
  }

  // ---------------------------------------------------------------------
  // The board

  /**
   * The invariant of a dealt board: cards never repeat, every card on the
   * board has been used, the used cards come from the deck, the board keeps
   * its twelve cards until the deck is spent, and the undealt cards come in
   * threes.
   */
  ghost predicate DealtFrom(deck: set<string>, cards: seq<string>, used: set<string>) {
    Distinct(cards) && Elements(cards) <= used && used <= deck
    && (|cards| == 12 || used == deck)
    && |deck - used| % 3 == 0
  }

  /** The game-start deal, `random.sample(ALL_CARDS, 12)`, gives a dealt board. */
  lemma StartDeal(deck: set<string>, deal: seq<string>)
    requires |deck| % 3 == 0 && IsSample(deal, deck, 12)
    ensures DealtFrom(deck, deal, Elements(deal))
    ensures |deck - Elements(deal)| == |deck| - 12
  {
    DistinctCardinality(deal);
    DifferenceCardinality(deck, Elements(deal));
  }

  /** The deck of the card directory comes in threes, and a deal from it leaves 69 cards. */
  lemma FullDeckDeal(deal: seq<string>)
    requires IsSample(deal, AllCardSet(), 12)
    ensures |AllCardSet()| % 3 == 0
    ensures |AllCardSet() - Elements(deal)| == 69
  {
    DeckSize();
    StartDeal(AllCardSet(), deal);
  }

  /**
   * The refill pool, `set(ALL_CARDS) - set(cards) - used_cards`, taken after
   * the deletion: since every card left on the board is used, it is the set
   * of never-used cards.
   */
  lemma RemainingIsUnused(deck: set<string>, kept: seq<string>, used: set<string>)
    requires Elements(kept) <= used
    ensures deck - Elements(kept) - used == deck - used
  {
  }

  /** On a dealt board, the source's refill pool after deleting the selected cards is deck minus used. */
  lemma PoolAfterDeletion(deck: set<string>, cards: seq<string>, used: set<string>, sel: seq<nat>)
    requires DealtFrom(deck, cards, used) && IsSelection(sel, cards)
    ensures deck - Elements(Without(cards, Elements(sel))) - used == deck - used
  {
    KeptCards(cards, sel);
    RemainingIsUnused(deck, Without(cards, Elements(sel)), used);
  }

  /** `[cards[i] for i in sel]` */
  function Pick(cards: seq<string>, sel: seq<nat>): (picked: seq<string>)
    requires forall i :: 0 <= i < |sel| ==> sel[i] < |cards|
    ensures |picked| == |sel| && forall k :: 0 <= k < |sel| ==> picked[k] == cards[sel[k]]
  {
    if sel == [] then [] else [cards[sel[0]]] + Pick(cards, sel[1..])
  }

  /** The indices of a complete selection. */
  predicate IsSelection(sel: seq<nat>, cards: seq<string>) {
    |sel| == 3 && Distinct(sel) && forall i :: 0 <= i < |sel| ==> sel[i] < |cards|
  }

  /**
   * Deleting the selected positions of a board without repeated cards
   * removes exactly the three selected cards and keeps the others.
   */
  lemma KeptCards(cards: seq<string>, sel: seq<nat>)
    requires Distinct(cards) && IsSelection(sel, cards)
    ensures |Without(cards, Elements(sel))| == |cards| - 3
    ensures Distinct(Without(cards, Elements(sel)))
    ensures Elements(Without(cards, Elements(sel))) == Elements(cards) - Elements(Pick(cards, sel))
  {
    var drop := Elements(sel);
    var kept := Without(cards, drop);
    DistinctCardinality(sel);
    WithoutFromLength(cards, drop, 0);
    WithoutFromDistinct(cards, drop, 0);
    WithoutFromMembers(cards, drop, 0);
    var picked := Pick(cards, sel);
    forall x | x in kept ensures x in cards && x !in picked {
      var j :| 0 <= j < |cards| && j !in drop && cards[j] == x;
    }
    forall x | x in cards && x !in picked ensures x in kept {
      var j :| 0 <= j < |cards| && cards[j] == x;
    }
  }

  /** Two lists without repetitions and without common cards concatenate to one without repetitions. */
  lemma AppendDistinct(a: seq<string>, b: seq<string>)
    requires Distinct(a) && Distinct(b) && forall x :: x in a ==> x !in b
    ensures Distinct(a + b)
  {
    forall i, j | 0 <= i < j < |a + b| ensures (a + b)[i] != (a + b)[j] {
      if j < |a| {
        assert (a + b)[i] == a[i] && (a + b)[j] == a[j];
      } else if i >= |a| {
        assert (a + b)[i] == b[i - |a|] && (a + b)[j] == b[j - |a|];
      } else {
        assert (a + b)[i] == a[i] && (a + b)[j] == b[j - |a|];
        assert a[i] in a && b[j - |a|] in b;
      }
    }
  }

  /** A refill takes three cards from a pool that comes in threes, or none from an empty pool. */
  lemma DrawFromPool(deck: set<string>, used: set<string>, draw: seq<string>)
    requires used <= deck && |deck - used| % 3 == 0
    requires IsSample(draw, deck - used, Min(3, |deck - used|))
    ensures |deck - (used + Elements(draw))| == |deck - used| - |draw|
    ensures |deck - (used + Elements(draw))| % 3 == 0
    ensures |draw| == 3 || (draw == [] && used == deck)
  {
    var unused := deck - used;
    DistinctCardinality(draw);
    DifferenceCardinality(unused, Elements(draw));
    assert deck - (used + Elements(draw)) == unused - Elements(draw);
    if |unused| < 3 {
      assert |unused| == 0;
      assert unused == {};
    }
  }

  /**
   * A successful judgment keeps the board dealt: the three selected cards
   * leave the board, the others keep their order, and min(3, unused)
   * never-used cards are appended. A card that was used and is off the
   * board never comes back, the board keeps its size while three unused
   * cards remain, and it empties only once the whole deck has been used.
   */
  lemma RefillKeepsDealt(deck: set<string>, cards: seq<string>, used: set<string>, sel: seq<nat>, draw: seq<string>)
    requires DealtFrom(deck, cards, used) && IsSelection(sel, cards)
    requires IsSample(draw, deck - used, Min(3, |deck - used|))
    ensures DealtFrom(deck, Without(cards, Elements(sel)) + draw, used + Elements(draw))
    ensures |Without(cards, Elements(sel)) + draw| == |cards| - 3 + |draw|
    ensures |deck - used| >= 3 ==> |Without(cards, Elements(sel)) + draw| == |cards|
    ensures forall k :: 0 <= k < |sel| ==> cards[sel[k]] !in Without(cards, Elements(sel)) + draw
    ensures forall x :: x in used && x !in cards ==> x !in Without(cards, Elements(sel)) + draw
  {
    var kept := Without(cards, Elements(sel));
    KeptCards(cards, sel);
    forall x | x in kept ensures x in used && x in cards {
      assert x in Elements(kept);
    }
    AppendDistinct(kept, draw);
    DrawFromPool(deck, used, draw);
    var picked := Pick(cards, sel);
    forall k | 0 <= k < |sel| ensures cards[sel[k]] !in kept + draw {
      assert picked[k] == cards[sel[k]] && cards[sel[k]] in used;
      assert cards[sel[k]] in Elements(picked);
      assert cards[sel[k]] !in Elements(kept);
    }
  }

  /** The game is over when the board is empty; by then every card of the deck has been used. */
  lemma GameOverMeansDeckUsed(deck: set<string>, cards: seq<string>, used: set<string>)
    requires DealtFrom(deck, cards, used) && cards == []
    ensures used == deck
  {
  }

  /** Nothing is deleted when nothing is dropped. */
  lemma WithoutNothing(s: seq<string>)
    ensures Without(s, {}) == s
  {
    WithoutFromPrefix(s, {}, 0, |s|);
    assert s[..|s|] == s && s[|s|..] == [];
  }

  /** The selection in descending order: the same three indices, each position k leaving k cards above it. */
  lemma SortedSelection(sel: seq<nat>, n: nat)
    requires |sel| == 3 && Distinct(sel) && forall i :: 0 <= i < |sel| ==> sel[i] < n
    ensures |SortedDescending(sel)| == 3
    ensures Elements(SortedDescending(sel)) == Elements(sel)
    ensures forall k :: 0 <= k < 3 ==> SortedDescending(sel)[k] + k < n
  {
    var order := SortedDescending(sel);
    assert order[0] in sel;
    forall k | 0 <= k < 3 ensures order[k] + k < n {
      DescendingBound(order, n, k);
    }
  }

  /**
   * `for i in sorted(sel, reverse=True): del cards[i]`. Deleting from the
   * highest index down keeps every index still to be deleted pointing at
   * the card it selected.
   */
  method DeleteSelected(board: seq<string>, sel: seq<nat>) returns (cards: seq<string>)
    requires IsSelection(sel, board)
    ensures cards == Without(board, Elements(sel))
    ensures |cards| == |board| - 3
  {
    var order := SortedDescending(sel);
    SortedSelection(sel, |board|);
    WithoutNothing(board);
    assert Elements(order[..0]) == {};
    cards := board;
    var k := 0;
    while k < 3
      invariant 0 <= k <= 3
      invariant cards == Without(board, Elements(order[..k]))
      invariant |cards| == |board| - k
    {
      var i := order[k];
      assert forall d :: d in Elements(order[..k]) ==> d > i by {
        forall d | d in Elements(order[..k]) ensures d > i {
          var j :| 0 <= j < k && order[..k][j] == d;
        }
      }
      DeleteBelowDeleted(board, Elements(order[..k]), i);
      cards := cards[..i] + cards[i + 1..];
      assert order[..k + 1] == order[..k] + [i];
      assert Elements(order[..k + 1]) == Elements(order[..k]) + {i};
      k := k + 1;
    }
    assert order[..3] == order;
  }

  // ---------------------------------------------------------------------
  // The session

  /** st.session_state for the game page. */
  class Session {
    /** ALL_CARDS, the card files listed from the card directory, as a set. */
    const deck: set<string>
    var gameStarted: bool
    var cards: seq<string>
    var usedCards: set<string>
    var selected: seq<nat>
    var setSuccesses: seq<Record>
    var setFailures: seq<Record>

    ghost predicate Valid()
      reads this
    {
      Numbered(setSuccesses) && Numbered(setFailures)
      && Distinct(selected) && |selected| <= 3
      && (forall i :: 0 <= i < |selected| ==> selected[i] < |cards|)
      && |deck| % 3 == 0
      && (gameStarted ==> DealtFrom(deck, cards, usedCards))
      && (!gameStarted ==> cards == [] && usedCards == {} && selected == [] && setSuccesses == [] && setFailures == [])
    }

    /**
     * The cards never drawn: the pool the next refill samples from.
     * RemainingIsUnused shows it is the source's pool
     * `set(ALL_CARDS) - set(cards) - used_cards` once the selected cards are deleted.
     */
    function Unused(): set<string>
      reads this
    {
      deck - usedCards
    }

    /** The cards at the selected positions. */
    function SelectedCards(): seq<string>
      reads this
      requires Valid()
    {
      Pick(cards, selected)
    }

    /** The end-of-game test: the board is empty. */
    predicate GameOver()
      reads this
    {
      gameStarted && |cards| == 0
    }

    /** The state initialised on the first visit of the page. */
    constructor (allCards: set<string>)
      requires |allCards| % 3 == 0
      ensures Valid() && !gameStarted && deck == allCards
      ensures cards == [] && usedCards == {} && selected == [] && setSuccesses == [] && setFailures == []
    {
      deck := allCards;
      gameStarted := false;
      cards := [];
      usedCards := {};
      selected := [];
      setSuccesses := [];
      setFailures := [];
    }

    /** The start button: deal twelve distinct cards from the deck and record them as used. */
    method StartGame(deal: seq<string>)
      requires Valid() && !gameStarted
      requires IsSample(deal, deck, 12)
      modifies this
      ensures Valid() && gameStarted
      ensures cards == deal && usedCards == Elements(deal) && selected == []
      ensures |cards| == 12 && Distinct(cards) && Elements(cards) <= deck
      ensures |Unused()| == |deck| - 12
      ensures setSuccesses == old(setSuccesses) == [] && setFailures == old(setFailures) == []
    {
      StartDeal(deck, deal);
      gameStarted := true;
      cards := deal;
      usedCards := Elements(deal);
      selected := [];
    }

    /** toggle_card(idx), called by the button of the card at position idx. */
    method ToggleCard(idx: nat)
      requires Valid() && idx < |cards|
      modifies this`selected
      ensures Valid()
      ensures selected == Toggled(old(selected), idx)
    {
      ToggledSelection(selected, idx);
      ghost var before := selected;
      if idx in selected {
        selected := RemoveFirst(selected, idx);
      } else if |selected| < 3 {
        selected := selected + [idx];
      }
      forall i | 0 <= i < |selected| ensures selected[i] < |cards| {
        assert selected[i] in before || selected[i] == idx;
      }
    }

    /**
     * The `if is_set(selected_cards)` branch of process_selection(): record
     * the success, delete the selected cards and append the refill `draw`.
     */
    method AcceptSet(now: nat, draw: seq<string>)
      requires Valid() && gameStarted && IsSelection(selected, cards)
      requires IsSample(draw, Unused(), Min(3, |Unused()|))
      modifies this
      ensures Valid() && gameStarted && selected == []
      ensures cards == Without(old(cards), Elements(old(selected))) + draw
      ensures usedCards == old(usedCards) + Elements(draw)
      ensures setSuccesses == old(setSuccesses) + [Record(|old(setSuccesses)| + 1, now)]
      ensures setFailures == old(setFailures)
      ensures |cards| == |old(cards)| - 3 + |draw|
      ensures |old(Unused())| >= 3 ==> |cards| == |old(cards)|
      ensures forall k :: 0 <= k < 3 ==> old(cards)[old(selected)[k]] !in cards
      ensures forall x :: x in old(usedCards) && x !in old(cards) ==> x !in cards
    {
      RefillKeepsDealt(deck, cards, usedCards, selected, draw);
      // The pool the source samples from after the deletion is Unused().
      PoolAfterDeletion(deck, cards, usedCards, selected);
      setSuccesses := AppendRecord(setSuccesses, now);
      var kept := DeleteSelected(cards, selected);
      cards := kept + draw;
      usedCards := usedCards + Elements(draw);
      selected := [];
    }

    /** The else branch of process_selection(): record the failure; the board stays. */
    method RejectSet(now: nat)
      requires Valid() && gameStarted
      modifies this
      ensures Valid() && gameStarted && selected == []
      ensures cards == old(cards) && usedCards == old(usedCards)
      ensures setFailures == old(setFailures) + [Record(|old(setFailures)| + 1, now)]
      ensures setSuccesses == old(setSuccesses)
    {
      setFailures := AppendRecord(setFailures, now);
      selected := [];
    }

    /**
     * process_selection(), with the elapsed seconds `now` and the outcome
     * `draw` of the refill's random.sample, which is only taken after a SET.
     */
    method ProcessSelection(now: nat, draw: seq<string>) returns (success: bool)
      requires Valid() && |selected| == 3
      requires IsSet(SelectedCards()) ==> IsSample(draw, Unused(), Min(3, |Unused()|))
      modifies this
      ensures Valid() && selected == [] && gameStarted == old(gameStarted)
      ensures success == IsSet(old(SelectedCards()))
      ensures success ==>
        && cards == Without(old(cards), Elements(old(selected))) + draw
        && usedCards == old(usedCards) + Elements(draw)
        && setSuccesses == old(setSuccesses) + [Record(|old(setSuccesses)| + 1, now)]
        && setFailures == old(setFailures)
      ensures success ==> |cards| == |old(cards)| - 3 + |draw|
      ensures success && |old(Unused())| >= 3 ==> |cards| == |old(cards)|
      ensures success ==> forall k :: 0 <= k < 3 ==> old(cards)[old(selected)[k]] !in cards
      ensures !success ==>
        && cards == old(cards) && usedCards == old(usedCards)
        && setFailures == old(setFailures) + [Record(|old(setFailures)| + 1, now)]
        && setSuccesses == old(setSuccesses)
      ensures old(usedCards) <= usedCards
      ensures forall x :: x in old(usedCards) && x !in old(cards) ==> x !in cards
    {
      assert gameStarted;
      success := IsSet(Pick(cards, selected));
      if success {
        AcceptSet(now, draw);
      } else {
        RejectSet(now);
      }
    }

    /** The closing message is shown once the board is empty, and by then the whole deck has been dealt. */
    lemma EndOfGame()
      requires Valid() && GameOver()
      ensures usedCards == deck && Unused() == {}
    {
      GameOverMeansDeckUsed(deck, cards, usedCards);
    }

    /** With the card directory's deck, every card on the board is a card name, so decode reads it. */
    lemma BoardHoldsCardNames()
      requires Valid() && gameStarted && deck == AllCardSet()
      ensures forall c :: c in cards ==> IsCardName(c)
    {
      forall c | c in cards ensures IsCardName(c) {
        assert c in Elements(cards);
        InDeck(c);
      }
    }

    /** The page's rerun step: a selection that has reached three cards is judged at once. */
    method OnRerun(now: nat, draw: seq<string>) returns (judged: Option<bool>)
      requires Valid()
      requires |selected| == 3 && IsSet(SelectedCards()) ==> IsSample(draw, Unused(), Min(3, |Unused()|))
      modifies this
      ensures Valid()
      ensures judged.Some? <==> |old(selected)| == 3
      ensures gameStarted == old(gameStarted)
      ensures judged.Some? ==> selected == [] && judged.value == IsSet(old(SelectedCards()))
      ensures judged == Some(true) ==>
        && cards == Without(old(cards), Elements(old(selected))) + draw
        && usedCards == old(usedCards) + Elements(draw)
        && setSuccesses == old(setSuccesses) + [Record(|old(setSuccesses)| + 1, now)]
        && setFailures == old(setFailures)
      ensures judged == Some(true) ==> |cards| == |old(cards)| - 3 + |draw|
      ensures judged == Some(true) && |old(Unused())| >= 3 ==> |cards| == |old(cards)|
      ensures judged == Some(true) ==> forall k :: 0 <= k < 3 ==> old(cards)[old(selected)[k]] !in cards
      ensures judged == Some(false) ==>
        && cards == old(cards) && usedCards == old(usedCards)
        && setFailures == old(setFailures) + [Record(|old(setFailures)| + 1, now)]
        && setSuccesses == old(setSuccesses)
      ensures old(usedCards) <= usedCards
      ensures forall x :: x in old(usedCards) && x !in old(cards) ==> x !in cards
      ensures judged.None? ==>
        && cards == old(cards) && usedCards == old(usedCards) && selected == old(selected)
        && setSuccesses == old(setSuccesses) && setFailures == old(setFailures)
    {
      if |selected| == 3 {
        var success := ProcessSelection(now, draw);
        judged := Some(success);
      } else {
        judged := None;
      }
    }
  }
}

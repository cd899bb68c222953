/**
 * The card universe. A card is identified by a file name: four ternary
 * digits followed by ".png". The game's deck is the listing of the 81 such
 * names; `AllCards` enumerates them in base-3 order, which for names of
 * equal length over '0' < '1' < '2' is also their sorted order, though no
 * lemma here states that.
 */
module Cards {
  import opened Collections

  predicate IsDigit(ch: char) {
    ch == '0' || ch == '1' || ch == '2'
  }

  function Value(ch: char): (v: nat)
    requires IsDigit(ch)
    ensures v < 3
  {
    if ch == '0' then 0 else if ch == '1' then 1 else 2
  }

  function DigitChar(v: nat): (ch: char)
    requires v < 3
    ensures IsDigit(ch) && Value(ch) == v
  {
    if v == 0 then '0' else if v == 1 then '1' else '2'
  }

  /** The first four characters are ternary digits: all that the game logic reads. */
  predicate IsCode(s: string) {
    |s| >= 4 && forall i :: 0 <= i < 4 ==> IsDigit(s[i])
  }

  /** A card image file name, such as "0120.png". */
  predicate IsCardName(s: string) {
    |s| == 8 && IsCode(s) && s[4..] == ".png"
  }

  /** The name of the i-th card of the deck: i written in base 3. */
  function CardName(i: nat): string
    requires i < 81
  {
    var j := i / 3;
    var k := j / 3;
    [DigitChar(k / 3), DigitChar(k % 3), DigitChar(j % 3), DigitChar(i % 3)] + ".png"
  }

  /** The position of a card name in the deck. */
  function Index(s: string): nat
    requires IsCode(s)
  {
    3 * (3 * (3 * Value(s[0]) + Value(s[1])) + Value(s[2])) + Value(s[3])
  }

  /** ALL_CARDS: every card file, the i-th one spelling i in base 3. */
  function AllCards(): (d: seq<string>)
    ensures |d| == 81 && forall i :: 0 <= i < 81 ==> d[i] == CardName(i)
  {
    seq(81, i requires 0 <= i < 81 => CardName(i))
  }

  /** The deck as a set. */
  function AllCardSet(): set<string> {
    Elements(AllCards())
  }

  lemma IndexOfCardName(i: nat)
    requires i < 81
    ensures IsCardName(CardName(i)) && Index(CardName(i)) == i
  {
    var s := CardName(i);
    var j := i / 3;
    var k := j / 3;
    assert s[0] == DigitChar(k / 3) && s[1] == DigitChar(k % 3);
    assert s[2] == DigitChar(j % 3) && s[3] == DigitChar(i % 3);
    assert s[4..] == ".png";
    assert 3 * (k / 3) + k % 3 == k;
    assert 3 * k + j % 3 == j;
  }

  lemma CardNameOfIndex(s: string)
    requires IsCardName(s)
    ensures Index(s) < 81 && CardName(Index(s)) == s
  {
    var k := 3 * Value(s[0]) + Value(s[1]);
    var j := 3 * k + Value(s[2]);
    var i := 3 * j + Value(s[3]);
    assert i / 3 == j && i % 3 == Value(s[3]);
    assert j / 3 == k && j % 3 == Value(s[2]);
    assert k / 3 == Value(s[0]) && k % 3 == Value(s[1]);
    var t := CardName(i);
    assert t[..4] == s[..4];
    assert t == t[..4] + t[4..] && s == s[..4] + s[4..];
  }

  /** The deck holds each card name exactly once, and nothing else. */
  lemma AllCardsDistinct()
    ensures |AllCards()| == 81 && Distinct(AllCards())
  {
    forall i, j | 0 <= i < j < 81 ensures AllCards()[i] != AllCards()[j] {
      IndexOfCardName(i);
      IndexOfCardName(j);
    }
  }

  lemma InDeck(s: string)
    ensures s in AllCardSet() <==> IsCardName(s)
  {
    if IsCardName(s) {
      CardNameOfIndex(s);
      assert AllCards()[Index(s)] == s;
    }
    if s in AllCardSet() {
      var i :| 0 <= i < 81 && AllCards()[i] == s;
      IndexOfCardName(i);
    }
  }

  lemma DeckSize()
    ensures |AllCardSet()| == 81
  {
    AllCardsDistinct();
    DistinctCardinality(AllCards());
  }
}

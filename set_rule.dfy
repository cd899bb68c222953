/**
 * The SET predicate of pages/2_Game.py. `is_set` zips the first four
 * characters of every card together and accepts when each zipped column
 * holds one value or three distinct values.
 */
module SetRule {
  import opened Collections
  import opened Cards

  /** How many columns `zip(*[card[:4] for card in cards])` produces. */
  function Width(cards: seq<string>): (w: nat)
    ensures w <= 4
    ensures forall j :: 0 <= j < |cards| ==> w <= |cards[j]|
    ensures |cards| > 0 ==> exists j :: 0 <= j < |cards| && w == Min(|cards[j]|, 4)
    ensures |cards| == 0 ==> w == 0
  {
    if |cards| == 0 then 0
    else if |cards| == 1 then Min(|cards[0]|, 4)
    else Min(Min(|cards[0]|, 4), Width(cards[1..]))
  }

  /** The set of values in the i-th zipped column. */
  function Feature(cards: seq<string>, i: nat): set<char>
    requires i < Width(cards)
  {
    set j | 0 <= j < |cards| :: cards[j][i]
  }

  /** is_set(cards) */
  predicate IsSet(cards: seq<string>) {
    forall i :: 0 <= i < Width(cards) ==> |Feature(cards, i)| == 1 || |Feature(cards, i)| == 3
  }

  /** The rule as the tutorial words it: all the same, or all different. */
  predicate SameOrDistinct(x: char, y: char, z: char) {
    (x == y && y == z) || (x != y && y != z && x != z)
  }

  lemma {:induction false} ThreeValues(x: char, y: char, z: char)
    ensures |{x, y, z}| == 1 || |{x, y, z}| == 3 <==> SameOrDistinct(x, y, z)
  {
    if x == y && y == z {
      assert {x, y, z} == {x};
    } else if x == y {
      assert {x, y, z} == {x} + {z};
    } else if y == z || x == z {
      assert {x, y, z} == {x} + {y};
    } else {
      assert {x, y, z} == {x, y} + {z};
    }
  }

  /** For three cards, is_set checks each of the shared leading positions for all-same-or-all-different. */
  lemma IsSetOfThree(a: string, b: string, c: string)
    ensures Width([a, b, c]) == Min(Min(|a|, |b|), Min(|c|, 4))
    ensures IsSet([a, b, c]) <==>
      forall i :: 0 <= i < Width([a, b, c]) ==> SameOrDistinct(a[i], b[i], c[i])
  {
    var s := [a, b, c];
    assert s[1..] == [b, c] && [b, c][1..] == [c];
    assert s[0] == a && s[1] == b && s[2] == c;
    forall i | 0 <= i < Width(s)
      ensures (|Feature(s, i)| == 1 || |Feature(s, i)| == 3) <==> SameOrDistinct(a[i], b[i], c[i])
    {
      assert Feature(s, i) == {a[i], b[i], c[i]};
      ThreeValues(a[i], b[i], c[i]);
    }
  }

  /** For card codes the width is always four. */
  lemma IsSetOfCodes(a: string, b: string, c: string)
    requires IsCode(a) && IsCode(b) && IsCode(c)
    ensures IsSet([a, b, c]) <==> forall i :: 0 <= i < 4 ==> SameOrDistinct(a[i], b[i], c[i])
  {
    IsSetOfThree(a, b, c);
  }

  /** The width only depends on which cards are present, not on their order or multiplicity. */
  lemma WidthBySet(s: seq<string>, t: seq<string>)
    requires forall x :: x in s <==> x in t
    ensures Width(s) == Width(t)
  {
    if |s| > 0 {
      assert s[0] in t;
    }
    if |t| > 0 {
      assert t[0] in s;
    }
    if |s| > 0 {
      var js :| 0 <= js < |s| && Width(s) == Min(|s[js]|, 4);
      var jt :| 0 <= jt < |t| && Width(t) == Min(|t[jt]|, 4);
      assert s[js] in t && t[jt] in s;
      var ks :| 0 <= ks < |t| && t[ks] == s[js];
      var kt :| 0 <= kt < |s| && s[kt] == t[jt];
    }
  }

  /** is_set gives the same answer for any rearrangement of its cards. */
  lemma IsSetPermutation(s: seq<string>, t: seq<string>)
    requires multiset(s) == multiset(t)
    ensures IsSet(s) == IsSet(t)
  {
    assert forall x :: x in s <==> x in multiset(s);
    assert forall x :: x in t <==> x in multiset(t);
    WidthBySet(s, t);
    forall i | 0 <= i < Width(s) ensures Feature(s, i) == Feature(t, i) {
      forall v | v in Feature(s, i) ensures v in Feature(t, i) {
        var j :| 0 <= j < |s| && s[j][i] == v;
        assert s[j] in t;
        var k :| 0 <= k < |t| && t[k] == s[j];
      }
      forall v | v in Feature(t, i) ensures v in Feature(s, i) {
        var j :| 0 <= j < |t| && t[j][i] == v;
        assert t[j] in s;
        var k :| 0 <= k < |s| && s[k] == t[j];
      }
    }
  }

  /** The width only depends on the lengths of the cards' leading four characters. */
  lemma {:induction false} WidthByLength(s: seq<string>, t: seq<string>)
    requires |s| == |t|
    requires forall j :: 0 <= j < |s| ==> Min(|s[j]|, 4) == Min(|t[j]|, 4)
    ensures Width(s) == Width(t)
  {
    if |s| > 0 {
      assert Min(|s[0]|, 4) == Min(|t[0]|, 4);
    }
    if |s| > 1 {
      WidthByLength(s[1..], t[1..]);
    }
  }

  /** `card[:4]` */
  function Lead(card: string): string {
    card[..Min(|card|, 4)]
  }

  /** is_set reads only the first four characters of each card; a ".png" suffix is ignored. */
  lemma IsSetIgnoresSuffix(s: seq<string>, t: seq<string>)
    requires |s| == |t|
    requires forall j :: 0 <= j < |s| ==> Lead(s[j]) == Lead(t[j])
    ensures IsSet(s) == IsSet(t)
  {
    forall j | 0 <= j < |s| ensures Min(|s[j]|, 4) == Min(|t[j]|, 4) {
      assert |Lead(s[j])| == |Lead(t[j])|;
    }
    WidthByLength(s, t);
    forall i | 0 <= i < Width(s) ensures Feature(s, i) == Feature(t, i) {
      forall j | 0 <= j < |s| ensures s[j][i] == t[j][i] {
        assert s[j][i] == Lead(s[j])[i] && t[j][i] == Lead(t[j])[i];
      }
    }
  }

  /** The arithmetic reading of the rule: for ternary digits, the values sum to a multiple of 3. */
  lemma SumRule(x: char, y: char, z: char)
    requires IsDigit(x) && IsDigit(y) && IsDigit(z)
    ensures SameOrDistinct(x, y, z) <==> (Value(x) + Value(y) + Value(z)) % 3 == 0
  {
  }

  /** The digit that completes x and y to an all-same or all-different triple. */
  function ThirdDigit(x: char, y: char): char
    requires IsDigit(x) && IsDigit(y)
  {
    if x == y then x else DigitChar(3 - Value(x) - Value(y))
  }

  lemma ThirdDigitUnique(x: char, y: char, z: char)
    requires IsDigit(x) && IsDigit(y) && IsDigit(z)
    ensures SameOrDistinct(x, y, z) <==> z == ThirdDigit(x, y)
  {
  }

  /** The code of the unique card that forms a SET with the cards a and b. */
  function Third(a: string, b: string): (c: string)
    requires IsCode(a) && IsCode(b)
    ensures |c| == 4 && IsCode(c)
  {
    [ThirdDigit(a[0], b[0]), ThirdDigit(a[1], b[1]), ThirdDigit(a[2], b[2]), ThirdDigit(a[3], b[3])]
  }

  /** Any two codes determine the third: the triple is a SET exactly when the third is Third(a, b). */
  lemma ThirdCard(a: string, b: string, c: string)
    requires IsCode(a) && IsCode(b) && IsCode(c)
    ensures IsSet([a, b, c]) <==> c[..4] == Third(a, b)
  {
    IsSetOfCodes(a, b, c);
    var t := Third(a, b);
    forall i | 0 <= i < 4 ensures SameOrDistinct(a[i], b[i], c[i]) <==> c[i] == t[i] {
      ThirdDigitUnique(a[i], b[i], c[i]);
    }
    if c[..4] == t {
      assert forall i :: 0 <= i < 4 ==> c[i] == c[..4][i];
    }
    if forall i :: 0 <= i < 4 ==> c[i] == t[i] {
      assert c[..4] == t;
    }
  }

  /** Two distinct card names are completed to a SET by exactly one card name, neither of the two. */
  lemma UniqueCompletionOfNames(a: string, b: string)
    requires IsCardName(a) && IsCardName(b) && a != b
    ensures IsCardName(Third(a, b) + ".png")
    ensures Third(a, b) + ".png" != a && Third(a, b) + ".png" != b
    ensures forall c :: IsCardName(c) ==> (IsSet([a, b, c]) <==> c == Third(a, b) + ".png")
  {
    var t := Third(a, b);
    var c0 := t + ".png";
    assert c0[..4] == t && c0[4..] == ".png";
    assert a == a[..4] + a[4..] && b == b[..4] + b[4..];
    var i :| 0 <= i < 4 && a[i] != b[i];
    assert c0[i] == t[i] == ThirdDigit(a[i], b[i]);
    forall c | IsCardName(c) ensures IsSet([a, b, c]) <==> c == c0 {
      ThirdCard(a, b, c);
      assert c == c[..4] + c[4..];
    }
  }

  /**
   * In the deck, every two distinct cards are completed to a SET by exactly
   * one card, and that card is neither of the two.
   */
  lemma UniqueCompletion(a: string, b: string)
    requires a in AllCardSet() && b in AllCardSet() && a != b
    ensures Third(a, b) + ".png" in AllCardSet()
    ensures Third(a, b) + ".png" != a && Third(a, b) + ".png" != b
    ensures forall c :: c in AllCardSet() ==> (IsSet([a, b, c]) <==> c == Third(a, b) + ".png")
  {
    InDeck(a);
    InDeck(b);
    UniqueCompletionOfNames(a, b);
    InDeck(Third(a, b) + ".png");
    forall c | c in AllCardSet() ensures IsSet([a, b, c]) <==> c == Third(a, b) + ".png" {
      InDeck(c);
    }
  }
}

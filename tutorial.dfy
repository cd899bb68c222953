/**
 * pages/1_Tutorial.py: the three practice triples with their answer key and
 * verdicts, the answer check of the practice section, and the four
 * single-attribute showcase triples.
 */
module Tutorial {
  import opened Wrappers
  import opened Collections
  import opened Cards
  import opened SetRule
  import opened Utils

  const Set1: seq<string> := ["0000.png", "0010.png", "0020.png"]
  const Set2: seq<string> := ["0120.png", "1201.png", "2012.png"]
  const NotSet: seq<string> := ["0000.png", "0001.png", "1002.png"]

  /** The practice triples under the keys of `answers` and `set_type`. */
  const Examples: map<string, seq<string>> := map["set1" := Set1, "set2" := Set2, "notset" := NotSet]

  const Answers: map<string, seq<string>> := map[
    "set1" := ["전부 다름", "전부 같음", "전부 같음", "전부 같음"],
    "set2" := ["전부 다름", "전부 다름", "전부 다름", "전부 다름"],
    "notset" := ["전부 같음", "전부 같음", "2개만 같음", "전부 다름"]]

  const SetType: map<string, bool> := map["set1" := true, "set2" := true, "notset" := false]

  /** The column order of the answer key: colour, shape, shading, number. */
  const AttributeLabels: seq<string> := ["색깔", "모양", "명암", "개수"]

  // ---------------------------------------------------------------------
  // The answer check

  /** The message check_answer_and_display shows once every column is chosen. */
  datatype Feedback = Correct(example: int, isSet: bool) | TryAgain

  /** No select box is still on its empty option. */
  predicate Complete(selection: seq<Option<string>>) {
    forall i :: 0 <= i < |selection| ==> selection[i].Some?
  }

  /** The chosen labels of a complete selection. */
  function Chosen(selection: seq<Option<string>>): (s: seq<string>)
    requires Complete(selection)
    ensures |s| == |selection| && forall i :: 0 <= i < |s| ==> selection[i] == Some(s[i])
  {
    if selection == [] then [] else [selection[0].value] + Chosen(selection[1..])
  }

  /**
   * check_answer_and_display(selection, correct, is_set, example_num): nothing
   * while a column is unanswered, praise with the verdict when the answers
   * equal the key, a warning otherwise.
   */
  function CheckAnswerAndDisplay(selection: seq<Option<string>>, correct: seq<string>, isSet: bool, exampleNum: int): (r: Option<Feedback>)
    ensures r.None? <==> exists i :: 0 <= i < |selection| && selection[i].None?
    ensures r == Some(Correct(exampleNum, isSet)) <==> Complete(selection) && Chosen(selection) == correct
    ensures r == Some(TryAgain) <==> Complete(selection) && Chosen(selection) != correct
  {
    if !Complete(selection) then None
    else if Chosen(selection) == correct then Some(Correct(exampleNum, isSet))
    else Some(TryAgain)
  }

  /**
   * On four answered columns and a four-entry key, the practice check and
   * utils.check_answer praise the same answers; check_answer says nothing
   * where the practice check warns.
   */
  lemma PracticeAgreesWithCheckAnswer(selection: seq<Option<string>>, correct: seq<string>, isSet: bool, n: int)
    requires |selection| == 4 && |correct| == 4 && Complete(selection)
    ensures CheckAnswerAndDisplay(selection, correct, isSet, n) == Some(Correct(n, isSet))
      <==> CheckAnswer(Chosen(selection), correct, isSet, n) == Success(Some(Praise(n, isSet)))
    ensures CheckAnswerAndDisplay(selection, correct, isSet, n) == Some(TryAgain)
      <==> CheckAnswer(Chosen(selection), correct, isSet, n) == Success(None)
  {
    var user := Chosen(selection);
    assert user[..4] == user && correct[..4] == correct;
    if CheckAnswer(user, correct, isSet, n).Failure? {
      assert false;
    }
  }

  // ---------------------------------------------------------------------
  // The answer key

  /** The choice that describes one attribute of three cards. */
  function Classify<T(==)>(x: T, y: T, z: T): (c: string)
    ensures c in Choices
    ensures c == "전부 같음" <==> x == y && y == z
    ensures c == "전부 다름" <==> x != y && y != z && x != z
    ensures c == "2개만 같음" <==> (x == y || y == z || x == z) && !(x == y && y == z)
  {
    if x == y && y == z then Choices[0]
    else if x != y && y != z && x != z then Choices[2]
    else Choices[1]
  }

  /** The answer for attribute `key` of a triple, read from the decoded cards. */
  function AttributeClass(cards: seq<string>, key: string): string
    requires |cards| == 3 && IsCode(cards[0]) && IsCode(cards[1]) && IsCode(cards[2])
    requires key in Columns
  {
    Classify(Decode(cards[0]).value[key], Decode(cards[1]).value[key], Decode(cards[2]).value[key])
  }

  /** The answer for digit p of a triple of codes. */
  function DigitClass(cards: seq<string>, p: nat): string
    requires |cards| == 3 && IsCode(cards[0]) && IsCode(cards[1]) && IsCode(cards[2]) && p < 4
  {
    Classify(cards[0][p], cards[1][p], cards[2][p])
  }

  /** The columns of the key read the digits 2, 1, 0 and 3 of a card. */
  lemma LabelPositions()
    ensures AttributeLabels == Columns
    ensures Position(AttributeLabels[0]) == 2 && Position(AttributeLabels[1]) == 1
    ensures Position(AttributeLabels[2]) == 0 && Position(AttributeLabels[3]) == 3
  {
  }

  /**
   * The full answer key of a triple, in the order of `attribute_labels`:
   * column i answers for the digit that decode reads for label i.
   */
  function AnswerKey(cards: seq<string>): (key: seq<string>)
    requires |cards| == 3 && IsCode(cards[0]) && IsCode(cards[1]) && IsCode(cards[2])
    ensures |key| == 4
    ensures forall i :: 0 <= i < 4 ==> AttributeLabels[i] in Columns && key[i] == DigitClass(cards, Position(AttributeLabels[i]))
  {
    LabelPositions();
    [DigitClass(cards, 2), DigitClass(cards, 1), DigitClass(cards, 0), DigitClass(cards, 3)]
  }

  /** An attribute's answer depends only on which of the three cards agree on its digit. */
  lemma {:induction false} AttributeClassByDigit(cards: seq<string>, key: string)
    requires |cards| == 3 && IsCode(cards[0]) && IsCode(cards[1]) && IsCode(cards[2])
    requires key in Columns
    ensures AttributeClass(cards, key) == DigitClass(cards, Position(key))
  {
    DecodeCompares(cards[0], cards[1], key);
    DecodeCompares(cards[1], cards[2], key);
    DecodeCompares(cards[0], cards[2], key);
  }

  /** Each column of the key is the answer for its attribute on the decoded cards. */
  lemma AnswerKeyDecoded(cards: seq<string>)
    requires |cards| == 3 && IsCode(cards[0]) && IsCode(cards[1]) && IsCode(cards[2])
    ensures forall i :: 0 <= i < 4 ==> AnswerKey(cards)[i] == AttributeClass(cards, AttributeLabels[i])
  {
    forall i | 0 <= i < 4 ensures AnswerKey(cards)[i] == AttributeClass(cards, AttributeLabels[i]) {
      AttributeClassByDigit(cards, AttributeLabels[i]);
    }
  }

  /** One attribute passes the SET rule exactly when its answer is not "2개만 같음". */
  lemma ClassifyRule(x: char, y: char, z: char)
    ensures SameOrDistinct(x, y, z) <==> Classify(x, y, z) != "2개만 같음"
  {
  }

  /**
   * The rule the page states (every attribute all same or all different) is
   * is_set: a triple of cards is a SET exactly when no column of its answer
   * key reads "2개만 같음".
   */
  lemma RuleMatchesIsSet(cards: seq<string>)
    requires |cards| == 3 && IsCode(cards[0]) && IsCode(cards[1]) && IsCode(cards[2])
    ensures IsSet(cards) <==> "2개만 같음" !in AnswerKey(cards)
  {
    var a, b, c := cards[0], cards[1], cards[2];
    assert cards == [a, b, c];
    IsSetOfCodes(a, b, c);
    assert AnswerKey(cards) == [DigitClass(cards, 2), DigitClass(cards, 1), DigitClass(cards, 0), DigitClass(cards, 3)];
    ClassifyRule(a[0], b[0], c[0]);
    ClassifyRule(a[1], b[1], c[1]);
    ClassifyRule(a[2], b[2], c[2]);
    ClassifyRule(a[3], b[3], c[3]);
    assert (forall p :: 0 <= p < 4 ==> SameOrDistinct(a[p], b[p], c[p])) <==>
      SameOrDistinct(a[0], b[0], c[0]) && SameOrDistinct(a[1], b[1], c[1])
      && SameOrDistinct(a[2], b[2], c[2]) && SameOrDistinct(a[3], b[3], c[3]);
  }

  /** The three practice examples are named alike in `answers`, `set_type` and the triples. */
  lemma ExampleNames()
    ensures Answers.Keys == Examples.Keys == SetType.Keys == {"set1", "set2", "notset"}
  {
  }

  /** The three cards of each practice triple are deck cards. */
  lemma ExampleCards()
    ensures IsCardName(Set1[0]) && IsCardName(Set1[1]) && IsCardName(Set1[2])
    ensures IsCardName(Set2[0]) && IsCardName(Set2[1]) && IsCardName(Set2[2])
    ensures IsCardName(NotSet[0]) && IsCardName(NotSet[1]) && IsCardName(NotSet[2])
  {
  }

  /** Example 1 differs in colour (digit 2) only. */
  lemma Set1Key()
    ensures Answers["set1"] == AnswerKey(Set1)
  {
  }

  /** Example 2 differs in every attribute. */
  lemma Set2Key()
    ensures Answers["set2"] == AnswerKey(Set2)
  {
  }

  /** Example 3 agrees on colour and shape, has two equal shadings and differs in number. */
  lemma NotSetKey()
    ensures Answers["notset"] == AnswerKey(NotSet)
  {
  }

  /** The entry of `answers` for a practice example is the answer key of its triple of deck cards. */
  lemma ExampleKey(name: string)
    requires name in Examples
    ensures |Examples[name]| == 3 && forall j :: 0 <= j < 3 ==> IsCardName(Examples[name][j])
    ensures name in Answers && Answers[name] == AnswerKey(Examples[name])
  {
    ExampleNames();
    ExampleCards();
    if name == "set1" {
      Set1Key();
    } else if name == "set2" {
      Set2Key();
    } else {
      NotSetKey();
    }
  }

  /** The verdict of one practice example is what is_set says, and what its key implies. */
  lemma Verdict(name: string)
    requires name in SetType
    ensures name in Examples && name in Answers
    ensures SetType[name] == IsSet(Examples[name])
    ensures SetType[name] <==> "2개만 같음" !in Answers[name]
  {
    ExampleNames();
    ExampleKey(name);
    RuleMatchesIsSet(Examples[name]);
    if name == "set1" {
      assert "2개만 같음" !in Answers[name];
    } else if name == "set2" {
      assert "2개만 같음" !in Answers[name];
    } else {
      assert Answers[name][2] == "2개만 같음";
    }
  }

  /** Every verdict of `set_type` agrees with is_set. */
  lemma VerdictsAgree()
    ensures forall name :: name in SetType ==> name in Examples && SetType[name] == IsSet(Examples[name])
  {
    forall name | name in SetType ensures name in Examples && SetType[name] == IsSet(Examples[name]) {
      Verdict(name);
    }
  }

  /** The second example differs in every attribute; the third fails on shading alone, digit 0. */
  lemma ExampleDetails()
    ensures Answers["set2"] == ["전부 다름", "전부 다름", "전부 다름", "전부 다름"]
    ensures forall p :: 0 <= p < 4 ==> Set2[0][p] != Set2[1][p] && Set2[1][p] != Set2[2][p] && Set2[0][p] != Set2[2][p]
    ensures |{NotSet[0][0], NotSet[1][0], NotSet[2][0]}| == 2
    ensures forall p :: 0 < p < 4 ==> SameOrDistinct(NotSet[0][p], NotSet[1][p], NotSet[2][p])
  {
  }

  /**
   * Answering a practice example with its key earns the praise, and the
   * verdict the praise announces is the one is_set gives.
   */
  lemma KeyEarnsTrueVerdict(name: string, selection: seq<Option<string>>, n: int)
    requires name in SetType && Complete(selection) && Chosen(selection) == Answers[name]
    ensures CheckAnswerAndDisplay(selection, Answers[name], SetType[name], n) == Some(Correct(n, IsSet(Examples[name])))
  {
    Verdict(name);
  }

  // ---------------------------------------------------------------------
  // The showcase

  const CardDir: string := "set_cards"

  /** The image path of a card file, as the showcase writes it. */
  function ImagePath(card: string): (path: string)
    ensures |path| == |CardDir| + 1 + |card|
    ensures path[..|CardDir| + 1] == CardDir + "/" && path[|CardDir| + 1..] == card
  {
    CardDir + "/" + card
  }

  /** The card file an image path names, when the path lies in the card directory. */
  function CardFile(path: string): (card: Option<string>)
    ensures card.Some? <==> |path| >= |CardDir| + 1 && path[..|CardDir| + 1] == CardDir + "/"
    ensures card.Some? ==> path == CardDir + "/" + card.value
  {
    if |path| >= |CardDir| + 1 && path[..|CardDir| + 1] == CardDir + "/" then Some(path[|CardDir| + 1..])
    else None
  }

  /** An image path gives back the card file it was built from, so distinct files get distinct paths. */
  lemma CardFileOfImagePath(card: string)
    ensures CardFile(ImagePath(card)) == Some(card)
  {
  }

  /** The image paths the showcase passes to st.image under each attribute heading. */
  const ShowcaseImages: map<string, seq<string>> := map[
    ColorKey := ["set_cards/0100.png", "set_cards/0110.png", "set_cards/0120.png"],
    ShapeKey := ["set_cards/2222.png", "set_cards/2122.png", "set_cards/2022.png"],
    ShadingKey := ["set_cards/0211.png", "set_cards/1211.png", "set_cards/2211.png"],
    NumberKey := ["set_cards/1000.png", "set_cards/1001.png", "set_cards/1002.png"]]

  /** The card files whose images appear under each attribute heading. */
  const Showcase: map<string, seq<string>> := map[
    ColorKey := ["0100.png", "0110.png", "0120.png"],
    ShapeKey := ["2222.png", "2122.png", "2022.png"],
    ShadingKey := ["0211.png", "1211.png", "2211.png"],
    NumberKey := ["1000.png", "1001.png", "1002.png"]]

  /**
   * Every literal image path of the showcase is the image path of the card
   * file `Showcase` lists at the same place, and names that file.
   */
  lemma ShowcasePaths(key: string)
    requires key in Columns
    ensures key in ShowcaseImages && key in Showcase && |ShowcaseImages[key]| == |Showcase[key]| == 3
    ensures forall j :: 0 <= j < 3 ==> ShowcaseImages[key][j] == ImagePath(Showcase[key][j])
    ensures forall j :: 0 <= j < 3 ==> CardFile(ShowcaseImages[key][j]) == Some(Showcase[key][j])
  {
    forall j | 0 <= j < 3 ensures CardFile(ShowcaseImages[key][j]) == Some(Showcase[key][j]) {
      CardFileOfImagePath(Showcase[key][j]);
    }
  }

  /** The answer key of a triple that differs in attribute `key` alone. */
  function OnlyDiffersIn(key: string): (answer: seq<string>)
    ensures |answer| == 4
    ensures forall i :: 0 <= i < 4 ==> answer[i] == (if AttributeLabels[i] == key then "전부 다름" else "전부 같음")
  {
    seq(4, i requires 0 <= i < 4 => if AttributeLabels[i] == key then "전부 다름" else "전부 같음")
  }

  /** The colour showcase: red, purple, green. */
  lemma ColorShowcase()
    ensures IsCardName(Showcase[ColorKey][0]) && IsCardName(Showcase[ColorKey][1]) && IsCardName(Showcase[ColorKey][2])
    ensures AnswerKey(Showcase[ColorKey]) == OnlyDiffersIn(ColorKey)
  {
  }

  /** The shape showcase: oval, diamond, squiggle. */
  lemma ShapeShowcase()
    ensures IsCardName(Showcase[ShapeKey][0]) && IsCardName(Showcase[ShapeKey][1]) && IsCardName(Showcase[ShapeKey][2])
    ensures AnswerKey(Showcase[ShapeKey]) == OnlyDiffersIn(ShapeKey)
  {
  }

  /** The shading showcase: solid, striped, open. */
  lemma ShadingShowcase()
    ensures IsCardName(Showcase[ShadingKey][0]) && IsCardName(Showcase[ShadingKey][1]) && IsCardName(Showcase[ShadingKey][2])
    ensures AnswerKey(Showcase[ShadingKey]) == OnlyDiffersIn(ShadingKey)
  {
  }

  /** The number showcase: one, two, three. */
  lemma NumberShowcase()
    ensures IsCardName(Showcase[NumberKey][0]) && IsCardName(Showcase[NumberKey][1]) && IsCardName(Showcase[NumberKey][2])
    ensures AnswerKey(Showcase[NumberKey]) == OnlyDiffersIn(NumberKey)
  {
  }

  /**
   * Each showcase shows three cards of the deck that differ in the heading's
   * attribute and agree on the other three: its answer key is "전부 다름"
   * for that attribute and "전부 같음" elsewhere, so it is a SET.
   */
  lemma ShowcaseVariesOneAttribute(key: string)
    requires key in Columns
    ensures key in Showcase && |Showcase[key]| == 3
    ensures forall j :: 0 <= j < 3 ==> IsCardName(Showcase[key][j])
    ensures AnswerKey(Showcase[key]) == OnlyDiffersIn(key)
    ensures IsSet(Showcase[key])
  {
    assert "2개만 같음" !in OnlyDiffersIn(key);
    if key == ColorKey {
      ColorShowcase();
    } else if key == ShapeKey {
      ShapeShowcase();
    } else if key == ShadingKey {
      ShadingShowcase();
    } else {
      NumberShowcase();
    }
    RuleMatchesIsSet(Showcase[key]);
  }
}

/**
 * utils.py: the four attribute maps, `decode` from a card name to its
 * attributes, the answer columns and choices, and `check_answer`.
 */
module Utils {
  import opened Wrappers
  import opened Cards
  import opened Collections

  /** The Python errors that a subscript can raise here. */
  datatype Error = IndexError(index: nat) | KeyError(key: char)

  const ShadingMap: map<char, string> := map['0' := "색칠", '1' := "줄무늬", '2' := "빈 것"]
  const ShapeMap: map<char, string> := map['0' := "물결", '1' := "마름모", '2' := "타원"]
  const ColorMap: map<char, string> := map['0' := "빨강", '1' := "보라", '2' := "초록"]
  const NumberMap: map<char, string> := map['0' := "1개", '1' := "2개", '2' := "3개"]

  /** The keys of decode's result. */
  const ShadingKey: string := "명암"
  const ShapeKey: string := "모양"
  const ColorKey: string := "색깔"
  const NumberKey: string := "개수"

  const Columns: seq<string> := [ColorKey, ShapeKey, ShadingKey, NumberKey]
  const Choices: seq<string> := ["전부 같음", "2개만 같음", "전부 다름"]

  /** `m[name[pos]]`, raising as Python does. */
  function Lookup(m: map<char, string>, name: string, pos: nat): Result<string, Error> {
    if pos >= |name| then Failure(IndexError(pos))
    else if name[pos] in m then Success(m[name[pos]])
    else Failure(KeyError(name[pos]))
  }

  /** The error raised at a position that decode cannot read, if it is one. */
  predicate Unreadable(name: string, pos: nat) {
    pos >= |name| || !IsDigit(name[pos])
  }

  function ErrorAt(name: string, pos: nat): Error {
    if pos >= |name| then IndexError(pos) else KeyError(name[pos])
  }

  /** The first position from `from` on that decode cannot read, or 4 if there is none. */
  function FirstUnreadable(name: string, from: nat): (p: nat)
    requires from <= 4
    decreases 4 - from
    ensures from <= p <= 4
    ensures p < 4 ==> Unreadable(name, p)
    ensures forall q :: from <= q < p ==> !Unreadable(name, q)
  {
    if from == 4 then 4
    else if Unreadable(name, from) then from
    else FirstUnreadable(name, from + 1)
  }

  /**
   * decode(cardname). The dictionary display evaluates its entries in the
   * order shading, shape, colour, number, so the error raised is the one of
   * the first unreadable position.
   */
  function Decode(name: string): (r: Result<map<string, string>, Error>)
    ensures r.Success? <==> IsCode(name)
    ensures r.Success? ==> r.value.Keys == {ColorKey, ShapeKey, ShadingKey, NumberKey}
    ensures r.Failure? ==> r.error == ErrorAt(name, FirstUnreadable(name, 0))
  {
    var shading :- Lookup(ShadingMap, name, 0);
    var shape :- Lookup(ShapeMap, name, 1);
    var color :- Lookup(ColorMap, name, 2);
    var number :- Lookup(NumberMap, name, 3);
    Success(map[ShadingKey := shading, ShapeKey := shape, ColorKey := color, NumberKey := number])
  }

  /** The character position decode reads for each attribute key. */
  function Position(key: string): (p: nat)
    requires key in Columns
    ensures p < 4
  {
    if key == ShadingKey then 0 else if key == ShapeKey then 1 else if key == ColorKey then 2 else 3
  }

  /** The map decode uses for each attribute key. */
  function MapOf(key: string): map<char, string>
    requires key in Columns
  {
    if key == ShadingKey then ShadingMap else if key == ShapeKey then ShapeMap
    else if key == ColorKey then ColorMap else NumberMap
  }

  /** Each attribute map is injective on the three digits. */
  lemma MapsInjective(key: string, x: char, y: char)
    requires key in Columns && IsDigit(x) && IsDigit(y)
    ensures x in MapOf(key) && y in MapOf(key)
    ensures MapOf(key)[x] == MapOf(key)[y] <==> x == y
  {
  }

  /** Attribute `key` of a decoded card is read through its own map from its own position. */
  lemma DecodeAttribute(name: string, key: string)
    requires IsCode(name) && key in Columns
    ensures Decode(name).value[key] == MapOf(key)[name[Position(key)]]
  {
  }

  /** Two cards agree on an attribute exactly when they agree on that attribute's digit. */
  lemma DecodeCompares(a: string, b: string, key: string)
    requires IsCode(a) && IsCode(b) && key in Columns
    ensures Decode(a).value[key] == Decode(b).value[key] <==> a[Position(key)] == b[Position(key)]
  {
    DecodeAttribute(a, key);
    DecodeAttribute(b, key);
    MapsInjective(key, a[Position(key)], b[Position(key)]);
  }

  /** The digit whose label under m is v, the inverse of an attribute map. */
  function DigitOf(m: map<char, string>, v: string): Option<char> {
    if '0' in m && m['0'] == v then Some('0')
    else if '1' in m && m['1'] == v then Some('1')
    else if '2' in m && m['2'] == v then Some('2')
    else None
  }

  /** The card code of a decoded attribute map: the inverse of decode. */
  function Encode(attrs: map<string, string>): Option<string> {
    if ShadingKey !in attrs || ShapeKey !in attrs || ColorKey !in attrs || NumberKey !in attrs then None
    else
      var d0 := DigitOf(ShadingMap, attrs[ShadingKey]);
      var d1 := DigitOf(ShapeMap, attrs[ShapeKey]);
      var d2 := DigitOf(ColorMap, attrs[ColorKey]);
      var d3 := DigitOf(NumberMap, attrs[NumberKey]);
      if d0.None? || d1.None? || d2.None? || d3.None? then None
      else Some([d0.value, d1.value, d2.value, d3.value])
  }

  /** Decoding loses nothing of the four digits. */
  lemma {:induction false} EncodeDecode(name: string)
    requires IsCode(name)
    ensures Encode(Decode(name).value) == Some(name[..4])
  {
    var m := Decode(name).value;
    assert DigitOf(ShadingMap, m[ShadingKey]) == Some(name[0]) by { DecodeAttribute(name, ShadingKey); }
    assert DigitOf(ShapeMap, m[ShapeKey]) == Some(name[1]) by { DecodeAttribute(name, ShapeKey); }
    assert DigitOf(ColorMap, m[ColorKey]) == Some(name[2]) by { DecodeAttribute(name, ColorKey); }
    assert DigitOf(NumberMap, m[NumberKey]) == Some(name[3]) by { DecodeAttribute(name, NumberKey); }
    assert name[..4] == [name[0], name[1], name[2], name[3]];
  }

  /** Decode is injective on card codes, so on the 81 cards of the deck. */
  lemma DecodeInjective(a: string, b: string)
    requires IsCode(a) && IsCode(b)
    ensures Decode(a) == Decode(b) <==> a[..4] == b[..4]
  {
    EncodeDecode(a);
    EncodeDecode(b);
    if a[..4] == b[..4] {
      forall key | key in Columns ensures Decode(a).value[key] == Decode(b).value[key] {
        assert a[Position(key)] == a[..4][Position(key)] && b[Position(key)] == b[..4][Position(key)];
        DecodeCompares(a, b, key);
      }
    }
  }

  /** The success message of check_answer, without its text rendering. */
  datatype Praise = Praise(example: int, isSet: bool)

  /** Both lists have positions k until p and agree on them. */
  predicate MatchesBetween(user: seq<string>, correct: seq<string>, k: nat, p: nat)
    decreases p - k
  {
    k >= p || (k < |user| && k < |correct| && user[k] == correct[k] && MatchesBetween(user, correct, k + 1, p))
  }

  /**
   * `all(user[i] == correct[i] for i in range(k, 4))`: stops at the first
   * mismatch and raises IndexError on reaching a position one list lacks,
   * which happens when the lists agree up to the end of the shorter one.
   */
  function AllMatchFrom(user: seq<string>, correct: seq<string>, k: nat): (r: Result<bool, Error>)
    requires k <= 4
    decreases 4 - k
    ensures r == Success(true) <==> MatchesBetween(user, correct, k, 4)
    ensures r.Failure? <==> k < 4 && Min(|user|, |correct|) < 4 && MatchesBetween(user, correct, k, Min(|user|, |correct|))
    ensures r.Failure? ==> r.error == IndexError(if k <= Min(|user|, |correct|) then Min(|user|, |correct|) else k)
  {
    if k == 4 then Success(true)
    else if k >= |user| || k >= |correct| then
      Failure(IndexError(k))
    else if user[k] != correct[k] then Success(false)
    else AllMatchFrom(user, correct, k + 1)
  }

  /** check_answer(user_selections, correct, is_set, idx): praises an all-correct answer, says nothing otherwise. */
  function CheckAnswer(user: seq<string>, correct: seq<string>, isSet: bool, idx: int): (r: Result<Option<Praise>, Error>)
    ensures r.Failure? <==> Min(|user|, |correct|) < 4 && MatchesBetween(user, correct, 0, Min(|user|, |correct|))
    ensures r.Failure? ==> r.error == IndexError(Min(|user|, |correct|))
    ensures r.Success? && r.value.Some? <==> |user| >= 4 && |correct| >= 4 && user[..4] == correct[..4]
    ensures r.Success? && r.value.Some? ==> r.value.value == Praise(idx, isSet)
  {
    var ok :- AllMatchFrom(user, correct, 0);
    assert ok <==> |user| >= 4 && |correct| >= 4 && user[..4] == correct[..4] by {
      if |user| >= 4 && |correct| >= 4 && user[..4] == correct[..4] {
        assert forall q :: 0 <= q < 4 ==> user[q] == user[..4][q] && correct[q] == correct[..4][q];
      }
    }
    Success(if ok then Some(Praise(idx, isSet)) else None)
  }
}

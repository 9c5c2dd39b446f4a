/** What `parse_map_info` does with well-formed, malformed and repeated
    fragments. */
module MapInfoFacts {
  import opened TextOps
  import opened Context
  import opened MapInfoParser

  // ---------------------------------------------------------------------------
  // Locating the markers

  /** Before the first `c` of `p + q`, when `p` has none, comes `p` and then
      what precedes the first `c` in `q`. */
  lemma BeforeConcat(p: string, c: char, q: string)
    requires c !in p
    ensures Before(p + q, c) == p + Before(q, c)
  {
    if c in q {
      var b, a := Before(q, c), After(q, c);
      assert p + q == (p + b) + [c] + a;
      BeforeAt(p + b, c, a);
    } else {
      assert c !in p + q;
    }
  }

  /** A text that is empty or starts with `c` has nothing before its first `c`. */
  lemma BeforeLeading(rest: string, c: char)
    requires rest == [] || rest[0] == c
    ensures Before(rest, c) == []
  {
    if rest != [] {
      assert rest == [] + [c] + rest[1..];
      BeforeAt([], c, rest[1..]);
    }
  }

  /** The marker part of `pre + marker + body + rest`, where the marker ends in
      the only `：` before `body`'s end, is `body`. */
  lemma LabelPartOf(text: string, pre: string, marker: string, body: string, rest: string)
    requires |marker| > 0 && marker[|marker| - 1] == FullColon
    requires FullColon !in pre && FullColon !in marker[..|marker| - 1] && FullColon !in body
    requires rest == [] || rest[0] == FullColon
    requires text == pre + marker + body + rest
    ensures Contains(text, marker)
    ensures FullColon in text && LabelPart(text) == body
  {
    assert text[|pre|..|pre| + |marker|] == marker;
    assert OccursAt(text, marker, |pre|);
    var head := pre + marker[..|marker| - 1];
    assert marker == marker[..|marker| - 1] + [FullColon];
    assert text == head + [FullColon] + (body + rest);
    BeforeAt(head, FullColon, body + rest);
    BeforeConcat(body, FullColon, rest);
    BeforeLeading(rest, FullColon);
    assert body + [] == body;
  }

  // ---------------------------------------------------------------------------
  // The two-number `try` block

  /** One separator between two numbers assigns both. */
  lemma PairAssigned(a: string, sep: char, b: string, first: Option<int>, second: Option<int>,
                     va: int, vb: int)
    requires sep !in a && sep !in b
    requires ParseInt(Strip(a)) == Some(va) && ParseInt(Strip(b)) == Some(vb)
    ensures AssignPair(a + [sep] + b, sep, first, second) == (Some(va), Some(vb))
  {
    SplitJoin([a, b], sep);
    assert Join([a, b], sep) == a + [sep] + b;
  }

  /** The assignment is not atomic: when the first number parses and the
      second does not, the first is assigned anyway and the second keeps
      its previous value. */
  lemma PairNotAtomic(a: string, sep: char, b: string, first: Option<int>, second: Option<int>,
                      va: int)
    requires sep !in a && sep !in b
    requires ParseInt(Strip(a)) == Some(va) && ParseInt(Strip(b)) == None
    ensures AssignPair(a + [sep] + b, sep, first, second) == (Some(va), second)
  {
    SplitJoin([a, b], sep);
    assert Join([a, b], sep) == a + [sep] + b;
  }

  /** No separator, more than one separator (the two-name unpacking raises),
      or a first number that does not parse: neither field changes. */
  lemma PairUnchanged(part: string, sep: char, first: Option<int>, second: Option<int>)
    requires multiset(part)[sep] != 1 || ParseInt(Strip(Split(part, sep)[0])) == None
    ensures AssignPair(part, sep, first, second) == (first, second)
  {
    SplitLength(part, sep);
  }

  /** The second field is assigned only after the first: if it changes,
      the first now holds a number. */
  lemma PairSecondAfterFirst(part: string, sep: char, first: Option<int>, second: Option<int>)
    ensures AssignPair(part, sep, first, second).1 != second
            ==> AssignPair(part, sep, first, second).0.Some?
  {
  }

  // ---------------------------------------------------------------------------
  // Single fragments

  /** A fragment holding both brackets always sets the map name, to the text
      before the first `（`, whatever its coordinates hold; it leaves weight
      and food alone even when it also carries their labels. */
  lemma LocationFragment(info: MapInfoValue, text: string)
    requires OpenParen in text && CloseParen in text
    ensures ApplyFragment(info, text).mapName == Before(text, OpenParen)
    ensures ApplyFragment(info, text).(mapName := info.mapName, x := info.x, y := info.y) == info
  {
  }

  /** `name（a,b）rest` with `a.strip()` and `b.strip()` integer literals:
      the name is the text before the bracket and x, y are the two numbers;
      the coordinates end at the first `）`, whatever follows. */
  lemma CoordinateFragment(info: MapInfoValue, name: string, a: string, b: string, rest: string,
                           va: int, vb: int)
    requires OpenParen !in name
    requires OpenParen !in a && CloseParen !in a && ',' !in a
    requires OpenParen !in b && CloseParen !in b && ',' !in b
    requires ParseInt(Strip(a)) == Some(va) && ParseInt(Strip(b)) == Some(vb)
    ensures ApplyFragment(info, name + "（" + a + "," + b + "）" + rest)
            == info.(mapName := name, x := Some(va), y := Some(vb))
  {
    CoordinatePartOf(name, a, b, rest);
    PairAssigned(a, ',', b, info.x, info.y, va, vb);
  }

  /** `name（a,b）rest` where `a` parses and `b` does not: x is set, y stays. */
  lemma CoordinatesNotAtomic(info: MapInfoValue, name: string, a: string, b: string, rest: string,
                             va: int)
    requires OpenParen !in name
    requires OpenParen !in a && CloseParen !in a && ',' !in a
    requires OpenParen !in b && CloseParen !in b && ',' !in b
    requires ParseInt(Strip(a)) == Some(va) && ParseInt(Strip(b)) == None
    ensures ApplyFragment(info, name + "（" + a + "," + b + "）" + rest)
            == info.(mapName := name, x := Some(va))
  {
    CoordinatePartOf(name, a, b, rest);
    PairNotAtomic(a, ',', b, info.x, info.y, va);
  }

  /** `name（c）rest` whose coordinate part holds no `,`: the name is taken
      over and x, y keep their earlier values. */
  lemma NameWithoutPosition(info: MapInfoValue, name: string, c: string, rest: string)
    requires OpenParen !in name
    requires OpenParen !in c && CloseParen !in c && ',' !in c
    ensures ApplyFragment(info, name + "（" + c + "）" + rest) == info.(mapName := name)
  {
    var text := name + "（" + c + "）" + rest;
    var tail := c + [CloseParen] + rest;
    assert text == name + [OpenParen] + tail;
    assert text[|name|] == OpenParen && text[|name| + 1 + |c|] == CloseParen;
    BeforeAt(name, OpenParen, tail);
    assert OpenParen !in c + [CloseParen];
    BeforeConcat(c + [CloseParen], OpenParen, rest);
    BeforeAt(c, CloseParen, Before(rest, OpenParen));
    assert CoordPart(text) == c;
    assert multiset(c)[','] == 0;
    PairUnchanged(c, ',', info.x, info.y);
  }

  lemma CoordinatePartOf(name: string, a: string, b: string, rest: string)
    requires OpenParen !in name
    requires OpenParen !in a && CloseParen !in a && ',' !in a
    requires OpenParen !in b && CloseParen !in b
    ensures var text := name + "（" + a + "," + b + "）" + rest;
      KindOf(text) == Location && Split(text, OpenParen)[0] == name
      && CoordPart(text) == a + [','] + b
  {
    var text := name + "（" + a + "," + b + "）" + rest;
    var coord := a + [','] + b;
    var tail := coord + [CloseParen] + rest;
    assert text == name + [OpenParen] + tail;
    BeforeAt(name, OpenParen, tail);
    assert text[|name| + 1 + |coord|] == CloseParen;
    assert OpenParen !in coord + [CloseParen];
    BeforeConcat(coord + [CloseParen], OpenParen, rest);
    assert coord + [CloseParen] + Before(rest, OpenParen)
        == coord + [CloseParen] + Before(rest, OpenParen);
    BeforeAt(coord, CloseParen, Before(rest, OpenParen));
  }

  /** `pre负重：a/b` (optionally followed by another `：` and more text)
      without a bracket pair: the weight pair is the two numbers. */
  lemma WeightFragment(info: MapInfoValue, text: string, pre: string, a: string, b: string,
                       rest: string, va: int, vb: int)
    requires text == pre + WeightLabel + a + "/" + b + rest
    requires !(OpenParen in text && CloseParen in text)
    requires FullColon !in pre
    requires FullColon !in a && '/' !in a && FullColon !in b && '/' !in b
    requires rest == [] || rest[0] == FullColon
    requires ParseInt(Strip(a)) == Some(va) && ParseInt(Strip(b)) == Some(vb)
    ensures ApplyFragment(info, text) == info.(currentWeight := Some(va), maxWeight := Some(vb))
  {
    assert text == pre + WeightLabel + (a + "/" + b) + rest;
    assert WeightLabel[..2] == "负重";
    LabelPartOf(text, pre, WeightLabel, a + "/" + b, rest);
    PairAssigned(a, '/', b, info.currentWeight, info.maxWeight, va, vb);
  }

  /** `pre负重：a/b` where `a` parses and `b` does not: the current weight
      is set and the maximum keeps its earlier value. */
  lemma WeightNotAtomic(info: MapInfoValue, text: string, pre: string, a: string, b: string,
                        rest: string, va: int)
    requires text == pre + WeightLabel + a + "/" + b + rest
    requires !(OpenParen in text && CloseParen in text)
    requires FullColon !in pre
    requires FullColon !in a && '/' !in a && FullColon !in b && '/' !in b
    requires rest == [] || rest[0] == FullColon
    requires ParseInt(Strip(a)) == Some(va) && ParseInt(Strip(b)) == None
    ensures ApplyFragment(info, text) == info.(currentWeight := Some(va))
  {
    assert text == pre + WeightLabel + (a + "/" + b) + rest;
    assert WeightLabel[..2] == "负重";
    LabelPartOf(text, pre, WeightLabel, a + "/" + b, rest);
    PairNotAtomic(a, '/', b, info.currentWeight, info.maxWeight, va);
  }

  /** `pre食物：v` (optionally followed by another `：` and more text), with
      no bracket pair and no weight marker: the food marker is `v` verbatim,
      surrounding spaces included. */
  lemma FoodFragment(info: MapInfoValue, text: string, pre: string, v: string, rest: string)
    requires text == pre + FoodLabel + v + rest
    requires !(OpenParen in text && CloseParen in text) && !Contains(text, WeightLabel)
    requires FullColon !in pre && FullColon !in v
    requires rest == [] || rest[0] == FullColon
    ensures ApplyFragment(info, text) == info.(food := Some(v))
  {
    assert FoodLabel[..2] == "食物";
    LabelPartOf(text, pre, FoodLabel, v, rest);
  }

  // ---------------------------------------------------------------------------
  // Sequences of fragments

  /** Applying `a + b` is applying `a`, then `b`. */
  lemma {:induction false} FoldAppend(step: (MapInfoValue, string) -> MapInfoValue,
                                      info: MapInfoValue, a: seq<Fragment>, b: seq<Fragment>)
    ensures Fold(step, info, a + b) == Fold(step, Fold(step, info, a), b)
    decreases |b|
  {
    if b == [] {
      assert a + b == a;
    } else {
      var c, n := a + b, |b| - 1;
      assert c[..|c| - 1] == a + b[..n];
      FoldAppend(step, info, a, b[..n]);
    }
  }

  /** The fields each kind of fragment writes. */
  datatype Fields =
    | LocationFields(name: string, x: Option<int>, y: Option<int>)
    | WeightFields(current: Option<int>, maximum: Option<int>)
    | FoodFields(food: Option<string>)
    | NoFields

  function FieldsOf(info: MapInfoValue, k: Kind): Fields {
    match k
    case Location => LocationFields(info.mapName, info.x, info.y)
    case Weight => WeightFields(info.currentWeight, info.maxWeight)
    case Food => FoodFields(info.food)
    case Other => NoFields
  }

  /** A fragment writes only the fields of its own kind. */
  lemma FragmentFrame(info: MapInfoValue, text: string, k: Kind)
    requires k != KindOf(text)
    ensures FieldsOf(ApplyFragment(info, text), k) == FieldsOf(info, k)
  {
  }

  /** Fragments none of which has kind `k` leave the fields of `k` alone. */
  lemma {:induction false} KindAbsentKeeps(info: MapInfoValue, results: seq<Fragment>, k: Kind)
    requires forall j :: 0 <= j < |results| ==> KindOf(results[j].text) != k
    ensures FieldsOf(Fold(ApplyFragment, info, results), k) == FieldsOf(info, k)
    decreases |results|
  {
    if results != [] {
      var n := |results| - 1;
      KindAbsentKeeps(info, results[..n], k);
      FragmentFrame(Fold(ApplyFragment, info, results[..n]), results[n].text, k);
    }
  }

  /** Parsing needs nothing of its input and never fails; a field no fragment
      speaks of keeps its default: the map name stays "未知地图" and the
      others stay `None`. With no fragments at all, that is every field. */
  lemma DefaultsWhenAbsent(results: seq<Fragment>, k: Kind)
    requires forall j :: 0 <= j < |results| ==> KindOf(results[j].text) != k
    ensures FieldsOf(Parsed(results), k) == FieldsOf(Initial, k)
    ensures results == [] ==> Parsed(results)
                              == MapInfoValue("未知地图", None, None, None, None, None)
  {
    KindAbsentKeeps(Initial, results, k);
  }

  /** The last one wins: the fields of a kind are what the last fragment of
      that kind made of them; earlier fragments of the kind are overwritten. */
  lemma LastOfKindWins(results: seq<Fragment>, i: nat)
    requires i < |results|
    requires forall j :: i < j < |results| ==> KindOf(results[j].text) != KindOf(results[i].text)
    ensures FieldsOf(Parsed(results), KindOf(results[i].text))
            == FieldsOf(ApplyFragment(Parsed(results[..i]), results[i].text), KindOf(results[i].text))
  {
    var k := KindOf(results[i].text);
    assert results == results[..i + 1] + results[i + 1..];
    FoldAppend(ApplyFragment, Initial, results[..i + 1], results[i + 1..]);
    assert results[..i + 1][..i] == results[..i];
    KindAbsentKeeps(Parsed(results[..i + 1]), results[i + 1..], k);
  }

  /** A single fragment is applied to the initial record; two in a row,
      one after the other. */
  lemma ParsedShort(f: Fragment, g: Fragment)
    ensures Parsed([f]) == ApplyFragment(Initial, f.text)
    ensures Parsed([f, g]) == ApplyFragment(Parsed([f]), g.text)
  {
    assert [f][..0] == [];
    assert Fold(ApplyFragment, Initial, []) == Initial;
    assert [f, g][..1] == [f];
  }

  /** `parse_map_info([name（x,y）])` for a name without `（`. */
  lemma ParseCoordinateFragment(name: string, x: int, y: int)
    requires OpenParen !in name
    ensures Parsed([Fragment(name + "（" + IntText(x) + "," + IntText(y) + "）")])
            == Initial.(mapName := name, x := Some(x), y := Some(y))
  {
    var sx, sy := IntText(x), IntText(y);
    NumberField(x);
    NumberField(y);
    var text := name + "（" + sx + "," + sy + "）";
    assert text + "" == text;
    CoordinateFragment(Initial, name, sx, sy, "", x, y);
    ParsedShort(Fragment(text), Fragment(text));
  }

  /** `str(n)` holds no bracket and no comma, and reads back as `n`. */
  lemma NumberField(n: int)
    ensures OpenParen !in IntText(n) && CloseParen !in IntText(n) && ',' !in IntText(n)
    ensures ParseInt(Strip(IntText(n))) == Some(n)
  {
    var s := IntText(n);
    Number(n, s);
    var digits := if n < 0 then NatText(-n) else NatText(n);
    assert s == (if n < 0 then "-" else "") + digits;
    assert forall c | c in digits :: IsDigit(c);
  }

  lemma Number(n: int, s: string)
    requires s == IntText(n)
    ensures ParseInt(Strip(s)) == Some(n)
  {
    StripPadded("", s, "");
    assert "" + s + "" == s;
    IntTextRoundTrip(n);
  }

  /** Two location fragments, the second with a bad y: x comes from the
      second and y from the first, a pair no single fragment showed. */
  lemma MixedCoordinates()
    ensures var r := Parsed([Fragment("城镇（10,50）"), Fragment("城镇（12,5O）")]);
      r.x == Some(12) && r.y == Some(50)
  {
    WellFormedReading();
    BadYReading();
    ParsedShort(Fragment("城镇（10,50）"), Fragment("城镇（12,5O）"));
  }

  /** A later bracket fragment with unreadable coordinates takes over the
      name but not the position. */
  lemma LaterNameKeepsPosition()
    ensures Parsed([Fragment("城镇（10,50）"), Fragment("野外（abc）")])
            == Initial.(mapName := "野外", x := Some(10), y := Some(50))
  {
    WellFormedReading();
    NameOnlyReading();
    ParsedShort(Fragment("城镇（10,50）"), Fragment("野外（abc）"));
  }

  lemma NameOnlyReading()
    ensures forall info :: ApplyFragment(info, "野外（abc）") == info.(mapName := "野外")
  {
    assert "野外（abc）" == "野外" + "（" + "abc" + "）" + "";
    forall info {
      NameWithoutPosition(info, "野外", "abc", "");
    }
  }

  lemma WellFormedReading()
    ensures ApplyFragment(Initial, "城镇（10,50）")
            == Initial.(mapName := "城镇", x := Some(10), y := Some(50))
  {
    assert "城镇（10,50）" == "城镇" + "（" + "10" + "," + "50" + "）" + "";
    Number(10, "10");
    Number(50, "50");
    CoordinateFragment(Initial, "城镇", "10", "50", "", 10, 50);
  }

  lemma BadYReading()
    ensures forall info :: ApplyFragment(info, "城镇（12,5O）") == info.(mapName := "城镇", x := Some(12))
  {
    assert "城镇（12,5O）" == "城镇" + "（" + "12" + "," + "5O" + "）" + "";
    Number(12, "12");
    StripPadded("", "5O", "");
    assert "" + "5O" + "" == "5O";
    assert !IsDigit("5O"[1]);
    forall info {
      CoordinatesNotAtomic(info, "城镇", "12", "5O", "", 12);
    }
  }
}

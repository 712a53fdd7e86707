/** The parameter codec of `analyze_strategy_parameters`
    (plotter/DataImporter_plotter.py:909-946): one raw value becomes a non-empty
    list of typed values, trying an integer range `start:end:step`, then a comma
    list of decimals, then a single number, then the value itself. */
module ParamCodec {
  import opened Wrappers
  import opened Text
  import opened Json

  /** A decoded parameter value. Decimals are exact rationals, not IEEE floats. */
  datatype Decoded = Int(i: int) | Dec(d: real) | Opaque(raw: Json)

  /** The `k`-th number of a range. */
  function Nth(start: int, step: int, k: nat): int {
    start + k * step
  }

  /** `list(range(start, end + 1, step))`. */
  function RangeValues(start: int, end: int, step: int): (r: seq<int>)
    requires step > 0
    ensures start <= end ==> |r| > 0 && r[0] == start && r[|r| - 1] + step > end
    ensures start > end ==> r == []
    ensures forall i :: 0 <= i < |r| ==> r[i] == Nth(start, step, i) && r[i] <= end
    decreases end - start + 1
  {
    if start > end then [] else [start] + RangeValues(start + step, end, step)
  }

  /** Every number of the range is a whole number of steps from `start`. */
  lemma RangeSound(start: int, end: int, step: int, x: int)
    requires step > 0
    requires x in RangeValues(start, end, step)
    ensures x <= end && exists k: nat :: x == Nth(start, step, k)
  {
    var r := RangeValues(start, end, step);
    var i :| 0 <= i < |r| && r[i] == x;
    assert x == Nth(start, step, i);
  }

  /** Every number a whole number of steps from `start`, up to `end`, is in the range. */
  lemma {:induction false} RangeComplete(start: int, end: int, step: int, k: nat)
    requires step > 0
    requires Nth(start, step, k) <= end
    ensures Nth(start, step, k) in RangeValues(start, end, step)
    decreases k
  {
    assert start <= end by {
      assert k * step >= 0;
    }
    var next := start + step;
    assert RangeValues(start, end, step) == [start] + RangeValues(next, end, step);
    if k > 0 {
      assert Nth(start, step, k) == Nth(next, step, k - 1) by {
        assert k * step == (k - 1) * step + step;
      }
      RangeComplete(next, end, step, k - 1);
    }
  }

  /** The range holds exactly the numbers up to `end` that are a whole number of
      steps from `start`. */
  lemma RangeMembers(start: int, end: int, step: int, x: int)
    requires step > 0
    ensures x in RangeValues(start, end, step) <==> x <= end && exists k: nat :: x == Nth(start, step, k)
  {
    if x in RangeValues(start, end, step) {
      RangeSound(start, end, step, x);
    }
    if x <= end && exists k: nat :: x == Nth(start, step, k) {
      var k: nat :| x == Nth(start, step, k);
      RangeComplete(start, end, step, k);
    }
  }

  function Ints(xs: seq<int>): (r: seq<Decoded>)
    ensures |r| == |xs| && forall i :: 0 <= i < |xs| ==> r[i] == Int(xs[i])
  {
    if xs == [] then [] else [Int(xs[0])] + Ints(xs[1..])
  }

  /** The text of a range: `"start:end:step"`. */
  function RangeText(start: int, end: int, step: int): string {
    Join([IntToString(start), IntToString(end), IntToString(step)], ":")
  }

  /** Step 1: exactly two ':' and three integers with start < end and step > 0. */
  function DecodeRange(s: string): Option<seq<Decoded>> {
    var parts := Split(s, ':');
    if |parts| != 3 then None
    else
      match (ParseInt(parts[0]), ParseInt(parts[1]), ParseInt(parts[2]))
      case (Some(a), Some(b), Some(c)) =>
        if a < b && c > 0 then Some(Ints(RangeValues(a, b, c))) else None
      case _ => None
  }

  /** Step 2: every stripped comma-separated token is a decimal. */
  function DecodeTokens(tokens: seq<string>): (r: Option<seq<Decoded>>)
    ensures r.Some? ==> |r.value| == |tokens| && forall i :: 0 <= i < |r.value| ==> r.value[i].Dec?
  {
    if tokens == [] then Some([])
    else
      var head := ParseDec(Strip(tokens[0]));
      var rest := DecodeTokens(tokens[1..]);
      if head.Some? && rest.Some? then Some([Dec(head.value)] + rest.value) else None
  }

  lemma {:induction false} DecodeTokensSome(tokens: seq<string>)
    ensures DecodeTokens(tokens).Some? <==> forall i :: 0 <= i < |tokens| ==> ParseDec(Strip(tokens[i])).Some?
  {
    if tokens != [] {
      var tail := tokens[1..];
      DecodeTokensSome(tail);
      assert DecodeTokens(tokens).Some? <==> ParseDec(Strip(tokens[0])).Some? && DecodeTokens(tail).Some?;
      if forall i :: 0 <= i < |tokens| ==> ParseDec(Strip(tokens[i])).Some? {
        forall j | 0 <= j < |tail| ensures ParseDec(Strip(tail[j])).Some? {
          assert tail[j] == tokens[j + 1];
        }
      } else {
        var i :| 0 <= i < |tokens| && ParseDec(Strip(tokens[i])).None?;
        if i > 0 {
          assert tail[i - 1] == tokens[i];
        }
      }
    }
  }

  lemma {:induction false} DecodeTokensValues(tokens: seq<string>)
    requires DecodeTokens(tokens).Some?
    ensures forall i :: 0 <= i < |tokens| ==>
      ParseDec(Strip(tokens[i])).Some? && DecodeTokens(tokens).value[i] == Dec(ParseDec(Strip(tokens[i])).value)
  {
    if tokens != [] {
      var tail := tokens[1..];
      DecodeTokensValues(tail);
      var r, rt := DecodeTokens(tokens).value, DecodeTokens(tail).value;
      assert r == [Dec(ParseDec(Strip(tokens[0])).value)] + rt;
      forall i | 0 < i < |tokens|
        ensures ParseDec(Strip(tokens[i])).Some? && r[i] == Dec(ParseDec(Strip(tokens[i])).value)
      {
        assert r[i] == rt[i - 1] && tail[i - 1] == tokens[i];
      }
    }
  }

  /** The comma list decodes exactly when every stripped token is a decimal, and
      then gives one decimal per token, in order. */
  lemma DecodeTokensSpec(tokens: seq<string>)
    ensures DecodeTokens(tokens).Some? <==> forall i :: 0 <= i < |tokens| ==> ParseDec(Strip(tokens[i])).Some?
    ensures DecodeTokens(tokens).Some? ==>
      forall i :: 0 <= i < |tokens| ==> DecodeTokens(tokens).value[i] == Dec(ParseDec(Strip(tokens[i])).value)
  {
    DecodeTokensSome(tokens);
    if DecodeTokens(tokens).Some? {
      DecodeTokensValues(tokens);
    }
  }

  /** Step 3: a single decimal when the text holds '.', else a single integer. */
  function DecodeScalar(s: string): (r: Option<Decoded>)
    ensures r.Some? ==> !r.value.Opaque?
  {
    if '.' in s then
      match ParseDec(s)
      case Some(x) => Some(Dec(x))
      case None => None
    else
      match ParseInt(s)
      case Some(n) => Some(Int(n))
      case None => None
  }

  /** `parse_parameter_value` on a string. The result is never empty, and an opaque
      value appears only as the whole text when every grammar fails. */
  function DecodeText(s: string): (r: seq<Decoded>)
    ensures |r| > 0
    ensures (exists i :: 0 <= i < |r| && r[i].Opaque?) ==> r == [Opaque(JStr(s))]
  {
    var range := if Count(s, ':') == 2 then DecodeRange(s) else None;
    if range.Some? then
      range.value
    else
      var list := if ',' in s then DecodeTokens(Split(s, ',')) else None;
      if list.Some? then
        list.value
      else
        match DecodeScalar(s)
        case Some(x) => [x]
        case None => [Opaque(JStr(s))]
  }

  /** `parse_parameter_value`: strings are decoded, numbers kept as numbers, and
      any other value is returned as itself. */
  function Decode(v: Json): (r: seq<Decoded>)
    ensures |r| > 0
  {
    match v
    case JStr(s) => DecodeText(s)
    case JInt(i) => [Int(i)]
    case JFloat(d, _) => [Dec(d)]
    case _ => [Opaque(v)]
  }

  // ---------------------------------------------------------------------------
  // Round trips

  lemma RangeTextParts(a: int, b: int, c: int)
    ensures Split(RangeText(a, b, c), ':') == [IntToString(a), IntToString(b), IntToString(c)]
    ensures Count(RangeText(a, b, c), ':') == 2
  {
    var parts := [IntToString(a), IntToString(b), IntToString(c)];
    forall i | 0 <= i < 3 ensures ':' !in parts[i] {
      assert forall k :: 0 <= k < |parts[i]| ==> parts[i][k] != ':';
    }
    SplitJoin(parts, ':');
  }

  /** A valid range text decodes to the inclusive arithmetic sequence. */
  lemma RangeRoundTrip(a: int, b: int, c: int)
    requires a < b && c > 0
    ensures DecodeText(RangeText(a, b, c)) == Ints(RangeValues(a, b, c))
  {
    RangeTextParts(a, b, c);
    IntRoundTrip(a);
    IntRoundTrip(b);
    IntRoundTrip(c);
  }

  /** The characters of a range text are digits, '-' and ':'. */
  lemma RangeTextChars(a: int, b: int, c: int)
    ensures ',' !in RangeText(a, b, c) && '.' !in RangeText(a, b, c) && ':' in RangeText(a, b, c)
  {
    var parts := [IntToString(a), IntToString(b), IntToString(c)];
    forall i | 0 <= i < 3 ensures ',' !in parts[i] && '.' !in parts[i] {
      assert forall k :: 0 <= k < |parts[i]| ==> parts[i][k] != ',' && parts[i][k] != '.';
    }
    JoinChars(parts, ':', ',');
    JoinChars(parts, ':', '.');
    RangeTextParts(a, b, c);
  }

  /** An invalid range (start >= end, or step <= 0) falls through every grammar and
      stays opaque. */
  lemma InvalidRangeIsOpaque(a: int, b: int, c: int)
    requires !(a < b && c > 0)
    ensures DecodeText(RangeText(a, b, c)) == [Opaque(JStr(RangeText(a, b, c)))]
  {
    var s := RangeText(a, b, c);
    RangeTextParts(a, b, c);
    RangeTextChars(a, b, c);
    IntRoundTrip(a);
    IntRoundTrip(b);
    IntRoundTrip(c);
    assert DecodeRange(s).None?;
    assert ParseInt(s).None? by {
      var k :| 0 <= k < |s| && s[k] == ':';
    }
  }

  /** A rendered integer decodes to itself. */
  lemma IntTextRoundTrip(n: int)
    ensures DecodeText(IntToString(n)) == [Int(n)]
  {
    var s := IntToString(n);
    assert forall k :: 0 <= k < |s| ==> s[k] != ':' && s[k] != ',' && s[k] != '.';
    IntRoundTrip(n);
  }

  function IntTexts(xs: seq<int>): (r: seq<string>)
    ensures |r| == |xs| && forall i :: 0 <= i < |xs| ==> r[i] == IntToString(xs[i])
  {
    if xs == [] then [] else [IntToString(xs[0])] + IntTexts(xs[1..])
  }

  function Decs(xs: seq<int>): (r: seq<Decoded>)
    ensures |r| == |xs| && forall i :: 0 <= i < |xs| ==> r[i] == Dec(xs[i] as real)
  {
    if xs == [] then [] else [Dec(xs[0] as real)] + Decs(xs[1..])
  }

  lemma {:induction false} JoinChars(parts: seq<string>, sep: char, c: char)
    requires c != sep
    requires forall i :: 0 <= i < |parts| ==> c !in parts[i]
    ensures c !in Join(parts, [sep])
  {
    if |parts| > 1 {
      JoinChars(parts[1..], sep, c);
    }
  }

  lemma IntTextChars(n: int)
    ensures ',' !in IntToString(n) && ':' !in IntToString(n) && '.' !in IntToString(n)
    ensures Strip(IntToString(n)) == IntToString(n)
  {
    var t := IntToString(n);
    assert forall k :: 0 <= k < |t| ==> IsDigit(t[k]) || t[k] == '-';
    StripNoSpace(t);
  }

  /** A rendered integer, as a comma token, reads as that number. */
  lemma IntToken(n: int)
    ensures ParseDec(Strip(IntToString(n))) == Some(n as real)
  {
    IntTextChars(n);
    IntAsDecimal(n);
  }

  lemma {:induction false} IntTokens(xs: seq<int>)
    ensures DecodeTokens(IntTexts(xs)) == Some(Decs(xs))
  {
    if xs != [] {
      var t := IntTexts(xs);
      IntTokens(xs[1..]);
      assert t[1..] == IntTexts(xs[1..]);
      IntToken(xs[0]);
    }
  }

  /** Integers joined by commas (two or more) decode to the same numbers as decimals. */
  lemma ListRoundTrip(xs: seq<int>)
    requires |xs| >= 2
    ensures DecodeText(Join(IntTexts(xs), ",")) == Decs(xs)
  {
    var tokens := IntTexts(xs);
    var s := Join(tokens, ",");
    IntTokens(xs);
    forall i | 0 <= i < |xs| ensures ',' !in tokens[i] && ':' !in tokens[i] {
      IntTextChars(xs[i]);
    }
    SplitJoin(tokens, ',');
    JoinChars(tokens, ',', ':');
    assert Count(s, ',') >= 1;
  }

  /** A number with one decimal place reads back as that number. */
  lemma OneDecimal(w: nat, d: nat)
    requires d < 10
    ensures ParseDec(NatToString(w) + "." + [DigitChar(d)]) == Some(w as real + d as real / 10.0)
  {
    var whole, frac := NatToString(w), [DigitChar(d)];
    var s := whole + "." + frac;
    assert Join([whole, frac], ".") == s;
    assert '.' !in whole by {
      assert forall k :: 0 <= k < |whole| ==> IsDigit(whole[k]);
    }
    SplitJoin([whole, frac], '.');
    NatToStringValue(w);
    assert DigitsValue(frac) == d by {
      assert frac[..0] == [];
    }
    assert s[0] == whole[0];
  }

  lemma SmallTexts()
    ensures IntToString(2) == "2" && IntToString(3) == "3" && IntToString(5) == "5" && IntToString(7) == "7"
    ensures IntToString(10) == "10" && IntToString(20) == "20"
  {
    assert NatToString(1) == "1" && NatToString(2) == "2" && NatToString(0) == "0";
  }

  lemma SmallRange()
    ensures RangeValues(10, 20, 5) == [10, 15, 20]
  {
    assert RangeValues(25, 20, 5) == [];
    assert RangeValues(20, 20, 5) == [20];
    assert RangeValues(15, 20, 5) == [15, 20];
  }

  lemma RangeExampleText()
    ensures RangeText(10, 20, 5) == "10:20:5"
  {
    SmallTexts();
  }

  lemma RangeExampleValues()
    ensures Ints(RangeValues(10, 20, 5)) == [Int(10), Int(15), Int(20)]
  {
    SmallRange();
    var r := Ints([10, 15, 20]);
    assert r[0] == Int(10) && r[1] == Int(15) && r[2] == Int(20);
  }

  lemma RangeExample(s: string)
    requires s == "10:20:5"
    ensures DecodeText(s) == [Int(10), Int(15), Int(20)]
  {
    RangeExampleText();
    RangeRoundTrip(10, 20, 5);
    RangeExampleValues();
  }

  /** The list grammar applies when the range grammar does not and every token is
      a decimal. */
  lemma DecodeAsList(s: string)
    requires Count(s, ':') != 2 && ',' in s
    requires DecodeTokens(Split(s, ',')).Some?
    ensures DecodeText(s) == DecodeTokens(Split(s, ',')).value
  {
  }

  lemma ReversedRangeExample()
    ensures DecodeText("20:10:5") == [Opaque(JStr("20:10:5"))]
  {
    SmallTexts();
    assert RangeText(20, 10, 5) == "20:10:5";
    InvalidRangeIsOpaque(20, 10, 5);
  }

  lemma HalfExample(t: string)
    requires t == "2.5"
    ensures ParseDec(Strip(t)) == Some(2.5)
  {
    assert forall k :: 0 <= k < |t| ==> !IsSpace(t[k]);
    StripNoSpace(t);
    SmallTexts();
    assert NatToString(2) + "." + [DigitChar(5)] == t;
    OneDecimal(2, 5);
  }

  lemma OneToken(z: string, c: real)
    requires ParseDec(Strip(z)) == Some(c)
    ensures DecodeTokens([z]) == Some([Dec(c)])
  {
    var t := [z];
    assert DecodeTokens([]) == Some([]);
    assert t[1..] == [] && t[0] == z;
    assert DecodeTokens(t[1..]) == Some([]);
    assert DecodeTokens(t) == Some([Dec(c)] + []);
    assert [Dec(c)] + [] == [Dec(c)];
  }

  lemma TwoTokens(y: string, z: string, b: real, c: real)
    requires ParseDec(Strip(y)) == Some(b) && ParseDec(Strip(z)) == Some(c)
    ensures DecodeTokens([y, z]) == Some([Dec(b), Dec(c)])
  {
    OneToken(z, c);
    var t := [y, z];
    assert t[1..] == [z] && t[0] == y;
    assert DecodeTokens(t) == Some([Dec(b)] + [Dec(c)]);
    assert [Dec(b)] + [Dec(c)] == [Dec(b), Dec(c)];
  }

  lemma ThreeTokens(x: string, y: string, z: string, a: real, b: real, c: real)
    requires ParseDec(Strip(x)) == Some(a) && ParseDec(Strip(y)) == Some(b) && ParseDec(Strip(z)) == Some(c)
    ensures DecodeTokens([x, y, z]) == Some([Dec(a), Dec(b), Dec(c)])
  {
    TwoTokens(y, z, b, c);
    var t := [x, y, z];
    assert t[1..] == [y, z] && t[0] == x;
    assert DecodeTokens(t) == Some([Dec(a)] + [Dec(b), Dec(c)]);
    assert [Dec(a)] + [Dec(b), Dec(c)] == [Dec(a), Dec(b), Dec(c)];
  }

  lemma ExampleTokens(t0: string, t1: string, t2: string)
    requires t0 == "2" && t1 == "2.5" && t2 == "3"
    ensures ParseDec(Strip(t0)) == Some(2.0) && ParseDec(Strip(t1)) == Some(2.5) && ParseDec(Strip(t2)) == Some(3.0)
  {
    SmallTexts();
    IntToken(2);
    IntToken(3);
    HalfExample(t1);
  }

  lemma ListTokensExample(tokens: seq<string>)
    requires tokens == ["2", "2.5", "3"]
    ensures DecodeTokens(tokens) == Some([Dec(2.0), Dec(2.5), Dec(3.0)])
  {
    ExampleTokens(tokens[0], tokens[1], tokens[2]);
    ThreeTokens(tokens[0], tokens[1], tokens[2], 2.0, 2.5, 3.0);
    assert tokens == [tokens[0], tokens[1], tokens[2]];
  }

  lemma ListSplitExample(s: string)
    requires s == "2,2.5,3"
    ensures Split(s, ',') == ["2", "2.5", "3"] && Count(s, ':') == 0 && ',' in s
  {
    var parts := ["2", "2.5", "3"];
    assert Join(parts, [',']) == s;
    assert forall i :: 0 <= i < |parts| ==> ',' !in parts[i];
    SplitJoin(parts, ',');
    assert s[1] == ',';
    NoColonExample(s);
  }

  lemma NoColonExample(s: string)
    requires s == "2,2.5,3"
    ensures Count(s, ':') == 0
  {
    assert forall k :: 0 <= k < |s| ==> s[k] != ':';
  }

  lemma ListExample(s: string)
    requires s == "2,2.5,3"
    ensures DecodeText(s) == [Dec(2.0), Dec(2.5), Dec(3.0)]
  {
    ListSplitExample(s);
    ListTokensExample(Split(s, ','));
    DecodeAsList(s);
  }

  lemma IntExample(s: string)
    requires s == "7"
    ensures DecodeText(s) == [Int(7)]
  {
    SmallTexts();
    IntTextRoundTrip(7);
  }

  lemma DecimalExample(s: string)
    requires s == "7.5"
    ensures DecodeText(s) == [Dec(7.5)]
  {
    SmallTexts();
    assert NatToString(7) + "." + [DigitChar(5)] == s;
    OneDecimal(7, 5);
    assert s[1] == '.';
    assert Count(s, ':') == 0 && ',' !in s;
    assert DecodeScalar(s) == Some(Dec(7.5));
  }

  lemma TextExample(s: string)
    requires s == "abc"
    ensures DecodeText(s) == [Opaque(JStr(s))]
  {
    assert ':' !in s && ',' !in s && '.' !in s;
    assert ParseInt(s).None?;
  }
}

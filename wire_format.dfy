/**
  The line sent to the microcontroller for one frame: the angles as decimal numerals
  (Python `str` of an integer), joined by `,` and ended by a newline. A small parser
  inverts the format; it exists only to state the round trip.
 */
module WireFormat {
  import Hand
  import opened ServoAngles

  datatype Option<T> = None | Some(value: T)

  const SEPARATOR: char := ','
  const NEWLINE: char := '\n'

  predicate IsDigit(c: char) {
    '0' <= c <= '9'
  }

  /** Every character is a decimal digit (checked from the last one back). */
  predicate AllDigits(s: string) {
    |s| == 0 || (IsDigit(s[|s| - 1]) && AllDigits(s[..|s| - 1]))
  }

  lemma {:induction false} AllDigitsAt(s: string, i: nat)
    requires AllDigits(s) && i < |s|
    ensures IsDigit(s[i])
  {
    if i < |s| - 1 {
      AllDigitsAt(s[..|s| - 1], i);
    }
  }

  /** No character but digits and commas. */
  predicate DigitsAndSeparators(s: string) {
    forall i :: 0 <= i < |s| ==> IsDigit(s[i]) || s[i] == SEPARATOR
  }

  lemma DigitsAreDigitsAndSeparators(s: string)
    requires AllDigits(s)
    ensures DigitsAndSeparators(s)
  {
    forall i | 0 <= i < |s| ensures IsDigit(s[i]) {
      AllDigitsAt(s, i);
    }
  }

  function DigitChar(d: nat): (c: char)
    requires d < 10
    ensures IsDigit(c)
  {
    "0123456789"[d]
  }

  function DigitValue(c: char): (d: nat)
    requires IsDigit(c)
    ensures d < 10
  {
    (c as int - '0' as int) as nat
  }

  // ---- Numerals ----

  /** Decimal numeral of a natural number, most significant digit first, no leading zero. */
  function NatToString(n: nat): (s: string)
    ensures |s| > 0 && AllDigits(s) && IsDigit(s[0])
    ensures s[0] == '0' ==> n == 0
    decreases n
  {
    if n < 10 then [DigitChar(n)] else NatToString(n / 10) + [DigitChar(n % 10)]
  }

  /** Python `str(n)` of an integer: a `-` in front of negative numbers. */
  function IntToString(n: int): (s: string)
    ensures |s| > 0
  {
    if n < 0 then "-" + NatToString(-n) else NatToString(n)
  }

  /** A numeral holds neither of the line's two delimiters; a non-negative one only digits. */
  lemma NumeralCharacters(n: int)
    ensures SEPARATOR !in IntToString(n) && NEWLINE !in IntToString(n)
    ensures 0 <= n ==> AllDigits(IntToString(n))
  {
    var s := IntToString(n);
    var t := if n < 0 then NatToString(-n) else NatToString(n);
    forall i | 0 <= i < |t| ensures IsDigit(t[i]) {
      AllDigitsAt(t, i);
    }
    if n < 0 {
      assert forall i :: 1 <= i < |s| ==> s[i] == t[i - 1];
    }
  }

  /** Value of a run of decimal digits, most significant first. */
  function DigitsValue(s: string): nat
    requires AllDigits(s)
  {
    if |s| == 0 then 0 else DigitsValue(s[..|s| - 1]) * 10 + DigitValue(s[|s| - 1])
  }

  /** Reads an optionally negative decimal numeral; anything else is refused. */
  function ParseInt(s: string): Option<int> {
    if |s| > 1 && s[0] == '-' && AllDigits(s[1..]) then Some(-(DigitsValue(s[1..]) as int))
    else if |s| > 0 && AllDigits(s) then Some(DigitsValue(s))
    else None
  }

  lemma {:induction false} NatToStringRoundTrip(n: nat)
    ensures DigitsValue(NatToString(n)) == n
    decreases n
  {
    var s := NatToString(n);
    if n >= 10 {
      NatToStringRoundTrip(n / 10);
      assert s[..|s| - 1] == NatToString(n / 10);
      assert DigitValue(DigitChar(n % 10)) == n % 10;
    } else {
      assert DigitValue(DigitChar(n)) == n;
    }
  }

  /** The numeral of any integer reads back as that integer. */
  lemma IntToStringRoundTrip(n: int)
    ensures ParseInt(IntToString(n)) == Some(n)
  {
    if n < 0 {
      var m: nat := -n;
      assert IntToString(n) == "-" + NatToString(m);
      NegativeNumeralRoundTrip(m);
    } else {
      NonNegativeNumeralRoundTrip(n);
    }
  }

  lemma NonNegativeNumeralRoundTrip(n: int)
    requires 0 <= n
    ensures ParseInt(IntToString(n)) == Some(n)
  {
    var s := NatToString(n);
    assert IntToString(n) == s;
    NatToStringRoundTrip(n);
    assert !(|s| > 1 && s[0] == '-');
    assert ParseInt(s) == Some(DigitsValue(s) as int);
  }

  lemma NegativeNumeralRoundTrip(m: nat)
    requires 0 < m
    ensures ParseInt("-" + NatToString(m)) == Some(-(m as int))
  {
    ParseSigned(NatToString(m));
    NatToStringRoundTrip(m);
  }

  /** A minus sign followed by digits reads as the negated value of the digits. */
  lemma ParseSigned(digits: string)
    requires |digits| > 0 && AllDigits(digits)
    ensures ParseInt("-" + digits) == Some(-(DigitsValue(digits) as int))
  {
    var s := "-" + digits;
    assert s[0] == '-' && s[1..] == digits;
  }

  // ---- Join and split ----

  /** Python `sep.join(parts)`. */
  function Join(parts: seq<string>, sep: string): string {
    if |parts| == 0 then ""
    else if |parts| == 1 then parts[0]
    else parts[0] + sep + Join(parts[1..], sep)
  }

  /** Python `s.split(c)` for one separator character: the pieces between separators. */
  function Split(s: string, c: char): (pieces: seq<string>)
    ensures |pieces| > 0
  {
    if |s| == 0 then [""]
    else
      var rest := Split(s[1..], c);
      if s[0] == c then [""] + rest else [[s[0]] + rest[0]] + rest[1..]
  }

  lemma {:induction false} SplitWithoutSeparator(s: string, c: char)
    requires c !in s
    ensures Split(s, c) == [s]
  {
    if |s| > 0 {
      SplitWithoutSeparator(s[1..], c);
      assert [s[0]] + s[1..] == s;
    }
  }

  lemma {:induction false} SplitFirstPiece(piece: string, c: char, rest: string)
    requires c !in piece
    ensures Split(piece + [c] + rest, c) == [piece] + Split(rest, c)
  {
    var s := piece + [c] + rest;
    if |piece| == 0 {
      assert s[1..] == rest;
    } else {
      assert s[1..] == piece[1..] + [c] + rest;
      SplitFirstPiece(piece[1..], c, rest);
      assert [piece[0]] + piece[1..] == piece;
    }
  }

  /** Splitting a join on a separator that no part contains gives back the parts. */
  lemma {:induction false} SplitJoin(parts: seq<string>, c: char)
    requires |parts| > 0
    requires forall i :: 0 <= i < |parts| ==> c !in parts[i]
    ensures Split(Join(parts, [c]), c) == parts
  {
    if |parts| == 1 {
      SplitWithoutSeparator(parts[0], c);
    } else {
      SplitJoin(parts[1..], c);
      SplitFirstPiece(parts[0], c, Join(parts[1..], [c]));
      assert parts[0] + [c] + Join(parts[1..], [c]) == parts[0] + [c] + Join(parts[1..], [c]);
      assert [parts[0]] + parts[1..] == parts;
    }
  }

  // ---- The message line ----

  function Numerals(values: seq<int>): (ss: seq<string>)
    ensures |ss| == |values|
  {
    if |values| == 0 then [] else [IntToString(values[0])] + Numerals(values[1..])
  }

  lemma {:induction false} NumeralsAt(values: seq<int>, i: nat)
    requires i < |values|
    ensures Numerals(values)[i] == IntToString(values[i])
  {
    if i > 0 {
      NumeralsAt(values[1..], i - 1);
    }
  }

  /** `f"{','.join(map(str, angles))}\n"`. */
  function Message(angles: seq<int>): (line: string)
    ensures |line| > 0 && line[|line| - 1] == NEWLINE
  {
    Join(Numerals(angles), [SEPARATOR]) + [NEWLINE]
  }

  function ParseAll(fields: seq<string>): (r: Option<seq<int>>)
    ensures r.Some? ==> |r.value| == |fields|
  {
    if |fields| == 0 then Some([])
    else
      var head, tail := ParseInt(fields[0]), ParseAll(fields[1..]);
      if head.Some? && tail.Some? then Some([head.value] + tail.value) else None
  }

  /** Strips the final newline and splits the rest on commas into numbers. */
  function ParseMessage(line: string): Option<seq<int>> {
    if |line| == 0 || line[|line| - 1] != NEWLINE then None
    else ParseAll(Split(line[..|line| - 1], SEPARATOR))
  }

  lemma {:induction false} ParseAllNumerals(values: seq<int>)
    ensures ParseAll(Numerals(values)) == Some(values)
  {
    if |values| > 0 {
      var ns := Numerals(values);
      assert ns[1..] == Numerals(values[1..]);
      IntToStringRoundTrip(values[0]);
      ParseAllNumerals(values[1..]);
      assert [values[0]] + values[1..] == values;
    }
  }

  /** Stripping the newline and splitting on commas gives back every angle, in order. */
  lemma MessageRoundTrip(angles: seq<int>)
    requires |angles| > 0
    ensures ParseMessage(Message(angles)) == Some(angles)
  {
    var line := Message(angles);
    assert line[..|line| - 1] == Join(Numerals(angles), [SEPARATOR]);
    forall i | 0 <= i < |angles| ensures SEPARATOR !in Numerals(angles)[i] {
      NumeralsAt(angles, i);
      NumeralCharacters(angles[i]);
    }
    SplitJoin(Numerals(angles), SEPARATOR);
    ParseAllNumerals(angles);
  }

  // ---- Shape of a four-angle line ----

  /** Number of occurrences of `c` in `s`. */
  function Count(s: string, c: char): nat {
    if |s| == 0 then 0 else (if s[0] == c then 1 else 0) + Count(s[1..], c)
  }

  lemma {:induction false} CountAppend(s: string, t: string, c: char)
    ensures Count(s + t, c) == Count(s, c) + Count(t, c)
  {
    if |s| > 0 {
      assert (s + t)[1..] == s[1..] + t;
      CountAppend(s[1..], t, c);
    } else {
      assert s + t == t;
    }
  }

  lemma {:induction false} CountAbsent(s: string, c: char)
    requires c !in s
    ensures Count(s, c) == 0
  {
    if |s| > 0 {
      CountAbsent(s[1..], c);
    }
  }

  /** The line for four angles spelled out: numeral, comma, numeral, comma, numeral, comma, numeral, newline. */
  lemma MessageOfFour(angles: seq<int>)
    requires |angles| == 4
    ensures Message(angles) ==
      IntToString(angles[0]) + [SEPARATOR] + IntToString(angles[1]) + [SEPARATOR]
      + IntToString(angles[2]) + [SEPARATOR] + IntToString(angles[3]) + [NEWLINE]
  {
    var ns := Numerals(angles);
    var sep := [SEPARATOR];
    NumeralsAt(angles, 0); NumeralsAt(angles, 1); NumeralsAt(angles, 2); NumeralsAt(angles, 3);
    assert ns[1..][1..][1..] == [ns[3]];
    assert Join(ns[1..][1..], sep) == ns[2] + sep + ns[3];
    assert Join(ns[1..], sep) == ns[1] + sep + (ns[2] + sep + ns[3]);
    assert Join(ns, sep) == ns[0] + sep + (ns[1] + sep + (ns[2] + sep + ns[3]));
  }

  /**
    For a valid servo angle set the line holds exactly three commas and exactly one
    newline, the newline is its last character, and every other character is a digit.
   */
  lemma MessageShape(angles: seq<int>)
    requires IsServoAngleSet(angles)
    ensures var line := Message(angles);
      && |line| >= 8
      && line[|line| - 1] == NEWLINE
      && Count(line, SEPARATOR) == 3
      && Count(line, NEWLINE) == 1
      && DigitsAndSeparators(line[..|line| - 1])
  {
    var n0, n1, n2, n3 := IntToString(angles[0]), IntToString(angles[1]), IntToString(angles[2]), IntToString(angles[3]);
    NumeralCharacters(angles[0]); NumeralCharacters(angles[1]);
    NumeralCharacters(angles[2]); NumeralCharacters(angles[3]);
    MessageOfFour(angles);
    var line := Message(angles);
    var sep, nl := [SEPARATOR], [NEWLINE];
    assert line == n0 + sep + n1 + sep + n2 + sep + n3 + nl;
    forall c | c == SEPARATOR || c == NEWLINE
      ensures Count(line, c) == (if c == SEPARATOR then 3 else 0) + (if c == NEWLINE then 1 else 0)
    {
      CountAbsent(n0, c); CountAbsent(n1, c); CountAbsent(n2, c); CountAbsent(n3, c);
      CountAppend(n0, sep, c);
      CountAppend(n0 + sep, n1, c);
      CountAppend(n0 + sep + n1, sep, c);
      CountAppend(n0 + sep + n1 + sep, n2, c);
      CountAppend(n0 + sep + n1 + sep + n2, sep, c);
      CountAppend(n0 + sep + n1 + sep + n2 + sep, n3, c);
      CountAppend(n0 + sep + n1 + sep + n2 + sep + n3, nl, c);
    }
    DigitsAreDigitsAndSeparators(n0); DigitsAreDigitsAndSeparators(n1);
    DigitsAreDigitsAndSeparators(n2); DigitsAreDigitsAndSeparators(n3);
    assert line[..|line| - 1] == n0 + sep + n1 + sep + n2 + sep + n3;
  }

  /** The example line: angles 126, 90, 45 and 60. */
  lemma ExampleLine()
    ensures Message([126, 90, 45, 60]) == "126,90,45,60\n"
  {
    ExampleNumerals();
    MessageOfFour([126, 90, 45, 60]);
    assert "126" + [SEPARATOR] + "90" + [SEPARATOR] + "45" + [SEPARATOR] + "60" + [NEWLINE] == "126,90,45,60\n";
  }

  lemma ExampleNumerals()
    ensures IntToString(126) == "126" && IntToString(90) == "90"
    ensures IntToString(45) == "45" && IntToString(60) == "60"
  {
    NumeralOfTwoDigits(1, 2);
    NumeralOfTwoDigits(12, 6);
    NumeralOfTwoDigits(9, 0);
    NumeralOfTwoDigits(4, 5);
    NumeralOfTwoDigits(6, 0);
  }

  lemma NumeralOfTwoDigits(high: nat, low: nat)
    requires 0 < high && low < 10
    ensures NatToString(10 * high + low) == NatToString(high) + [DigitChar(low)]
  {
    var n := 10 * high + low;
    assert n / 10 == high && n % 10 == low;
  }

  /** The line sent for one detected hand, which parses back to the frame's four angles. */
  lemma FrameMessageRoundTrip(hand: seq<Hand.Landmark>, height: nat, width: nat)
    requires Hand.IsComplete(hand)
    ensures ParseMessage(Message(FrameAngles(hand, height, width))) == Some(FrameAngles(hand, height, width))
    ensures Count(Message(FrameAngles(hand, height, width)), SEPARATOR) == 3
  {
    MessageRoundTrip(FrameAngles(hand, height, width));
    MessageShape(FrameAngles(hand, height, width));
  }
}

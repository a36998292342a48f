/** Time-outs on their way from the service, which prints them as Go does, to the bridge, which parses them. Times are
    exact: nanoseconds on the one side, real seconds on the other. */
module Durations {
  import opened Decimal
  import opened Options
  import Text

  // Printing

  const MICROSECOND: nat := 1000
  const MILLISECOND: nat := 1000000
  const SECOND: nat := 1000000000

  /** The last `prec` digits of `v` without the zeros that end them, before the digits already in `out`. */
  function FractionDigits(v: nat, prec: nat, out: string): string {
    if prec == 0 then out
    else FractionDigits(v / 10, prec - 1, if v % 10 != 0 || out != "" then [Digit(v % 10)] + out else "")
  }

  function Fraction(v: nat, prec: nat): string {
    var digits := FractionDigits(v, prec, "");
    if digits == "" then "" else "." + digits
  }

  function Shifted(v: nat, prec: nat): nat {
    if prec == 0 then v else Shifted(v / 10, prec - 1)
  }

  /** time.Duration.String for `d` nanoseconds */
  function Printed(d: int): string {
    if d < 0 then "-" + PrintedMagnitude(-d) else PrintedMagnitude(d)
  }

  /** `u` in a unit 10^prec times larger. */
  function Scaled(u: nat, prec: nat): string {
    Numeral(Shifted(u, prec)) + Fraction(u, prec)
  }

  function PrintedMagnitude(u: nat): string {
    if u == 0 then "0s"
    else if u < MICROSECOND then Numeral(u) + "ns"
    else if u < MILLISECOND then Scaled(u, 3) + "µs"
    else if u < SECOND then Scaled(u, 6) + "ms"
    else Clock(Shifted(u, 9), Fraction(u, 9))
  }

  function SecondsPart(v: nat, fraction: string): string {
    Numeral(v % 60) + fraction + "s"
  }

  function MinutesPart(v: nat): string {
    if v / 60 == 0 then "" else Numeral(v / 60 % 60) + "m"
  }

  function HoursPart(v: nat): string {
    if v / 60 / 60 == 0 then "" else Numeral(v / 60 / 60) + "h"
  }

  /** Whole seconds and a fraction of one, as hours, minutes and seconds. */
  function Clock(v: nat, fraction: string): string {
    HoursPart(v) + (MinutesPart(v) + SecondsPart(v, fraction))
  }

  // Parsing

  function DigitRun(s: string): (n: nat)
    ensures n <= |s| && Digits(s[..n]) && (n < |s| ==> !IsDigit(s[n]))
  {
    if s == "" || !IsDigit(s[0]) then 0
    else
      var n := DigitRun(s[1..]);
      assert s[..n + 1] == [s[0]] + s[1..][..n];
      n + 1
  }

  /** What the digits after a decimal point are worth. */
  function FractionValue(s: string): real
    requires Digits(s)
  {
    if s == "" then 0.0
    else
      assert forall c | c in s[1..] :: c in s;
      (DigitValue(s[0]) as real + FractionValue(s[1..])) / 10.0
  }

  type DigitString = s: string | Digits(s)

  /** A match of the bridge's pattern: the digits before and after the point, the unit, and its length, 0 if there is
      none. */
  datatype Match = Match(whole: DigitString, digits: DigitString, unit: Unit, length: nat)

  const NO_MATCH := Match("", "", Seconds, 0)

  /** The sum of the matches that make up a whole text. */
  datatype Sum = Malformed | Sum(seconds: real)

  datatype Unit = Milliseconds | Seconds | Minutes | Hours

  function Length(u: Unit): nat {
    if u == Milliseconds then 2 else 1
  }

  /** So many units, in seconds. */
  function InSeconds(x: real, u: Unit): real {
    match u
    case Milliseconds => x * 0.001
    case Seconds => x
    case Minutes => x * 60.0
    case Hours => x * 3600.0
  }

  /** The unit at the front of a text. */
  function UnitAt(s: string): Option<Unit> {
    if "ms" <= s then Some(Milliseconds)
    else if s == "" then None
    else if s[0] == 's' then Some(Seconds)
    else if s[0] == 'm' then Some(Minutes)
    else if s[0] == 'h' then Some(Hours)
    else None
  }

  /** The match of the whole pattern at the front of a text. */
  function Token(s: string): (t: Match)
    ensures t.length <= |s|
  {
    var n := DigitRun(s);
    if n == 0 then NO_MATCH
    else
      var k := if n < |s| && s[n] == '.' then DigitRun(s[n + 1..]) else 0;
      var end := if k > 0 then n + 1 + k else n;
      var unit := UnitAt(s[end..]);
      if unit.None? then NO_MATCH
      else Match(s[..n], if k > 0 then s[n + 1..][..k] else "", unit.value, end + Length(unit.value))
  }

  /** float(number) * units[unit] */
  function Worth(m: Match): real {
    InSeconds(Value(m.whole) as real + FractionValue(m.digits), m.unit)
  }

  lemma WorthIsPositive(m: Match)
    ensures Worth(m) >= 0.0
  {
    FractionIsPositive(m.digits);
  }

  lemma {:induction false} FractionIsPositive(s: string)
    requires Digits(s)
    ensures FractionValue(s) >= 0.0
  {
    if s != "" {
      assert forall c | c in s[1..] :: c in s;
      FractionIsPositive(s[1..]);
    }
  }

  /** A pattern: its match at the front of a text. */
  type Pattern = string -> Match

  ghost predicate Sound(p: Pattern) {
    forall s :: p(s).length <= |s|
  }

  /** The sum of the matches that make up a whole text, one after the other. */
  ghost function Total(s: string, p: Pattern): Sum
    requires Sound(p)
  {
    if s == "" then Sum(0.0)
    else
      var t := p(s);
      if t.length == 0 then Malformed else Add(Worth(t), Total(s[t.length..], p))
  }

  function Add(x: real, rest: Sum): Sum {
    if rest.Malformed? then Malformed else Sum(x + rest.seconds)
  }

  lemma AddTwice(x: real, y: real, rest: Sum)
    ensures Add(x, Add(y, rest)) == Add(x + y, rest)
  {
    if rest.Sum? {
      assert x + (y + rest.seconds) == x + y + rest.seconds;
    }
  }

  function Lower(c: char): char {
    if 'A' <= c <= 'Z' then c + 32 as char else c
  }

  function LowerCase(s: string): string {
    seq(|s|, i requires 0 <= i < |s| => Lower(s[i]))
  }

  /** The start of the leftmost match at or after a position; the end of the text if there is none. */
  function Find(s: string, from: nat, p: Pattern): (start: nat)
    requires from <= |s|
    ensures from <= start <= |s| && (start < |s| ==> p(s[start..]).length > 0)
    ensures from < |s| && p(s[from..]).length > 0 ==> start == from
    decreases |s| - from
  {
    if from == |s| || p(s[from..]).length > 0 then from else Find(s, from + 1, p)
  }

  /** Up to `position`, the matches amount to `total`. */
  ghost predicate SoFar(value: string, p: Pattern, position: nat, total: real)
    requires Sound(p) && position <= |value|
  {
    Total(value, p) == Add(total, Total(value[position..], p))
  }

  lemma NothingYet(value: string, p: Pattern)
    requires Sound(p)
    ensures SoFar(value, p, 0, 0.0)
  {
    assert value[0..] == value;
  }

  lemma Broken(value: string, p: Pattern, position: nat, total: real)
    requires Sound(p) && position < |value| && p(value[position..]).length == 0 && SoFar(value, p, position, total)
    ensures Total(value, p) == Malformed
  {
  }

  lemma Complete(value: string, p: Pattern, total: real)
    requires Sound(p) && SoFar(value, p, |value|, total)
    ensures Total(value, p) == Sum(total)
  {
  }

  lemma AddOne(whole: Sum, total: real, w: real, rest: Sum)
    requires whole == Add(total, Add(w, rest))
    ensures whole == Add(total + w, rest)
  {
    AddTwice(total, w, rest);
  }

  lemma FirstMatch(s: string, p: Pattern)
    requires Sound(p) && s != "" && p(s).length > 0
    ensures Total(s, p) == Add(Worth(p(s)), Total(s[p(s).length..], p))
  {
  }

  lemma OneMoreMatch(value: string, p: Pattern, position: nat, total: real, w: real)
    requires Sound(p) && position < |value| && SoFar(value, p, position, total)
    requires var s := value[position..]; Total(s, p) == Add(w, Total(s[p(s).length..], p))
    ensures SoFar(value, p, position + p(value[position..]).length, total + w)
  {
    var s, length := value[position..], p(value[position..]).length;
    assert s[length..] == value[position + length..];
    AddOne(Total(value, p), total, w, Total(value[position + length..], p));
  }

  /** The next match, added to the sum. */
  method AddMatch(value: string, p: Pattern, position: nat, total: real) returns (sum: real, next: nat)
    requires Sound(p) && position < |value| && p(value[position..]).length > 0 && SoFar(value, p, position, total)
    ensures position < next <= |value| && sum >= total
    ensures SoFar(value, p, next, sum)
  {
    var t := p(value[position..]);
    FirstMatch(value[position..], p);
    WorthIsPositive(t);
    var w := Worth(t);
    OneMoreMatch(value, p, position, total, w);
    sum, next := total + w, position + t.length;
  }

  /** The loop of parse_duration_seconds over the matches of a pattern: it sums them if they make up the whole text. */
  method AddMatches(value: string, p: Pattern, fallback: real) returns (total: real)
    requires Sound(p)
    ensures total == if Total(value, p) == Malformed then fallback else Total(value, p).seconds
  {
    var position := 0;
    total := 0.0;
    NothingYet(value, p);
    var start := Find(value, position, p);
    while start < |value|
      invariant position <= |value| && total >= 0.0 && start == Find(value, position, p)
      invariant SoFar(value, p, position, total)
      decreases |value| - position
    {
      if start != position {
        Broken(value, p, position, total);
        return fallback;
      }
      total, position := AddMatch(value, p, position, total);
      start := Find(value, position, p);
    }
    if position != |value| || total < 0.0 {
      Broken(value, p, position, total);
      return fallback;
    }
    Complete(value, p, total);
  }

  /** parse_duration_seconds */
  method ParseDurationSeconds(raw: string, fallback: real) returns (seconds: real)
    ensures var sum := Parsed(raw);
            seconds == if sum == Malformed then fallback else sum.seconds
  {
    var value := LowerCase(Text.Strip(raw));
    if value == "" {
      return fallback;
    }
    TokenIsSound();
    seconds := AddMatches(value, Token, fallback);
  }

  lemma TokenIsSound()
    ensures Sound(Token)
  {
    forall s: string
      ensures Token(s).length <= |s|
    {
    }
  }

  /** What a text stands for, if it is not empty and consists of matches only. */
  ghost function Parsed(raw: string): Sum {
    var value := LowerCase(Text.Strip(raw));
    TokenIsSound();
    if value == "" then Malformed else Total(value, Token)
  }

  // The round trip

  lemma {:induction false} DigitRunOf(digits: string, rest: string)
    requires Digits(digits) && (rest == "" || !IsDigit(rest[0]))
    ensures DigitRun(digits + rest) == |digits|
  {
    if digits == "" {
      assert digits + rest == rest;
    } else {
      assert digits[0] in digits && forall c | c in digits[1..] :: c in digits;
      DigitRunOf(digits[1..], rest);
      assert (digits + rest)[1..] == digits[1..] + rest;
    }
  }

  /** A number as the service prints it: digits, perhaps a point and more digits. */
  ghost predicate Number(whole: string, digits: string, fraction: string) {
    Digits(whole) && whole != "" && Digits(digits) && fraction == if digits == "" then "" else "." + digits
  }

  function TokenWith(whole: DigitString, digits: DigitString, tail: string, length: nat): Match {
    var unit := UnitAt(tail);
    if unit.None? then NO_MATCH else Match(whole, digits, unit.value, length + Length(unit.value))
  }

  lemma {:induction false} TokenWithoutPoint(whole: string, tail: string)
    requires Digits(whole) && whole != "" && tail != "" && !IsDigit(tail[0]) && tail[0] != '.'
    ensures Token(whole + tail) == TokenWith(whole, "", tail, |whole|)
  {
    var s := whole + tail;
    DigitRunOf(whole, tail);
    assert s[..|whole|] == whole && s[|whole|..] == tail && s[|whole|] == tail[0];
  }

  lemma {:induction false} TokenWithPoint(whole: string, digits: string, tail: string)
    requires Digits(whole) && whole != "" && Digits(digits) && digits != "" && tail != "" && !IsDigit(tail[0])
    ensures Token(whole + ("." + digits + tail)) == TokenWith(whole, digits, tail, |whole| + 1 + |digits|)
  {
    var s := whole + ("." + digits + tail);
    DigitRunOf(whole, "." + digits + tail);
    DigitRunOf(digits, tail);
    PointSlices(whole, digits, tail);
  }

  lemma PointSlices(whole: string, digits: string, tail: string)
    ensures var s := whole + ("." + digits + tail);
            && |s| > |whole| + |digits| && s[..|whole|] == whole && s[|whole|] == '.'
            && s[|whole| + 1..] == digits + tail && (digits + tail)[..|digits|] == digits
            && s[|whole| + 1 + |digits|..] == tail
  {
  }

  lemma {:induction false} TokenOf(whole: string, digits: string, fraction: string, tail: string)
    requires Number(whole, digits, fraction) && tail != "" && !IsDigit(tail[0]) && tail[0] != '.'
    ensures Token(whole + fraction + tail) == TokenWith(whole, digits, tail, |whole + fraction|)
  {
    if digits == "" {
      TokenWithoutPoint(whole, tail);
      assert whole + fraction == whole;
    } else {
      TokenWithPoint(whole, digits, tail);
      PointGroups(whole, digits, tail);
    }
  }

  lemma PointGroups(whole: string, digits: string, tail: string)
    ensures whole + ("." + digits) + tail == whole + ("." + digits + tail)
  {
  }

  /** `x` divided by ten, `n` times. */
  function Down(x: real, n: nat): real
    decreases n
  {
    if n == 0 then x else Down(x / 10.0, n - 1)
  }

  /** Printing loses nothing: the fraction's digits are worth what shifting takes away. */
  lemma {:induction false} FractionDigitsAreExact(v: nat, prec: nat, out: string)
    requires Digits(out)
    ensures Digits(FractionDigits(v, prec, out))
    ensures FractionValue(FractionDigits(v, prec, out)) + Shifted(v, prec) as real
            == Down(FractionValue(out) + v as real, prec)
  {
    if prec > 0 {
      var next := if v % 10 != 0 || out != "" then [Digit(v % 10)] + out else "";
      assert next != "" ==> next[1..] == out && DigitValue(next[0]) == v % 10;
      assert FractionValue(next) == ((v % 10) as real + FractionValue(out)) / 10.0;
      assert v as real == 10.0 * (v / 10) as real + (v % 10) as real;
      FractionDigitsAreExact(v / 10, prec - 1, next);
    }
  }

  lemma DownThree(x: real, n: nat)
    ensures Down(x, n + 3) == Down(x / 1000.0, n)
  {
    assert Down(x, n + 3) == Down(x / 10.0, n + 2) == Down(x / 10.0 / 10.0, n + 1) == Down(x / 10.0 / 10.0 / 10.0, n);
    assert x / 10.0 / 10.0 / 10.0 == x / 1000.0;
  }

  lemma DownIsDivision(x: real)
    ensures Down(x, 6) == x / 1000000.0 && Down(x, 9) == x / 1000000000.0
  {
    DownThree(x, 6);
    DownThree(x, 3);
    DownThree(x / 1000.0, 3);
    DownThree(x / 1000.0, 0);
    DownThree(x / 1000.0 / 1000.0, 0);
  }

  /** One match at the front of a text. */
  lemma {:induction false} MatchFirst(front: string, rest: string, p: Pattern, m: Match, x: real)
    requires Sound(p) && front != "" && p(front + rest) == m && m.length == |front| && Total(rest, p) == Sum(x)
    ensures Total(front + rest, p) == Sum(Worth(m) + x)
  {
    assert (front + rest)[|front|..] == rest;
  }

  /** What the bridge's pattern makes of one printed number with its unit. */
  lemma {:induction false} NumberFirst(m: Match, fraction: string, unit: string, rest: string)
    requires Number(m.whole, m.digits, fraction) && unit != "" && !IsDigit(unit[0]) && unit[0] != '.'
    requires UnitAt(unit + rest) == Some(m.unit) && |unit| == Length(m.unit) && m.length == |m.whole + fraction + unit|
    ensures Token(m.whole + fraction + unit + rest) == m
  {
    TokenOf(m.whole, m.digits, fraction, unit + rest);
    Regroup(m.whole, fraction, unit, rest);
  }

  lemma Regroup(a: string, b: string, c: string, d: string)
    ensures a + b + c + d == a + b + (c + d)
  {
  }

  /** Up to three matches that make up a text, as in a printed duration of at least one second. */
  lemma {:induction false} SumOfThree(a: string, b: string, c: string, p: Pattern, h: Match, m: Match, s: Match,
                                      x: real)
    requires Sound(p) && c != "" && (a != "" ==> b != "")
    requires a != "" ==> p(a + (b + c)) == h && h.length == |a|
    requires b != "" ==> p(b + c) == m && m.length == |b|
    requires p(c) == s && s.length == |c|
    requires x == if a != "" then Worth(h) + (Worth(m) + Worth(s)) else if b != "" then Worth(m) + Worth(s)
             else Worth(s)
    ensures Total(a + (b + c), p) == Sum(x)
  {
    assert c + "" == c && Worth(s) + 0.0 == Worth(s);
    MatchFirst(c, "", p, s, 0.0);
    if b != "" {
      MatchFirst(b, c, p, m, Worth(s));
    } else {
      assert b + c == c;
    }
    if a != "" {
      MatchFirst(a, b + c, p, h, Worth(m) + Worth(s));
    } else {
      assert a + (b + c) == b + c;
    }
  }

  lemma WorthOf(n: nat, digits: DigitString, u: Unit, length: nat)
    ensures Worth(Match(Numeral(n), digits, u, length)) == InSeconds(n as real + FractionValue(digits), u)
  {
    ValueOfNumeral(n);
  }

  lemma WholeWorth(n: nat, u: Unit, length: nat)
    ensures Worth(Match(Numeral(n), "", u, length)) == InSeconds(n as real, u)
  {
    WorthOf(n, "", u, length);
    assert FractionValue("") == 0.0;
  }

  lemma {:induction false} SecondsToken(v: nat, digits: DigitString, fraction: string)
    requires fraction == if digits == "" then "" else "." + digits
    ensures Token(SecondsPart(v, fraction)) == Match(Numeral(v % 60), digits, Seconds, |SecondsPart(v, fraction)|)
  {
    NumberFirst(Match(Numeral(v % 60), digits, Seconds, |SecondsPart(v, fraction)|), fraction, "s", "");
    assert "s" + "" == "s" && SecondsPart(v, fraction) + "" == SecondsPart(v, fraction);
  }

  lemma {:induction false} MinutesToken(v: nat, fraction: string)
    requires v / 60 > 0
    ensures Token(MinutesPart(v) + SecondsPart(v, fraction))
            == Match(Numeral(v / 60 % 60), "", Minutes, |MinutesPart(v)|)
  {
    var n, rest := Numeral(v / 60 % 60), SecondsPart(v, fraction);
    assert rest[0] == Numeral(v % 60)[0] && Numeral(v % 60)[0] in Numeral(v % 60);
    assert ("m" + rest)[1] == rest[0];
    assert n + "" == n;
    NumberFirst(Match(n, "", Minutes, |MinutesPart(v)|), "", "m", rest);
  }

  lemma {:induction false} HoursToken(v: nat, rest: string)
    requires v / 60 / 60 > 0
    ensures Token(HoursPart(v) + rest) == Match(Numeral(v / 60 / 60), "", Hours, |HoursPart(v)|)
  {
    var n := Numeral(v / 60 / 60);
    assert n + "" == n && ("h" + rest)[0] == 'h';
    NumberFirst(Match(n, "", Hours, |HoursPart(v)|), "", "h", rest);
  }

  /** A pattern that finds the parts of a clock finds its seconds. */
  lemma {:induction false} PartsTotal(v: nat, digits: DigitString, a: string, b: string, c: string, p: Pattern)
    requires Sound(p) && c != "" && (a != "" <==> v / 60 / 60 > 0) && (b != "" <==> v / 60 > 0)
    requires a != "" ==> p(a + (b + c)) == Match(Numeral(v / 60 / 60), "", Hours, |a|)
    requires b != "" ==> p(b + c) == Match(Numeral(v / 60 % 60), "", Minutes, |b|)
    requires p(c) == Match(Numeral(v % 60), digits, Seconds, |c|)
    ensures Total(a + (b + c), p) == Sum(v as real + FractionValue(digits))
  {
    var h := Match(Numeral(v / 60 / 60), "", Hours, |a|);
    var m := Match(Numeral(v / 60 % 60), "", Minutes, |b|);
    var s := Match(Numeral(v % 60), digits, Seconds, |c|);
    ClockWorth(v, digits, h, m, s);
    SumOfThree(a, b, c, p, h, m, s, v as real + FractionValue(digits));
  }

  lemma {:induction false} ClockTotal(v: nat, digits: DigitString, fraction: string)
    requires Sound(Token) && fraction == if digits == "" then "" else "." + digits
    ensures Total(HoursPart(v) + (MinutesPart(v) + SecondsPart(v, fraction)), Token)
            == Sum(v as real + FractionValue(digits))
  {
    var b, c := MinutesPart(v), SecondsPart(v, fraction);
    SecondsToken(v, digits, fraction);
    if b != "" {
      MinutesToken(v, fraction);
    }
    if v / 60 / 60 > 0 {
      HoursToken(v, b + c);
    }
    PartsTotal(v, digits, HoursPart(v), b, c, Token);
  }

  /** Hours, minutes and seconds add up; without hours, minutes and seconds do; and so on. */
  lemma ClockSum(v: nat, f: real)
    ensures (v / 60 / 60) as real * 3600.0 + ((v / 60 % 60) as real * 60.0 + ((v % 60) as real + f)) == v as real + f
    ensures v / 60 / 60 == 0 ==> (v / 60 % 60) as real * 60.0 + ((v % 60) as real + f) == v as real + f
    ensures v / 60 == 0 ==> (v % 60) as real + f == v as real + f
  {
    assert v == 3600 * (v / 60 / 60) + 60 * (v / 60 % 60) + v % 60;
  }

  lemma ClockWorth(v: nat, digits: DigitString, h: Match, m: Match, s: Match)
    requires h == Match(Numeral(v / 60 / 60), "", Hours, h.length)
    requires m == Match(Numeral(v / 60 % 60), "", Minutes, m.length)
    requires s == Match(Numeral(v % 60), digits, Seconds, s.length)
    ensures Worth(h) + (Worth(m) + Worth(s)) == v as real + FractionValue(digits)
    ensures v / 60 / 60 == 0 ==> Worth(m) + Worth(s) == v as real + FractionValue(digits)
    ensures v / 60 == 0 ==> Worth(s) == v as real + FractionValue(digits)
  {
    WholeWorth(v / 60 / 60, Hours, h.length);
    WholeWorth(v / 60 % 60, Minutes, m.length);
    WorthOf(v % 60, digits, Seconds, s.length);
    ClockSum(v, FractionValue(digits));
  }

  /** The fraction that is printed, and what it is worth together with the whole part. */
  lemma {:induction false} PrintedFraction(u: nat, prec: nat) returns (digits: DigitString)
    ensures Fraction(u, prec) == if digits == "" then "" else "." + digits
    ensures Shifted(u, prec) as real + FractionValue(digits) == Down(u as real, prec)
  {
    FractionDigitsAreExact(u, prec, "");
    digits := FractionDigits(u, prec, "");
    assert FractionValue("") + u as real == u as real;
  }

  lemma {:induction false} SecondsAreWorth(u: nat) returns (digits: DigitString)
    ensures Fraction(u, 9) == if digits == "" then "" else "." + digits
    ensures Sum(Shifted(u, 9) as real + FractionValue(digits)) == Sum(u as real / 1000000000.0)
  {
    digits := PrintedFraction(u, 9);
    DownIsDivision(u as real);
  }

  lemma PrintedSeconds(u: nat)
    requires u >= SECOND
    ensures PrintedMagnitude(u) == HoursPart(Shifted(u, 9)) + (MinutesPart(Shifted(u, 9))
                                                              + SecondsPart(Shifted(u, 9), Fraction(u, 9)))
  {
  }

  lemma {:induction false} TotalOfSeconds(u: nat)
    requires u >= SECOND && Sound(Token)
    ensures Total(PrintedMagnitude(u), Token) == Sum(u as real / 1000000000.0)
  {
    var v, fraction := Shifted(u, 9), Fraction(u, 9);
    var digits := SecondsAreWorth(u);
    PrintedSeconds(u);
    ClockTotal(v, digits, fraction);
  }

  /** A duration in milliseconds is one match, worth exactly what it should be. */
  lemma {:induction false} MillisecondsMatch(u: nat) returns (m: Match)
    ensures Token(Scaled(u, 6) + "ms") == m && m.length == |Scaled(u, 6) + "ms"| && Worth(m) == u as real / 1000000000.0
  {
    var digits := PrintedFraction(u, 6);
    var n, fraction := Shifted(u, 6), Fraction(u, 6);
    m := Match(Numeral(n), digits, Milliseconds, |Numeral(n) + fraction + "ms"|);
    NumberFirst(m, fraction, "ms", "");
    assert Numeral(n) + fraction + "ms" + "" == Numeral(n) + fraction + "ms" && "ms" + "" == "ms";
    MillisecondsWorth(u, digits, m);
  }

  lemma MillisecondsWorth(u: nat, digits: DigitString, m: Match)
    requires m == Match(Numeral(Shifted(u, 6)), digits, Milliseconds, m.length)
    requires Shifted(u, 6) as real + FractionValue(digits) == Down(u as real, 6)
    ensures Worth(m) == u as real / 1000000000.0
  {
    DownIsDivision(u as real);
    WorthOf(Shifted(u, 6), digits, Milliseconds, m.length);
  }

  lemma {:induction false} TotalOfMilliseconds(u: nat, p: Pattern)
    requires Sound(p) && p(Scaled(u, 6) + "ms") == Token(Scaled(u, 6) + "ms")
    ensures Total(Scaled(u, 6) + "ms", p) == Sum(u as real / 1000000000.0)
  {
    var m := MillisecondsMatch(u);
    OneMatch(Scaled(u, 6) + "ms", p, m, u as real / 1000000000.0);
  }

  lemma {:induction false} TotalOfZero()
    requires Sound(Token)
    ensures Total(PrintedMagnitude(0), Token) == Sum(0.0)
  {
    var m := Match(Numeral(0), "", Seconds, 2);
    NumberFirst(m, "", "s", "");
    WorthOf(0, "", Seconds, 2);
    assert Numeral(0) == "0" && "0" + "" + "s" + "" == "0s" && "s" + "" == "s";
    OneMatch("0s", Token, m, 0.0);
  }

  lemma {:induction false} OneMatch(s: string, p: Pattern, m: Match, x: real)
    requires Sound(p) && s != "" && p(s) == m && m.length == |s| && x == Worth(m)
    ensures Total(s, p) == Sum(x)
  {
    assert s + "" == s && Worth(m) + 0.0 == Worth(m);
    MatchFirst(s, "", p, m, 0.0);
  }

  lemma {:induction false} MicrosecondsToken(u: nat)
    ensures Token(Scaled(u, 3) + "µs") == NO_MATCH
  {
    var digits := PrintedFraction(u, 3);
    TokenOf(Numeral(Shifted(u, 3)), digits, Fraction(u, 3), "µs");
  }

  lemma {:induction false} NanosecondsToken(u: nat)
    ensures Token(Numeral(u) + "ns") == NO_MATCH
  {
    TokenWithoutPoint(Numeral(u), "ns");
  }

  /** Less than a millisecond, or less than nothing, is printed in a unit or with a sign that the bridge does not
      know. */
  lemma {:induction false} TotalOfTheRest(d: int)
    requires d < 0 || 0 < d < MILLISECOND
    ensures Token(Printed(d)) == NO_MATCH && Printed(d) != ""
  {
    if d < 0 {
      assert Printed(d)[0] == '-';
    } else if d < MICROSECOND {
      NanosecondsToken(d);
    } else {
      MicrosecondsToken(d);
    }
  }

  lemma {:induction false} NoMatchFirst(s: string, p: Pattern)
    requires Sound(p) && s != "" && p(s).length == 0
    ensures Total(s, p) == Malformed
  {
  }

  predicate Plain(c: char) {
    IsDigit(c) || c == '.' || c == '-' || c == 'h' || c == 'm' || c == 's' || c == 'n' || c == 'µ'
  }

  ghost predicate AllPlain(s: string) {
    forall c | c in s :: Plain(c)
  }

  lemma {:induction false} ScaledIsPlain(u: nat, prec: nat)
    ensures AllPlain(Scaled(u, prec)) && AllPlain(Fraction(u, prec))
  {
    var digits := PrintedFraction(u, prec);
  }

  lemma {:induction false} ClockIsPlain(v: nat, fraction: string)
    requires AllPlain(fraction)
    ensures AllPlain(Clock(v, fraction)) && Clock(v, fraction) != ""
  {
    assert AllPlain(HoursPart(v)) && AllPlain(MinutesPart(v)) && AllPlain(SecondsPart(v, fraction));
  }

  lemma {:induction false} PrintedIsPlain(d: int)
    ensures Printed(d) != "" && AllPlain(Printed(d))
  {
    var u: nat := if d < 0 then -d else d;
    ScaledIsPlain(u, 3);
    ScaledIsPlain(u, 6);
    ScaledIsPlain(u, 9);
    ClockIsPlain(Shifted(u, 9), Fraction(u, 9));
    assert PrintedMagnitude(u) != "" && AllPlain(PrintedMagnitude(u));
  }

  lemma PlainIsKept(s: string)
    requires s != "" && AllPlain(s)
    ensures LowerCase(Text.Strip(s)) == s
  {
    assert s[0] in s && s[|s| - 1] in s;
    Text.TrimKeeps(s, Text.PySpace);
    forall i | 0 <= i < |s|
      ensures Lower(s[i]) == s[i]
    {
      assert s[i] in s;
    }
  }

  /** The bridge reads every time-out exactly as the service set it, if it is zero or at least a millisecond; any other
      time-out it replaces by its fallback. */
  lemma TimeoutsArriveExactly(d: int)
    ensures Parsed(Printed(d)) == if d == 0 || d >= MILLISECOND then Sum(d as real / 1000000000.0) else Malformed
  {
    PrintedIsPlain(d);
    PlainIsKept(Printed(d));
    TokenIsSound();
    if d == 0 {
      TotalOfZero();
    } else if d >= SECOND {
      TotalOfSeconds(d);
    } else if d >= MILLISECOND {
      TotalOfMilliseconds(d, Token);
    } else {
      TotalOfTheRest(d);
      NoMatchFirst(Printed(d), Token);
    }
  }
}

/** The texts that the bridge takes for durations, and what they stand for. */
module DurationSyntax {
  import opened Decimal
  import opened Durations
  import opened Options
  import Text

  /** Digits, perhaps a point and more digits, and a unit. */
  datatype Spelling = Spelling(whole: DigitString, digits: DigitString, unit: Unit)

  type Part = p: Spelling | p.whole != "" witness Spelling("0", "", Seconds)

  function UnitName(u: Unit): string {
    match u
    case Milliseconds => "ms"
    case Seconds => "s"
    case Minutes => "m"
    case Hours => "h"
  }

  function PointAnd(digits: DigitString): string {
    if digits == "" then "" else "." + digits
  }

  function WrittenPart(p: Part): string {
    p.whole + PointAnd(p.digits) + UnitName(p.unit)
  }

  function Written(parts: seq<Part>): string {
    if parts == [] then "" else WrittenPart(parts[0]) + Written(parts[1..])
  }

  /** A thousandth of a second, a second, a minute of 60 of them, an hour of 3600. */
  function PartSeconds(p: Part): real {
    var x := Value(p.whole) as real + FractionValue(p.digits);
    match p.unit
    case Milliseconds => x / 1000.0
    case Seconds => x
    case Minutes => 60.0 * x
    case Hours => 3600.0 * x
  }

  function SumOf(parts: seq<Part>, value: Part -> real): real {
    if parts == [] then 0.0 else value(parts[0]) + SumOf(parts[1..], value)
  }

  function SecondsOf(parts: seq<Part>): real {
    SumOf(parts, PartSeconds)
  }

  lemma PartIsWorth(p: Part, length: nat)
    ensures Worth(Match(p.whole, p.digits, p.unit, length)) == PartSeconds(p)
  {
  }

  lemma WrittenStartsWithDigit(parts: seq<Part>)
    requires parts != []
    ensures Written(parts) != "" && IsDigit(Written(parts)[0])
  {
    var whole := parts[0].whole;
    assert whole[0] in whole && Written(parts)[0] == whole[0];
  }

  lemma UnitIsFound(u: Unit, rest: string)
    requires rest == "" || IsDigit(rest[0])
    ensures UnitAt(UnitName(u) + rest) == Some(u) && |UnitName(u)| == Length(u)
  {
    var s := UnitName(u) + rest;
    assert s[0] == UnitName(u)[0] && (|s| > 1 && |UnitName(u)| == 1 ==> s[1] == rest[0]);
    if u == Milliseconds {
      assert "ms" <= s;
    }
  }

  lemma {:induction false} PartIsMatched(p: Part, rest: string) returns (m: Match)
    requires rest == "" || IsDigit(rest[0])
    ensures m == Match(p.whole, p.digits, p.unit, |WrittenPart(p)|)
    ensures Token(WrittenPart(p) + rest) == m
  {
    m := Match(p.whole, p.digits, p.unit, |WrittenPart(p)|);
    UnitIsFound(p.unit, rest);
    NumberFirst(m, PointAnd(p.digits), UnitName(p.unit), rest);
  }

  function MatchOf(part: Part): Match {
    Match(part.whole, part.digits, part.unit, |WrittenPart(part)|)
  }

  /** The pattern finds the first of some parts. */
  ghost predicate FindsParts(p: Pattern) {
    forall parts: seq<Part> | parts != [] :: p(Written(parts)) == MatchOf(parts[0])
  }

  lemma TokenFindsParts()
    ensures FindsParts(Token)
  {
    forall parts: seq<Part> | parts != []
      ensures Token(Written(parts)) == MatchOf(parts[0])
    {
      if parts[1..] != [] {
        WrittenStartsWithDigit(parts[1..]);
      }
      var m := PartIsMatched(parts[0], Written(parts[1..]));
    }
  }

  lemma BehindTheFirst(parts: seq<Part>)
    requires parts != []
    ensures var s, n := Written(parts), |WrittenPart(parts[0])|; 0 < n <= |s| && s[n..] == Written(parts[1..])
  {
    assert |WrittenPart(parts[0])| >= |parts[0].whole|;
  }

  /** The sum of the matches that make up a text, each worth what `worth` says. */
  ghost function TotalBy(s: string, p: Pattern, worth: Match -> real): Sum
    requires Sound(p)
  {
    if s == "" then Sum(0.0)
    else
      var t := p(s);
      if t.length == 0 then Malformed else Add(worth(t), TotalBy(s[t.length..], p, worth))
  }

  lemma {:induction false} TotalIsByWorth(s: string, p: Pattern)
    requires Sound(p)
    ensures TotalBy(s, p, Worth) == Total(s, p)
    decreases |s|
  {
    if s != "" && p(s).length > 0 {
      TotalIsByWorth(s[p(s).length..], p);
      FirstMatch(s, p);
    }
  }

  lemma FirstAdds(s: string, p: Pattern, worth: Match -> real, m: Match, value: real, rest: real)
    requires Sound(p) && s != "" && p(s) == m && m.length > 0 && worth(m) == value
    requires TotalBy(s[m.length..], p, worth) == Sum(rest)
    ensures TotalBy(s, p, worth) == Sum(value + rest)
  {
  }

  /** The values of the parts add up to the total. */
  lemma {:induction false} PartsAddUp(parts: seq<Part>, p: Pattern, worth: Match -> real, value: Part -> real)
    requires Sound(p) && FindsParts(p) && forall part: Part :: worth(MatchOf(part)) == value(part)
    ensures TotalBy(Written(parts), p, worth) == Sum(SumOf(parts, value))
  {
    if parts != [] {
      PartsAddUp(parts[1..], p, worth, value);
      BehindTheFirst(parts);
      FirstAdds(Written(parts), p, worth, MatchOf(parts[0]), value(parts[0]), SumOf(parts[1..], value));
    }
  }

  /** A sequence of parts is read as the sum of their values. */
  lemma WrittenIsRead(parts: seq<Part>, p: Pattern)
    requires Sound(p) && FindsParts(p)
    ensures Total(Written(parts), p) == Sum(SecondsOf(parts))
  {
    forall part: Part
      ensures Worth(MatchOf(part)) == PartSeconds(part)
    {
      PartIsWorth(part, |WrittenPart(part)|);
    }
    PartsAddUp(parts, p, Worth, PartSeconds);
    TotalIsByWorth(Written(parts), p);
  }

  lemma NumberIsWritten(s: string)
    requires Token(s).length > 0
    ensures var t := Token(s);
            var end := t.length - Length(t.unit);
            && t.whole != "" && 0 <= end <= |s| && s[..end] == t.whole + PointAnd(t.digits)
            && UnitAt(s[end..]) == Some(t.unit)
  {
    var n := DigitRun(s);
    if Token(s).digits != "" {
      PointSplit(s, n, |Token(s).digits|);
    }
  }

  lemma TokenIsWritten(s: string) returns (p: Part)
    requires Token(s).length > 0
    ensures s[..Token(s).length] == WrittenPart(p)
  {
    NumberIsWritten(s);
    var t := Token(s);
    p := PartAt(s, t, t.length - Length(t.unit));
  }

  lemma PartAt(s: string, t: Match, end: nat) returns (p: Part)
    requires t.whole != "" && end <= |s| && s[..end] == t.whole + PointAnd(t.digits) && UnitAt(s[end..]) == Some(t.unit)
    requires t.length == end + Length(t.unit)
    ensures t.length <= |s| && s[..t.length] == WrittenPart(p)
  {
    p := Spelling(t.whole, t.digits, t.unit);
    UnitIsWritten(s[end..]);
    PrefixSplit(s, end, t.length);
  }

  lemma PrefixSplit(s: string, m: nat, n: nat)
    requires m <= n <= |s|
    ensures s[..n] == s[..m] + s[m..][..n - m]
  {
  }

  lemma PointSplit(s: string, n: nat, k: nat)
    requires n + 1 + k <= |s| && s[n] == '.'
    ensures s[..n + 1 + k] == s[..n] + ("." + s[n + 1..][..k])
  {
  }

  lemma UnitIsWritten(s: string)
    requires UnitAt(s).Some?
    ensures var u := UnitAt(s).value; Length(u) <= |s| && s[..Length(u)] == UnitName(u)
  {
  }

  /** What the pattern finds at the front of a text is a part. */
  ghost predicate FindsOnlyParts(p: Pattern) {
    forall s | 0 < p(s).length <= |s| :: exists part: Part :: s[..p(s).length] == WrittenPart(part)
  }

  lemma TokenFindsOnlyParts()
    ensures FindsOnlyParts(Token)
  {
    forall s: string | 0 < Token(s).length <= |s|
      ensures exists part: Part :: s[..Token(s).length] == WrittenPart(part)
    {
      var part := TokenIsWritten(s);
    }
  }

  /** The text consists of matches, one after the other. */
  ghost predicate Matched(s: string, p: Pattern)
    requires Sound(p)
  {
    s == "" || (p(s).length > 0 && Matched(s[p(s).length..], p))
  }

  lemma {:induction false} SummedIsMatched(s: string, p: Pattern, worth: Match -> real)
    requires Sound(p) && TotalBy(s, p, worth).Sum?
    ensures Matched(s, p)
    decreases |s|
  {
    if s != "" {
      SummedIsMatched(s[p(s).length..], p, worth);
    }
  }

  /** And nothing else is read at all. */
  lemma {:induction false} ReadIsWritten(s: string, p: Pattern) returns (parts: seq<Part>)
    requires Sound(p) && FindsOnlyParts(p) && Matched(s, p)
    ensures s == Written(parts)
    decreases |s|
  {
    if s == "" {
      return [];
    }
    var length := p(s).length;
    var part := FrontPart(s, p);
    var rest := ReadIsWritten(s[length..], p);
    parts := [part] + rest;
    WrittenCons(part, rest);
    Halves(s, length, WrittenPart(part), Written(rest));
  }

  lemma Halves(s: string, n: nat, front: string, rest: string)
    requires n <= |s| && s[..n] == front && s[n..] == rest
    ensures s == front + rest
  {
  }

  lemma FrontPart(s: string, p: Pattern) returns (part: Part)
    requires FindsOnlyParts(p) && 0 < p(s).length <= |s|
    ensures s[..p(s).length] == WrittenPart(part)
  {
    part :| s[..p(s).length] == WrittenPart(part);
  }

  lemma WrittenCons(part: Part, rest: seq<Part>)
    ensures Written([part] + rest) == WrittenPart(part) + Written(rest)
  {
    assert ([part] + rest)[1..] == rest;
  }

  /** The bridge understands a text exactly if, without the white space around it and in lower case, it is a sequence of
      parts, at least one; it then stands for the sum of their values. */
  lemma ParsedIsTheSum(raw: string)
    ensures Parsed(raw).Sum? <==> exists parts: seq<Part> :: parts != [] && LowerCase(Text.Strip(raw)) == Written(parts)
    ensures forall parts: seq<Part> | parts != [] && LowerCase(Text.Strip(raw)) == Written(parts) ::
              Parsed(raw) == Sum(SecondsOf(parts))
  {
    TokenIsSound();
    TokenFindsParts();
    TokenFindsOnlyParts();
    var value := LowerCase(Text.Strip(raw));
    forall parts: seq<Part> | parts != [] && value == Written(parts)
      ensures Parsed(raw) == Sum(SecondsOf(parts))
    {
      WrittenStartsWithDigit(parts);
      WrittenIsRead(parts, Token);
    }
    if Parsed(raw).Sum? {
      TotalIsByWorth(value, Token);
      SummedIsMatched(value, Token, Worth);
      var parts := ReadIsWritten(value, Token);
      assert value != "" && value == Written(parts);
    }
  }

  /** The letters of `t` are those of `s`, some of them in upper case perhaps. */
  ghost predicate SameLetters(s: string, t: string) {
    |s| == |t| && forall i | 0 <= i < |s| :: t[i] == s[i] || ('A' <= t[i] <= 'Z' && t[i] + 32 as char == s[i])
  }

  lemma {:induction false} StripAround(a: string, t: string, b: string, p: char -> bool)
    requires Text.All(a, p) && Text.All(b, p)
    ensures Text.Trim(a + t + b, p) == Text.Trim(t, p)
    decreases |a| + |b|
  {
    if a != "" {
      assert a[0] in a && forall c | c in a[1..] :: c in a;
      StripAround(a[1..], t, b, p);
      Text.TrimIgnoresEnds(a[1..] + t + b, a[0], p);
      assert a + t + b == [a[0]] + (a[1..] + t + b);
    } else if b != "" {
      var last := b[|b| - 1];
      assert last in b && forall c | c in b[..|b| - 1] :: c in b;
      StripAround(a, t, b[..|b| - 1], p);
      Text.TrimIgnoresEnds(a + t + b[..|b| - 1], last, p);
      assert a + t + b == a + t + b[..|b| - 1] + [last];
    } else {
      assert a + t + b == t;
    }
  }

  predicate Letter(c: char) {
    IsDigit(c) || c == '.' || c == 'h' || c == 'm' || c == 's'
  }

  lemma {:induction false} WrittenLetters(parts: seq<Part>)
    ensures forall c | c in Written(parts) :: Letter(c)
  {
    if parts != [] {
      WrittenLetters(parts[1..]);
      assert forall c | c in WrittenPart(parts[0]) :: Letter(c);
    }
  }

  lemma LowerOfSame(s: string, t: string)
    requires SameLetters(s, t) && forall c | c in s :: Letter(c)
    ensures LowerCase(t) == s
  {
    forall i | 0 <= i < |s|
      ensures Lower(t[i]) == s[i]
    {
      assert s[i] in s;
    }
  }

  /** Neither upper case nor white space around a duration makes a difference. */
  lemma AnySpellingIsRead(parts: seq<Part>, t: string, a: string, b: string)
    requires parts != [] && SameLetters(Written(parts), t) && Text.All(a, Text.PySpace) && Text.All(b, Text.PySpace)
    ensures Parsed(a + t + b) == Sum(SecondsOf(parts))
  {
    SpellingIsKept(Written(parts), t, a, b, parts);
    ParsedIsTheSum(a + t + b);
  }

  lemma SpellingIsKept(s: string, t: string, a: string, b: string, parts: seq<Part>)
    requires parts != [] && s == Written(parts)
    requires SameLetters(s, t) && Text.All(a, Text.PySpace) && Text.All(b, Text.PySpace)
    ensures LowerCase(Text.Strip(a + t + b)) == s
  {
    WrittenStartsWithDigit(parts);
    WrittenLetters(parts);
    StripAround(a, t, b, Text.PySpace);
    EndsAreVisible(s, t);
    Text.TrimKeeps(t, Text.PySpace);
    LowerOfSame(s, t);
  }

  lemma EndsAreVisible(s: string, t: string)
    requires SameLetters(s, t) && s != "" && forall c | c in s :: Letter(c)
    ensures t != "" && !Text.PySpace(t[0]) && !Text.PySpace(t[|t| - 1])
  {
    assert s[0] in s && s[|s| - 1] in s;
  }
}

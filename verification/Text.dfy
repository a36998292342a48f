/** Text operations shared by the Go and the Python side: white space, trimming, splitting into lines. */
module Text {

  /** Go's unicode.IsSpace. */
  predicate GoSpace(c: char) {
    || '\U{0009}' <= c <= '\U{000D}'
    || c == ' ' || c == '\U{0085}' || c == '\U{00A0}' || c == '\U{1680}'
    || '\U{2000}' <= c <= '\U{200A}'
    || c == '\U{2028}' || c == '\U{2029}' || c == '\U{202F}' || c == '\U{205F}' || c == '\U{3000}'
  }

  /** The white space of Python's str.strip, which adds the four ASCII separators to Go's. */
  predicate PySpace(c: char) {
    GoSpace(c) || '\U{001C}' <= c <= '\U{001F}'
  }

  function TrimLeft(s: string, p: char -> bool): string {
    if s != "" && p(s[0]) then TrimLeft(s[1..], p) else s
  }

  function TrimRight(s: string, p: char -> bool): string {
    if s != "" && p(s[|s| - 1]) then TrimRight(s[..|s| - 1], p) else s
  }

  function Trim(s: string, p: char -> bool): string {
    TrimRight(TrimLeft(s, p), p)
  }

  /** strings.TrimSpace */
  function TrimSpace(s: string): string {
    Trim(s, GoSpace)
  }

  /** str.strip() */
  function Strip(s: string): string {
    Trim(s, PySpace)
  }

  // Trimming

  predicate All(s: string, p: char -> bool) {
    forall c | c in s :: p(c)
  }

  lemma {:induction false} TrimLeftAppend(s: string, c: char, p: char -> bool)
    ensures TrimLeft(s + [c], p) == if All(s, p) then TrimLeft([c], p) else TrimLeft(s, p) + [c]
  {
    if s == "" {
      assert s + [c] == [c];
    } else if p(s[0]) {
      TrimLeftAppend(s[1..], c, p);
      assert (s + [c])[1..] == s[1..] + [c];
      assert All(s, p) <==> All(s[1..], p) by {
        assert s == [s[0]] + s[1..];
      }
    } else {
      assert s[0] in s;
    }
  }

  lemma {:induction false} TrimLeftAll(s: string, p: char -> bool)
    ensures TrimLeft(s, p) == "" <==> All(s, p)
  {
    if s != "" {
      assert s[0] in s;
      TrimLeftAll(s[1..], p);
      assert s == [s[0]] + s[1..];
    }
  }

  /** Characters of the trimmed kind make no difference at either end. */
  lemma {:induction false} TrimIgnoresEnds(s: string, c: char, p: char -> bool)
    requires p(c)
    ensures Trim([c] + s, p) == Trim(s, p) && Trim(s + [c], p) == Trim(s, p)
  {
    assert ([c] + s)[1..] == s;
    TrimLeftAppend(s, c, p);
    TrimLeftAll(s, p);
    var t := TrimLeft(s, p);
    assert (t + [c])[..|t|] == t;
    assert [c][1..] == "";
  }

  /** Trimming nothing: neither end is of the trimmed kind. */
  lemma TrimKeeps(s: string, p: char -> bool)
    requires s != "" && !p(s[0]) && !p(s[|s| - 1])
    ensures Trim(s, p) == s
  {
  }

  lemma {:induction false} TrimRightEnds(s: string, p: char -> bool)
    ensures var t := TrimRight(s, p); t <= s && (t != "" ==> !p(t[|t| - 1]))
  {
    if s != "" && p(s[|s| - 1]) {
      TrimRightEnds(s[..|s| - 1], p);
    }
  }

  lemma {:induction false} TrimLeftEnds(s: string, p: char -> bool)
    ensures var t := TrimLeft(s, p); (t != "" ==> !p(t[0])) && (forall c | c in t :: c in s)
  {
    if s != "" && p(s[0]) {
      TrimLeftEnds(s[1..], p);
      assert forall c | c in s[1..] :: c in s;
    }
  }

  /** A trimmed text has neither end of the trimmed kind and only characters of the original. */
  lemma TrimEnds(s: string, p: char -> bool)
    ensures var t := Trim(s, p); (t != "" ==> !p(t[0]) && !p(t[|t| - 1])) && (forall c | c in t :: c in s)
  {
    TrimLeftEnds(s, p);
    TrimRightEnds(TrimLeft(s, p), p);
  }

  lemma {:induction false} TrimLeftSame(s: string, p: char -> bool, q: char -> bool)
    requires forall c | c in s :: p(c) == q(c)
    ensures TrimLeft(s, p) == TrimLeft(s, q)
  {
    if s != "" {
      assert s[0] in s;
      assert forall c | c in s[1..] :: c in s;
      TrimLeftSame(s[1..], p, q);
    }
  }

  lemma {:induction false} TrimRightSame(s: string, p: char -> bool, q: char -> bool)
    requires forall c | c in s :: p(c) == q(c)
    ensures TrimRight(s, p) == TrimRight(s, q)
  {
    if s != "" {
      assert s[|s| - 1] in s;
      assert forall c | c in s[..|s| - 1] :: c in s;
      TrimRightSame(s[..|s| - 1], p, q);
    }
  }

  lemma TrimSame(s: string, p: char -> bool, q: char -> bool)
    requires forall c | c in s :: p(c) == q(c)
    ensures Trim(s, p) == Trim(s, q)
  {
    TrimLeftSame(s, p, q);
    TrimLeftEnds(s, p);
    TrimRightSame(TrimLeft(s, p), p, q);
  }

  // Lines

  /** strings.Split(s, "\n"), which never gives an empty result. */
  function Split(s: string): (lines: seq<string>)
    ensures |lines| > 0
  {
    if s == "" then [""]
    else
      var rest := Split(s[1..]);
      if s[0] == '\n' then [""] + rest else [[s[0]] + rest[0]] + rest[1..]
  }

  /** strings.ReplaceAll(s, "\r\n", "\n") */
  function Normalize(s: string): string {
    if s == "" then ""
    else if |s| > 1 && s[0] == '\r' && s[1] == '\n' then "\n" + Normalize(s[2..])
    else [s[0]] + Normalize(s[1..])
  }

  predicate IsCR(c: char) {
    c == '\r'
  }

  /** A line without the carriage returns that end it. */
  function Chomp(line: string): string {
    TrimRight(line, IsCR)
  }

  function Chomped(lines: seq<string>): (r: seq<string>)
    ensures |r| == |lines|
  {
    if lines == [] then [] else [Chomp(lines[0])] + Chomped(lines[1..])
  }

  /** The lines of a text, each without the carriage returns that end it. */
  function Lines(s: string): (lines: seq<string>)
    ensures |lines| > 0
  {
    Chomped(Split(s))
  }

  lemma {:induction false} TrimRightPrepend(s: string, c: char, p: char -> bool)
    ensures TrimRight([c] + s, p) == if All(s, p) then TrimRight([c], p) else [c] + TrimRight(s, p)
  {
    if s == "" {
      assert [c] + s == [c];
    } else if p(s[|s| - 1]) {
      var t := s[..|s| - 1];
      TrimRightPrepend(t, c, p);
      assert ([c] + s)[..|s|] == [c] + t;
      assert All(s, p) <==> All(t, p) by {
        assert s == t + [s[|s| - 1]];
      }
    } else {
      assert s[|s| - 1] in s;
    }
  }

  /** It does not matter which end is trimmed first. */
  lemma {:induction false} TrimFromEitherEnd(s: string, p: char -> bool)
    ensures Trim(s, p) == TrimLeft(TrimRight(s, p), p)
  {
    if s == "" {
    } else if p(s[0]) {
      TrimFromEitherEnd(s[1..], p);
      TrimRightPrepend(s[1..], s[0], p);
      assert s == [s[0]] + s[1..];
      assert TrimRight([s[0]], p) == "" by {
        assert [s[0]][..0] == "";
      }
      if All(s[1..], p) {
        TrimLeftAll(s[1..], p);
      } else {
        assert ([s[0]] + TrimRight(s[1..], p))[1..] == TrimRight(s[1..], p);
      }
    } else {
      TrimRightPrepend(s[1..], s[0], p);
      assert s == [s[0]] + s[1..];
    }
  }

  /** Trimming stops at the last character that is not of the trimmed kind. */
  lemma {:induction false} TrimRightStops(s: string, t: string, p: char -> bool)
    requires s != "" && !p(s[|s| - 1])
    ensures TrimRight(s + t, p) == s + TrimRight(t, p)
  {
    if t == "" {
      assert s + t == s;
    } else {
      assert (s + t)[|s + t| - 1] == t[|t| - 1];
      assert (s + t)[..|s + t| - 1] == s + t[..|t| - 1];
      if p(t[|t| - 1]) {
        TrimRightStops(s, t[..|t| - 1], p);
      }
    }
  }

  /** Nothing is left exactly of a text in which every character is of the trimmed kind. */
  lemma TrimAll(s: string, p: char -> bool)
    ensures Trim(s, p) == "" <==> All(s, p)
  {
    TrimLeftAll(s, p);
    TrimRightAll(TrimLeft(s, p), p);
    TrimLeftEnds(s, p);
    var t := TrimLeft(s, p);
    assert t != "" ==> t[0] in t;
  }

  lemma {:induction false} ChompIsInvisible(line: string)
    ensures TrimSpace(Chomp(line)) == TrimSpace(line) && Strip(Chomp(line)) == Strip(line)
  {
    if line != "" && IsCR(line[|line| - 1]) {
      var front := line[..|line| - 1];
      ChompIsInvisible(front);
      assert line == front + ['\r'];
      TrimIgnoresEnds(front, '\r', GoSpace);
      TrimIgnoresEnds(front, '\r', PySpace);
    }
  }

  lemma ChompPrepend(line: string, c: char)
    ensures Chomp([c] + line) == if c == '\r' && Chomp(line) == "" then "" else [c] + Chomp(line)
  {
    TrimRightPrepend(line, c, IsCR);
    TrimRightAll(line, IsCR);
    assert [c][..0] == "";
  }

  lemma {:induction false} TrimRightAll(s: string, p: char -> bool)
    ensures TrimRight(s, p) == "" <==> All(s, p)
  {
    if s != "" {
      assert s[|s| - 1] in s;
      TrimRightAll(s[..|s| - 1], p);
      assert s == s[..|s| - 1] + [s[|s| - 1]];
    }
  }

  /** Lines one character at a time. */
  lemma LinesPrepend(s: string, c: char)
    ensures Lines([c] + s) == if c == '\n' then [""] + Lines(s) else [Chomp([c] + Lines(s)[0])] + Lines(s)[1..]
  {
    assert ([c] + s)[1..] == s;
    var rest := Split(s);
    if c == '\n' {
      assert Chomp("") == "";
      assert ([""] + rest)[1..] == rest;
    } else {
      ChompPrepend(rest[0], c);
      ChompPrepend(Chomp(rest[0]), c);
      ChompTwice(rest[0]);
      assert ([[c] + rest[0]] + rest[1..])[1..] == rest[1..];
    }
  }

  lemma ChompTwice(line: string)
    ensures Chomp(Chomp(line)) == Chomp(line)
  {
    TrimRightEnds(line, IsCR);
  }

  lemma {:induction false} LinesOfNormalized(s: string)
    ensures Lines(Normalize(s)) == Lines(s)
  {
    if s == "" {
    } else if |s| > 1 && s[0] == '\r' && s[1] == '\n' {
      LinesOfNormalized(s[2..]);
      LinesPrepend(Normalize(s[2..]), '\n');
      LinesPrepend(s[2..], '\n');
      LinesPrepend(['\n'] + s[2..], '\r');
      assert s == ['\r'] + (['\n'] + s[2..]);
      assert Chomp("\r") == "" by {
        assert "\r"[..0] == "";
      }
    } else {
      LinesOfNormalized(s[1..]);
      LinesPrepend(Normalize(s[1..]), s[0]);
      LinesPrepend(s[1..], s[0]);
      assert s == [s[0]] + s[1..];
    }
  }

  lemma {:induction false} LinesConcat(a: string, b: string)
    ensures Lines(a + "\n" + b) == Lines(a) + Lines(b)
  {
    if a == "" {
      LinesPrepend(b, '\n');
      LinesOfNothing();
      assert a + "\n" + b == ['\n'] + b;
    } else {
      LinesConcat(a[1..], b);
      LinesPrepend(a[1..], a[0]);
      LinesPrepend(a[1..] + "\n" + b, a[0]);
      ConcatPrepend(a, b);
      HeadOfConcat(Lines(a[1..]), Lines(b));
    }
  }

  lemma LinesOfNothing()
    ensures Lines("") == [""]
  {
    assert Chomp("") == "";
  }

  lemma HeadOfConcat(l: seq<string>, m: seq<string>)
    requires l != []
    ensures (l + m)[0] == l[0] && (l + m)[1..] == l[1..] + m
    ensures [""] + (l + m) == [""] + l + m
    ensures forall h :: [h] + (l[1..] + m) == [h] + l[1..] + m
  {
  }

  lemma ConcatPrepend(a: string, b: string)
    requires a != ""
    ensures a == [a[0]] + a[1..] && a + "\n" + b == [a[0]] + (a[1..] + "\n" + b)
  {
  }

  lemma {:induction false} NormalizeConcat(a: string, b: string)
    ensures Normalize(a + "\n" + b) == Normalize(a + "\n") + Normalize(b)
  {
    if a == "" {
      assert "\n" + b == ['\n'] + b;
      assert ("\n" + b)[1..] == b;
      assert a + "\n" + b == "\n" + b && a + "\n" == "\n";
    } else {
      var s := a + "\n" + b;
      assert s[1..] == a[1..] + "\n" + b && (a + "\n")[1..] == a[1..] + "\n";
      if a[0] == '\r' && s[1] == '\n' {
        if |a| == 1 {
          assert s[2..] == b && (a + "\n")[2..] == "";
        } else {
          NormalizeConcat(a[2..], b);
          assert s[2..] == a[2..] + "\n" + b && (a + "\n")[2..] == a[2..] + "\n";
        }
      } else {
        NormalizeConcat(a[1..], b);
      }
    }
  }

  lemma {:induction false} NormalizeEnds(a: string)
    ensures var n := Normalize(a + "\n"); n != "" && n[|n| - 1] == '\n' && Lines(n[..|n| - 1]) == Lines(a)
  {
    var n := Normalize(a + "\n");
    NormalizeEndsInNewline(a);
    LinesOfNormalized(a + "\n");
    var x := n[..|n| - 1];
    assert n == x + "\n" + "" && a + "\n" == a + "\n" + "";
    LinesConcat(x, "");
    LinesConcat(a, "");
    assert Lines(x) == (Lines(x) + Lines(""))[..|Lines(x)|];
  }

  lemma {:induction false} NormalizeEndsInNewline(a: string)
    ensures var n := Normalize(a + "\n"); n != "" && n[|n| - 1] == '\n'
  {
    if a != "" {
      var s := a + "\n";
      assert s[1..] == a[1..] + "\n";
      if a[0] == '\r' && s[1] == '\n' {
        if |a| > 1 {
          NormalizeEndsInNewline(a[2..]);
          assert s[2..] == a[2..] + "\n";
        } else {
          assert s[2..] == "";
        }
      } else {
        NormalizeEndsInNewline(a[1..]);
      }
    }
  }

  lemma {:induction false} LineCharacters(s: string)
    ensures forall i, c | 0 <= i < |Lines(s)| && c in Lines(s)[i] :: c in s
  {
    if s != "" {
      LineCharacters(s[1..]);
      LinesPrepend(s[1..], s[0]);
      assert s == [s[0]] + s[1..];
      TrimRightEnds([s[0]] + Lines(s[1..])[0], IsCR);
    } else {
      assert Chomp("") == "";
    }
  }

  lemma {:induction false} PlainLine(s: string)
    requires forall c | c in s :: c != '\n' && c != '\r'
    ensures Lines(s) == [s]
  {
    if s == "" {
      LinesOfNothing();
    } else {
      assert forall c | c in s[1..] :: c in s;
      PlainLine(s[1..]);
      LinesPrepend(s[1..], s[0]);
      assert s == [s[0]] + s[1..] && s[0] in s && s[|s| - 1] in s;
    }
  }
}

/**
  The pieces of Go's strconv, strings and fmt packages the generator relies on:
  decimal rendering of unsigned integers, strings.ReplaceAll, strings.HasSuffix,
  string concatenation of a list, and a line view of a text used to state the
  layout of rendered configuration files.
*/
module Text {

  predicate IsDigit(c: char) {
    '0' <= c <= '9'
  }

  predicate AllDigits(s: string) {
    forall i :: 0 <= i < |s| ==> IsDigit(s[i])
  }

  function DigitChar(d: nat): (c: char)
    requires d < 10
    ensures IsDigit(c)
  {
    ('0' as int + d) as char
  }

  function DigitValue(c: char): (d: nat)
    requires IsDigit(c)
    ensures d < 10
  {
    c as int - '0' as int
  }

  /**
    strconv.FormatUint(n, 10); fmt prints %v and %d of an unsigned integer the same
    way. Non-empty, digits only, no leading zero.
  */
  function Decimal(n: nat): (s: string)
    ensures 1 <= |s| && AllDigits(s)
    ensures s[0] == '0' ==> n == 0
    ensures (|s| == 1) == (n < 10)
  {
    if n < 10 then [DigitChar(n)] else Decimal(n / 10) + [DigitChar(n % 10)]
  }

  /** The number a string of decimal digits denotes. */
  function DecimalValue(s: string): nat
    requires AllDigits(s)
  {
    if s == [] then 0 else DecimalValue(s[..|s| - 1]) * 10 + DigitValue(s[|s| - 1])
  }

  /** Reading the decimal text of n back gives n. */
  lemma {:induction false} DecimalRoundTrip(n: nat)
    ensures DecimalValue(Decimal(n)) == n
  {
    if n >= 10 {
      var s := Decimal(n);
      assert s[..|s| - 1] == Decimal(n / 10);
      DecimalRoundTrip(n / 10);
    }
  }

  /** Distinct numbers have distinct decimal texts. */
  lemma {:induction false} DecimalInjective(a: nat, b: nat)
    requires Decimal(a) == Decimal(b)
    ensures a == b
  {
    DecimalRoundTrip(a);
    DecimalRoundTrip(b);
  }

  /** A value below 256 (an octet, a prefix length) has at most three digits. */
  lemma {:induction false} DecimalOfOctet(n: nat)
    requires n < 256
    ensures |Decimal(n)| <= 3
    ensures |Decimal(n)| == 3 ==> n >= 100
  {
    if n >= 10 {
      assert Decimal(n) == Decimal(n / 10) + [DigitChar(n % 10)];
      assert |Decimal(n / 10)| == 1 || n / 10 >= 10;
    }
  }

  /** strings.HasSuffix. */
  predicate HasSuffix(s: string, suffix: string) {
    |suffix| <= |s| && s[|s| - |suffix|..] == suffix
  }

  /** p occurs in s starting at position i. */
  predicate OccursAt(s: string, p: string, i: nat) {
    i + |p| <= |s| && s[i..i + |p|] == p
  }

  /** strings.Contains. */
  predicate Occurs(s: string, p: string) {
    exists i: nat | i <= |s| :: OccursAt(s, p, i)
  }

  /**
    strings.ReplaceAll for a non-empty pattern: scanning from the left, every
    occurrence of pat that does not overlap an earlier replaced one becomes rep.
  */
  function ReplaceAll(s: string, pat: string, rep: string): string
    requires pat != []
    decreases |s|
  {
    if |s| < |pat| then s
    else if s[..|pat|] == pat then rep + ReplaceAll(s[|pat|..], pat, rep)
    else [s[0]] + ReplaceAll(s[1..], pat, rep)
  }

  /** Nothing is replaced in a text that does not contain the pattern. */
  lemma {:induction false} ReplaceAllAbsent(s: string, pat: string, rep: string)
    requires pat != [] && !Occurs(s, pat)
    ensures ReplaceAll(s, pat, rep) == s
  {
    if |s| >= |pat| {
      assert !OccursAt(s, pat, 0);
      assert s[..|pat|] == s[0..0 + |pat|];
      forall i: nat | i <= |s[1..]| ensures !OccursAt(s[1..], pat, i) {
        if i + |pat| <= |s[1..]| {
          assert s[1..][i..i + |pat|] == s[i + 1..i + 1 + |pat|];
          assert !OccursAt(s, pat, i + 1);
        }
      }
      ReplaceAllAbsent(s[1..], pat, rep);
    }
  }

  /** Replacing a pattern by itself changes nothing. */
  lemma {:induction false} ReplaceAllSelf(s: string, pat: string)
    requires pat != []
    ensures ReplaceAll(s, pat, pat) == s
  {
    if |s| >= |pat| {
      if s[..|pat|] == pat {
        ReplaceAllSelf(s[|pat|..], pat);
        assert s == s[..|pat|] + s[|pat|..];
      } else {
        ReplaceAllSelf(s[1..], pat);
        assert s == [s[0]] + s[1..];
      }
    }
  }

  /** No character of a occurs in b. */
  predicate Disjoint(a: string, b: string) {
    forall i :: 0 <= i < |a| ==> a[i] !in b
  }

  /**
    A prefix of the output made only of characters foreign to the replacement
    was copied unchanged from the input.
  */
  lemma {:induction false} CopiedPrefix(t: string, pat: string, rep: string, q: string)
    requires pat != [] && rep != [] && Disjoint(q, rep)
    ensures var r := ReplaceAll(t, pat, rep);
      |q| <= |r| && r[..|q|] == q ==> |q| <= |t| && t[..|q|] == q
    decreases |t|
  {
    var r := ReplaceAll(t, pat, rep);
    if q != [] && |t| >= |pat| {
      if t[..|pat|] == pat {
        assert r[0] == rep[0];
      } else {
        var x := ReplaceAll(t[1..], pat, rep);
        assert r == [t[0]] + x;
        CopiedPrefix(t[1..], pat, rep, q[1..]);
        if |q| <= |r| && r[..|q|] == q {
          assert r[1..] == x;
          assert x[..|q| - 1] == r[..|q|][1..];
          assert t[0] == r[0] == q[0];
          assert t[..|q|] == [t[0]] + t[1..][..|q| - 1];
          assert q == [q[0]] + q[1..];
        }
      }
    }
  }

  /**
    When the replacement shares no character with the pattern, no occurrence of
    the pattern is left in the output.
  */
  lemma {:induction false} ReplaceAllRemovesPattern(s: string, pat: string, rep: string)
    requires pat != [] && rep != [] && Disjoint(pat, rep)
    ensures !Occurs(ReplaceAll(s, pat, rep), pat)
    decreases |s|
  {
    var r := ReplaceAll(s, pat, rep);
    if |s| < |pat| {
      forall i: nat ensures !OccursAt(r, pat, i) { }
    } else if s[..|pat|] == pat {
      var y := ReplaceAll(s[|pat|..], pat, rep);
      assert r == rep + y;
      ReplaceAllRemovesPattern(s[|pat|..], pat, rep);
      forall i: nat | i + |pat| <= |r| ensures !OccursAt(r, pat, i) {
        if i < |rep| {
          assert r[i..i + |pat|][0] == rep[i];
        } else {
          assert y[i - |rep|..i - |rep| + |pat|] == r[i..i + |pat|];
          assert !OccursAt(y, pat, i - |rep|);
        }
      }
    } else {
      var y := ReplaceAll(s[1..], pat, rep);
      assert r == [s[0]] + y;
      ReplaceAllRemovesPattern(s[1..], pat, rep);
      forall i: nat | i + |pat| <= |r| ensures !OccursAt(r, pat, i) {
        if i == 0 {
          CopiedPrefix(s[1..], pat, rep, pat[1..]);
          assert s[..|pat|] == [s[0]] + s[1..][..|pat| - 1];
          assert r[0..|pat|] == [s[0]] + y[..|pat| - 1];
        } else {
          assert y[i - 1..i - 1 + |pat|] == r[i..i + |pat|];
          assert !OccursAt(y, pat, i - 1);
        }
      }
    }
  }

  /** Concatenation of a list of strings, in order (a strings.Builder fed each one). */
  function Concat(parts: seq<string>): string {
    if parts == [] then [] else Concat(parts[..|parts| - 1]) + parts[|parts| - 1]
  }

  /** The text split at every newline, as a configuration file reader sees it. */
  function Lines(s: string): (ls: seq<string>)
    ensures |ls| >= 1
  {
    if s == [] then [[]]
    else
      var rest := Lines(s[1..]);
      if s[0] == '\n' then [[]] + rest else [[s[0]] + rest[0]] + rest[1..]
  }

  /** A text without a newline is a single line. */
  lemma {:induction false} LinesOfLine(s: string)
    requires '\n' !in s
    ensures Lines(s) == [s]
  {
    if s != [] {
      assert '\n' !in s[1..];
      LinesOfLine(s[1..]);
      assert s == [s[0]] + s[1..];
    }
  }

  /** A newline between two texts separates their lines. */
  lemma {:induction false} LinesSplit(a: string, b: string)
    ensures Lines(a + "\n" + b) == Lines(a) + Lines(b)
  {
    if a == [] {
      assert a + "\n" + b == "\n" + b;
      assert ("\n" + b)[1..] == b;
    } else {
      assert (a + "\n" + b)[1..] == a[1..] + "\n" + b;
      LinesSplit(a[1..], b);
    }
  }
  /** The lines joined with a newline between each two, as a multi-line template reads. */
  function JoinLines(ls: seq<string>): string {
    if ls == [] then [] else if |ls| == 1 then ls[0] else ls[0] + "\n" + JoinLines(ls[1..])
  }

  /** The lines of each text, one text after the other. */
  function LinesEach(ts: seq<string>): seq<string> {
    if ts == [] then [] else Lines(ts[0]) + LinesEach(ts[1..])
  }

  /** Reading the lines of a joined text gives the lines of its parts. */
  lemma {:induction false} LinesJoin(ts: seq<string>)
    requires ts != []
    ensures Lines(JoinLines(ts)) == LinesEach(ts)
  {
    if |ts| > 1 {
      LinesSplit(ts[0], JoinLines(ts[1..]));
      LinesJoin(ts[1..]);
    }
  }

  lemma {:induction false} LinesEachAppend(a: seq<string>, b: seq<string>)
    ensures LinesEach(a + b) == LinesEach(a) + LinesEach(b)
  {
    if a != [] {
      assert (a + b)[1..] == a[1..] + b;
      LinesEachAppend(a[1..], b);
    } else {
      assert a + b == b;
    }
  }

  /** Texts without a newline are their own lines. */
  lemma {:induction false} LinesEachOfLines(ts: seq<string>)
    requires forall i :: 0 <= i < |ts| ==> '\n' !in ts[i]
    ensures LinesEach(ts) == ts
  {
    if ts != [] {
      LinesOfLine(ts[0]);
      LinesEachOfLines(ts[1..]);
    }
  }
  /** A text of one first line, single lines, and a tail. */
  lemma {:induction false} LinesEachFramed(first: string, mid: seq<string>, tail: seq<string>)
    requires forall i :: 0 <= i < |mid| ==> '\n' !in mid[i]
    ensures LinesEach([first] + mid + tail) == Lines(first) + mid + LinesEach(tail)
  {
    LinesEachOfLines(mid);
    LinesEachAppend([first] + mid, tail);
    LinesEachAppend([first], mid);
    assert LinesEach([first]) == Lines(first);
  }

  /** The lines of two texts, the second empty. */
  lemma {:induction false} LinesEachLast(last: string)
    ensures LinesEach([last, ""]) == Lines(last) + [""]
  {
    assert [last, ""][1..] == [""];
    assert LinesEach([""]) == [""];
  }
  /** Joining two non-empty lists of lines is joining each and putting a newline between. */
  lemma {:induction false} JoinLinesSplit(a: seq<string>, b: seq<string>)
    requires a != [] && b != []
    ensures JoinLines(a + b) == JoinLines(a) + "\n" + JoinLines(b)
  {
    if |a| > 1 {
      assert (a + b)[1..] == a[1..] + b;
      JoinLinesSplit(a[1..], b);
    } else {
      assert (a + b)[1..] == b;
    }
  }

  /** Joined single lines read back as themselves. */
  lemma {:induction false} LinesJoinSingle(ts: seq<string>)
    requires ts != [] && forall i :: 0 <= i < |ts| ==> '\n' !in ts[i]
    ensures Lines(JoinLines(ts)) == ts
  {
    LinesJoin(ts);
    LinesEachOfLines(ts);
  }

  /**
    The lines of a text made of two free-form lines, each followed by a block
    of single lines.
  */
  lemma {:induction false} LinesOfTwoBlocks(first: string, m1: seq<string>, second: string, m2: seq<string>)
    requires m1 != [] && forall i :: 0 <= i < |m1| ==> '\n' !in m1[i]
    requires m2 != [] && forall i :: 0 <= i < |m2| ==> '\n' !in m2[i]
    ensures Lines(JoinLines([first] + m1 + [second] + m2)) == Lines(first) + m1 + Lines(second) + m2
  {
    var a, b, c := [first] + m1, [second], m2;
    JoinLinesSplit(a + b, c);
    JoinLinesSplit(a, b);
    JoinLinesSplit([first], m1);
    var j1, j2 := JoinLines([first]), JoinLines(m1);
    var j3, j4 := JoinLines(b), JoinLines(c);
    assert j1 == first && j3 == second;
    LinesSplit(j1 + "\n" + j2 + "\n" + j3, j4);
    LinesSplit(j1 + "\n" + j2, j3);
    LinesSplit(j1, j2);
    LinesJoinSingle(m1);
    LinesJoinSingle(m2);
  }
}

/**
 Python string helpers the commit path relies on: `str.split("\n")`,
 `"\n".join(...)` and `str(int)`.
 */
module Text {

  /** Number of line feeds in `s`. */
  function CountNewlines(s: string): nat
  {
    if |s| == 0 then 0
    else (if s[0] == '\n' then 1 else 0) + CountNewlines(s[1..])
  }

  /** Python's `"\n".join(parts)`: an empty list joins to the empty string. */
  function Join(parts: seq<string>): string
  {
    if |parts| == 0 then ""
    else if |parts| == 1 then parts[0]
    else parts[0] + "\n" + Join(parts[1..])
  }

  /** Joining a first piece onto a non-empty rest puts one "\n" between them. */
  lemma JoinCons(x: string, rest: seq<string>)
    requires |rest| >= 1
    ensures Join([x] + rest) == x + "\n" + Join(rest)
  {
  }

  /** Python's `s.split("\n")`: never empty, and no piece contains a line feed. */
  function Split(s: string): (parts: seq<string>)
    ensures |parts| >= 1
    ensures forall i :: 0 <= i < |parts| ==> '\n' !in parts[i]
  {
    if |s| == 0 then [""]
    else
      var rest := Split(s[1..]);
      if s[0] == '\n' then [""] + rest
      else [[s[0]] + rest[0]] + rest[1..]
  }

  /** Splitting yields one piece more than there are line feeds. */
  lemma {:induction false} SplitLength(s: string)
    ensures |Split(s)| == CountNewlines(s) + 1
  {
    if |s| > 0 {
      SplitLength(s[1..]);
    }
  }

  /** Joining the pieces of a split with "\n" gives back the original text. */
  lemma {:induction false} JoinSplit(s: string)
    ensures Join(Split(s)) == s
  {
    if |s| > 0 {
      var rest := Split(s[1..]);
      JoinSplit(s[1..]);
      if s[0] == '\n' {
        assert Join(Split(s)) == "" + "\n" + Join(rest);
      } else if |rest| == 1 {
        assert Join(Split(s)) == [s[0]] + rest[0];
      } else {
        assert Join(rest) == rest[0] + "\n" + Join(rest[1..]);
        assert Join(Split(s)) == [s[0]] + rest[0] + "\n" + Join(rest[1..]);
      }
      assert s == [s[0]] + s[1..];
    }
  }

  /** A line without a line feed splits into itself. */
  lemma {:induction false} SplitLine(x: string)
    requires '\n' !in x
    ensures Split(x) == [x]
  {
    if |x| > 0 {
      assert '\n' !in x[1..] by {
        forall k | 0 <= k < |x[1..]| ensures x[1..][k] != '\n' {
          assert x[1..][k] == x[k + 1];
        }
      }
      SplitLine(x[1..]);
      assert x == [x[0]] + x[1..];
    }
  }

  /** A leading line followed by "\n" splits off as the first piece. */
  lemma {:induction false} SplitFirstLine(x: string, y: string)
    requires '\n' !in x
    ensures Split(x + "\n" + y) == [x] + Split(y)
  {
    if |x| == 0 {
      assert x + "\n" + y == "\n" + y;
      assert ("\n" + y)[1..] == y;
    } else {
      var s := x + "\n" + y;
      assert s[1..] == x[1..] + "\n" + y;
      assert '\n' !in x[1..] by {
        forall k | 0 <= k < |x[1..]| ensures x[1..][k] != '\n' {
          assert x[1..][k] == x[k + 1];
        }
      }
      SplitFirstLine(x[1..], y);
      assert s[0] == x[0];
      assert [x[0]] + x[1..] == x;
    }
  }

  /** `lines` each followed by "\n", then `rest`. */
  function JoinOnto(lines: seq<string>, rest: string): string
  {
    if |lines| == 0 then rest else lines[0] + "\n" + JoinOnto(lines[1..], rest)
  }

  /** Joining a list with one more piece at the end puts that piece after the others. */
  lemma {:induction false} JoinAppend(lines: seq<string>, rest: string)
    ensures Join(lines + [rest]) == JoinOnto(lines, rest)
  {
    if |lines| > 0 {
      assert (lines + [rest])[1..] == lines[1..] + [rest];
      JoinAppend(lines[1..], rest);
    }
  }

  /** Line-feed-free lines in front of a text split off one by one. */
  lemma {:induction false} SplitLeadingLines(lines: seq<string>, rest: string)
    requires forall i :: 0 <= i < |lines| ==> '\n' !in lines[i]
    ensures Split(JoinOnto(lines, rest)) == lines + Split(rest)
  {
    if |lines| > 0 {
      SplitLeadingLines(lines[1..], rest);
      SplitFirstLine(lines[0], JoinOnto(lines[1..], rest));
      assert lines == [lines[0]] + lines[1..];
    }
  }

  /** Splitting a join of line-feed-free pieces recovers the pieces. */
  lemma {:induction false} SplitJoin(parts: seq<string>)
    requires |parts| >= 1
    requires forall i :: 0 <= i < |parts| ==> '\n' !in parts[i]
    ensures Split(Join(parts)) == parts
  {
    if |parts| == 1 {
      SplitLine(parts[0]);
    } else {
      SplitJoin(parts[1..]);
      SplitFirstLine(parts[0], Join(parts[1..]));
      assert parts == [parts[0]] + parts[1..];
    }
  }

  predicate IsDigit(c: char)
  {
    48 <= c as int <= 57
  }

  function DigitChar(d: nat): (c: char)
    requires d < 10
    ensures IsDigit(c)
  {
    (48 + d) as char
  }

  /** Decimal digits of `n`, most significant first, without leading zeros. */
  function NatToString(n: nat): (s: string)
    ensures |s| >= 1
    ensures forall i :: 0 <= i < |s| ==> IsDigit(s[i])
    ensures n > 0 ==> s[0] != '0'
    ensures n == 0 ==> s == "0"
    decreases n
  {
    if n < 10 then [DigitChar(n)]
    else NatToString(n / 10) + [DigitChar(n % 10)]
  }

  /** Python's `str(i)` (and `f"{i}"`) for an `int`. */
  function IntToString(i: int): string
  {
    if i < 0 then "-" + NatToString(-i) else NatToString(i)
  }

  /** The value of a string of decimal digits. */
  function DigitsValue(s: string): nat
    requires forall i :: 0 <= i < |s| ==> IsDigit(s[i])
  {
    if |s| == 0 then 0
    else
      var last := s[|s| - 1];
      assert IsDigit(last);
      DigitsValue(s[..|s| - 1]) * 10 + (last as int - 48)
  }

  /** Reading back the decimal rendering of `n` gives `n`. */
  lemma {:induction false} NatToStringRoundTrip(n: nat)
    ensures DigitsValue(NatToString(n)) == n
    decreases n
  {
    if n >= 10 {
      var s := NatToString(n);
      NatToStringRoundTrip(n / 10);
      assert s[..|s| - 1] == NatToString(n / 10);
    }
  }

  /** `str(i)` never contains a line feed. */
  lemma IntToStringNoNewline(i: int)
    ensures '\n' !in IntToString(i)
  {
    var s := IntToString(i);
    if i < 0 {
      assert forall k :: 1 <= k < |s| ==> s[k] == NatToString(-i)[k - 1];
    }
    assert forall k :: 0 <= k < |s| ==> s[k] == '-' || IsDigit(s[k]);
  }

  /** Every decimal rendering of a natural number starts with a digit. */
  lemma NatToStringStartsWithDigit(n: nat)
    ensures IsDigit(NatToString(n)[0])
  {
  }

  /** `str(i)` tells distinct integers apart. */
  lemma IntToStringInjective(a: int, b: int)
    requires IntToString(a) == IntToString(b)
    ensures a == b
  {
    NatToStringStartsWithDigit(if a < 0 then -a else a);
    NatToStringStartsWithDigit(if b < 0 then -b else b);
    assert (a < 0) == (IntToString(a)[0] == '-');
    assert (b < 0) == (IntToString(b)[0] == '-');
    if a < 0 {
      assert IntToString(a)[1..] == NatToString(-a);
      assert IntToString(b)[1..] == NatToString(-b);
      NatToStringRoundTrip(-a);
      NatToStringRoundTrip(-b);
    } else {
      NatToStringRoundTrip(a);
      NatToStringRoundTrip(b);
    }
  }
}

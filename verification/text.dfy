/** String helpers with the meaning of the Python built-ins the reports use:
    `str.ljust`, slicing `s[:n]`, `str(n)` for a non-negative integer,
    `sep.join(parts)`, and the inverse operations used to state round trips
    (`ParseDecimal`, `Split`, `Lines`). */
module Text {

  const Space: char := ' '
  const Newline: char := '\n'

  /** A run of `n` blanks. */
  function Spaces(n: nat): (s: string)
    ensures |s| == n
    ensures forall i :: 0 <= i < n ==> s[i] == Space
  {
    seq(n, _ => Space)
  }

  /** `s.ljust(w)`, equivalently the format spec `{s:<w}`: blanks are added on
      the right up to width `w`; a string already at least `w` long is kept whole. */
  function LeftJustify(s: string, w: int): (r: string)
    ensures |r| == if |s| >= w then |s| else w
    ensures r[..|s|] == s
    ensures forall i :: |s| <= i < |r| ==> r[i] == Space
  {
    if |s| >= w then s else s + Spaces(w - |s|)
  }

  /** `s[:n]` for a non-negative `n`. */
  function Prefix(s: string, n: nat): (r: string)
    ensures |r| == if n <= |s| then n else |s|
    ensures r <= s
  {
    if n <= |s| then s[..n] else s
  }

  // ---------------------------------------------------------------------
  // Decimal rendering

  predicate IsDigit(c: char) {
    '0' <= c <= '9'
  }

  predicate AllDigits(s: string) {
    forall i :: 0 <= i < |s| ==> IsDigit(s[i])
  }

  function DigitChar(d: nat): (c: char)
    requires d < 10
    ensures IsDigit(c)
  {
    (('0' as int) + d) as char
  }

  function DigitValue(c: char): (d: nat)
    requires IsDigit(c)
    ensures d < 10
  {
    (c as int) - ('0' as int)
  }

  /** `str(n)` for `n >= 0`: at least one digit, no sign, and no leading zero
      unless the number is zero itself. */
  function Decimal(n: nat): (s: string)
    ensures |s| >= 1
    ensures AllDigits(s)
    ensures s[0] == '0' ==> n == 0
    decreases n
  {
    if n < 10 then [DigitChar(n)] else Decimal(n / 10) + [DigitChar(n % 10)]
  }

  /** The value of a string of decimal digits, read most significant first. */
  function ParseDecimal(s: string): nat
    requires AllDigits(s)
  {
    if |s| == 0 then 0 else 10 * ParseDecimal(s[..|s| - 1]) + DigitValue(s[|s| - 1])
  }

  /** Reading back what `Decimal` wrote gives the number again, so the
      rendering loses nothing. */
  lemma {:induction false} DecimalRoundTrip(n: nat)
    ensures ParseDecimal(Decimal(n)) == n
    decreases n
  {
    var s := Decimal(n);
    if n < 10 {
      assert s[..|s| - 1] == [];
    } else {
      assert s[..|s| - 1] == Decimal(n / 10);
      DecimalRoundTrip(n / 10);
    }
  }

  /** A number written between a fixed prefix and suffix adds no character
      other than digits: a non-digit absent from both is absent from the line. */
  lemma DecimalBetweenAvoids(prefix: string, n: nat, suffix: string, c: char)
    requires !IsDigit(c) && c !in prefix && c !in suffix
    ensures c !in prefix + Decimal(n) + suffix
  {
    var d := Decimal(n);
    var line := prefix + d + suffix;
    forall i | 0 <= i < |line|
      ensures line[i] != c
    {
      if |prefix| <= i < |prefix| + |d| {
        assert line[i] == d[i - |prefix|];
      }
    }
  }

  /** Distinct numbers are rendered as distinct strings. */
  lemma DecimalInjective(m: nat, n: nat)
    requires Decimal(m) == Decimal(n)
    ensures m == n
  {
    DecimalRoundTrip(m);
    DecimalRoundTrip(n);
  }

  // ---------------------------------------------------------------------
  // Joining and splitting on a one-character separator

  /** `sep.join(parts)`: the parts in order with one separator between
      neighbours and none at either end. */
  function Join(parts: seq<string>, sep: char): string
    decreases |parts|
  {
    if |parts| == 0 then []
    else if |parts| == 1 then parts[0]
    else parts[0] + [sep] + Join(parts[1..], sep)
  }

  /** The joined string ends with the last part. */
  lemma {:induction false} JoinEndsWithLast(parts: seq<string>, sep: char)
    requires |parts| >= 1
    ensures var j := Join(parts, sep); var last := parts[|parts| - 1];
      |j| >= |last| && j[|j| - |last|..] == last
    decreases |parts|
  {
    if |parts| > 1 {
      JoinEndsWithLast(parts[1..], sep);
      assert parts[1..][|parts[1..]| - 1] == parts[|parts| - 1];
    }
  }

  /** A character that is neither the separator nor in any part does not
      occur in the joined string. */
  lemma {:induction false} JoinAvoids(parts: seq<string>, sep: char, c: char)
    requires c != sep
    requires forall i :: 0 <= i < |parts| ==> c !in parts[i]
    ensures c !in Join(parts, sep)
    decreases |parts|
  {
    if |parts| > 1 {
      JoinAvoids(parts[1..], sep, c);
    }
  }

  /** Index of the first occurrence of `c` in `s`, or `|s|` when there is none. */
  function FirstIndex(s: string, c: char): (k: nat)
    ensures k <= |s|
    ensures k < |s| ==> s[k] == c
    ensures forall i :: 0 <= i < k ==> s[i] != c
  {
    if |s| == 0 then 0
    else if s[0] == c then 0
    else 1 + FirstIndex(s[1..], c)
  }

  /** `s.split(sep)`: the pieces between consecutive separators, in order,
      including an empty piece between two adjacent separators and at either
      end; always at least one piece. */
  function Split(s: string, sep: char): (parts: seq<string>)
    ensures |parts| >= 1
    decreases |s|
  {
    var k := FirstIndex(s, sep);
    if k == |s| then [s] else [s[..k]] + Split(s[k + 1..], sep)
  }

  /** The first separator in `head + [sep] + rest` is the one after `head`
      when `head` holds none. */
  lemma FirstIndexAfter(head: string, sep: char, rest: string)
    requires sep !in head
    ensures FirstIndex(head + [sep] + rest, sep) == |head|
  {
    var s := head + [sep] + rest;
    var k := FirstIndex(s, sep);
    assert s[|head|] == sep;
    assert forall i :: 0 <= i < |head| ==> s[i] == head[i];
  }

  /** Splitting undoes joining, provided no part contains the separator. */
  lemma {:induction false} SplitJoin(parts: seq<string>, sep: char)
    requires |parts| >= 1
    requires forall i :: 0 <= i < |parts| ==> sep !in parts[i]
    ensures Split(Join(parts, sep), sep) == parts
    decreases |parts|
  {
    var head := parts[0];
    if |parts| == 1 {
      assert FirstIndex(head, sep) == |head|;
    } else {
      var tail := parts[1..];
      var rest := Join(tail, sep);
      var s := head + [sep] + rest;
      assert Join(parts, sep) == s;
      FirstIndexAfter(head, sep, rest);
      assert s[..|head|] == head;
      assert s[|head| + 1..] == rest;
      assert forall i :: 0 <= i < |tail| ==> tail[i] == parts[i + 1];
      SplitJoin(tail, sep);
      assert parts == [head] + tail;
    }
  }

  // ---------------------------------------------------------------------
  // Writing lines to a file

  /** What a sequence of `write(line)` / `write("\n")` pairs leaves in a
      file: every line followed by a newline. */
  function Unlines(lines: seq<string>): string
    decreases |lines|
  {
    if |lines| == 0 then [] else lines[0] + [Newline] + Unlines(lines[1..])
  }

  /** Cuts a file's text back into its lines (the inverse of `Unlines`). */
  function Lines(text: string): seq<string>
  {
    if |text| == 0 then []
    else if text[|text| - 1] == Newline then Split(text[..|text| - 1], Newline)
    else Split(text, Newline)
  }

  lemma {:induction false} UnlinesIsJoin(lines: seq<string>)
    requires |lines| >= 1
    ensures Unlines(lines) == Join(lines, Newline) + [Newline]
    decreases |lines|
  {
    if |lines| > 1 {
      UnlinesIsJoin(lines[1..]);
    }
  }

  /** A file written line by line can be read back line by line, as long as
      no line itself holds a line break. */
  lemma LinesUnlines(lines: seq<string>)
    requires forall i :: 0 <= i < |lines| ==> Newline !in lines[i]
    ensures Lines(Unlines(lines)) == lines
  {
    if |lines| >= 1 {
      UnlinesIsJoin(lines);
      var text := Unlines(lines);
      assert text[..|text| - 1] == Join(lines, Newline);
      SplitJoin(lines, Newline);
    }
  }
}

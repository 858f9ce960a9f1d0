/**
 * String primitives the lock helper relies on, stated over `string` (a
 * sequence of characters): `std::getline` splitting, `std::string::find`,
 * first-occurrence replacement, joining with a separator, the decimal
 * conversions `std::to_string` and `std::stoi`, and the single trailing
 * newline that the command runner strips from a child's output.
 */
module Text {
  import opened Wrappers

  /** The largest value of a C++ `int` on the platforms the program targets. */
  const INT_MAX: int := 2147483647

  predicate IsDigit(c: char) { '0' <= c <= '9' }

  predicate AllDigits(s: string) { forall k :: 0 <= k < |s| ==> IsDigit(s[k]) }

  predicate HasPrefix(s: string, p: string) { |p| <= |s| && s[..|p|] == p }

  predicate HasSuffix(s: string, p: string) { |p| <= |s| && s[|s| - |p|..] == p }

  lemma SuffixOf(a: string, b: string)
    ensures HasSuffix(a + b, b)
  {
    assert (a + b)[|a + b| - |b|..] == b;
  }

  /** `t` occurs in `s` starting at index `i`. */
  predicate OccursAt(s: string, t: string, i: nat) { i + |t| <= |s| && s[i..i + |t|] == t }

  /** Text written in three pieces does not depend on how the pieces are grouped. */
  lemma ConcatAssoc(a: string, b: string, c: string)
    ensures (a + b) + c == a + (b + c)
  {
  }

  // ---------------------------------------------------------------------
  // Searching

  /** Index of the first `c` in `s`, or `|s|` when `s` has none. */
  function IndexOf(s: string, c: char): (i: nat)
    ensures i <= |s|
    ensures i < |s| ==> s[i] == c
    ensures forall k :: 0 <= k < i ==> s[k] != c
  {
    if s == [] then 0 else if s[0] == c then 0 else 1 + IndexOf(s[1..], c)
  }

  /** Searching a concatenation whose first part lacks `c` finds `c` in the second part. */
  lemma {:induction false} IndexOfConcat(a: string, b: string, c: char)
    requires c !in a
    ensures IndexOf(a + b, c) == |a| + IndexOf(b, c)
  {
    if a != [] {
      assert (a + b)[1..] == a[1..] + b;
      IndexOfConcat(a[1..], b, c);
    } else {
      assert a + b == b;
    }
  }

  /** `std::string::find(t, from)`: the first index at or after `from` where `t` occurs. */
  function FindFrom(s: string, t: string, from: nat): (r: Option<nat>)
    decreases |s| - from
    ensures r.Some? ==> from <= r.value && OccursAt(s, t, r.value)
    ensures r.Some? ==> forall k :: from <= k < r.value ==> !OccursAt(s, t, k)
    ensures r.None? ==> forall k :: from <= k ==> !OccursAt(s, t, k)
  {
    if from + |t| > |s| then None
    else if s[from..from + |t|] == t then Some(from)
    else FindFrom(s, t, from + 1)
  }

  function Find(s: string, t: string): Option<nat> { FindFrom(s, t, 0) }

  /** `s.find(t) != npos`. */
  predicate Contains(s: string, t: string) { Find(s, t).Some? }

  lemma ContainsWitness(s: string, t: string, i: nat)
    requires OccursAt(s, t, i)
    ensures Contains(s, t)
  {
  }

  /** Whatever surrounds it, a string contains each of its middle parts. */
  lemma ContainsMiddle(a: string, t: string, b: string)
    ensures Contains(a + t + b, t)
  {
    var s := a + t + b;
    assert s[|a|..|a| + |t|] == t;
    ContainsWitness(s, t, |a|);
  }

  /** A first occurrence located by hand is the one `find` returns. */
  lemma {:induction false} FindFromFirst(s: string, t: string, from: nat, i: nat)
    requires from <= i && OccursAt(s, t, i)
    requires forall k :: from <= k < i ==> !OccursAt(s, t, k)
    ensures FindFrom(s, t, from) == Some(i)
    decreases i - from
  {
    if from < i {
      assert !OccursAt(s, t, from);
      FindFromFirst(s, t, from + 1, i);
    }
  }

  /** An occurrence of `a + b` is an occurrence of `a` followed by one of `b`. */
  lemma OccursSplit(s: string, a: string, b: string, i: nat)
    ensures OccursAt(s, a + b, i) <==> OccursAt(s, a, i) && OccursAt(s, b, i + |a|)
  {
    var j, k := i + |a|, i + |a| + |b|;
    if k <= |s| {
      assert s[i..k] == s[i..j] + s[j..k];
      if s[i..j] == a && s[j..k] == b {
        assert s[i..k] == a + b;
      }
      if s[i..k] == a + b {
        assert s[i..j] == (a + b)[..|a|] == a;
        assert s[j..k] == (a + b)[|a|..] == b;
      }
    }
  }

  /** Text that contains `a + b` contains `a`. */
  lemma ContainsPrefix(s: string, a: string, b: string)
    requires Contains(s, a + b)
    ensures Contains(s, a)
  {
    var i := Find(s, a + b).value;
    OccursSplit(s, a, b, i);
    ContainsWitness(s, a, i);
  }

  lemma OccursChar(s: string, c: char, i: nat)
    ensures OccursAt(s, [c], i) <==> i < |s| && s[i] == c
  {
    if i < |s| {
      assert s[i..i + 1] == [s[i]];
    }
  }

  // ---------------------------------------------------------------------
  // Replacing

  /** `pos = s.find(pat); if (pos != npos) s.replace(pos, |pat|, rep);` */
  function ReplaceFirst(s: string, pat: string, rep: string): string
  {
    match Find(s, pat)
    case None => s
    case Some(i) => s[..i] + rep + s[i + |pat|..]
  }

  /**
   * When the pattern's first character does not occur before it, the
   * replacement happens exactly where the pattern was written.
   */
  lemma ReplaceFirstAt(a: string, pat: string, b: string, rep: string)
    requires |pat| > 0
    requires forall k :: 0 <= k < |a| ==> a[k] != pat[0]
    ensures ReplaceFirst(a + pat + b, pat, rep) == a + rep + b
  {
    var s := a + pat + b;
    assert s[|a|..|a| + |pat|] == pat;
    forall k | 0 <= k < |a|
      ensures !OccursAt(s, pat, k)
    {
      assert s[k] == a[k];
    }
    FindFromFirst(s, pat, 0, |a|);
    assert s[..|a|] == a;
    assert s[|a| + |pat|..] == b;
  }

  // ---------------------------------------------------------------------
  // Lines and separators

  /**
   * The lines `std::getline` extracts from a string stream over `s`: the
   * pieces between newlines, without the empty piece after a final newline.
   */
  function Lines(s: string): (ls: seq<string>)
    decreases |s|
    ensures forall k :: 0 <= k < |ls| ==> '\n' !in ls[k]
  {
    if s == [] then []
    else
      var i := IndexOf(s, '\n');
      if i == |s| then [s] else [s[..i]] + Lines(s[i + 1..])
  }

  /** The first line, then the lines of what follows its newline. */
  lemma LinesCons(s: string)
    requires s != []
    ensures var i := IndexOf(s, '\n');
      Lines(s) == [s[..i]] + Lines(if i < |s| then s[i + 1..] else [])
  {
    if IndexOf(s, '\n') == |s| {
      assert s[..|s|] == s;
    }
  }

  /** The pieces of `parts` with one `sep` between neighbours. */
  function JoinWith(parts: seq<string>, sep: char): string
  {
    if parts == [] then ""
    else if |parts| == 1 then parts[0]
    else parts[0] + [sep] + JoinWith(parts[1..], sep)
  }

  /** Appending one more piece adds a separator and the piece. */
  lemma {:induction false} JoinWithSnoc(parts: seq<string>, x: string, sep: char)
    ensures JoinWith(parts + [x], sep) == if parts == [] then x else JoinWith(parts, sep) + [sep] + x
  {
    if |parts| == 1 {
      assert parts + [x] == [parts[0], x];
    } else if parts != [] {
      assert (parts + [x])[1..] == parts[1..] + [x];
      JoinWithSnoc(parts[1..], x, sep);
    }
  }

  /** Splits at every `sep`; the inverse of `JoinWith` on pieces without `sep`. */
  function Split(s: string, sep: char): (parts: seq<string>)
    decreases |s|
    ensures |parts| >= 1
    ensures forall k :: 0 <= k < |parts| ==> sep !in parts[k]
  {
    var i := IndexOf(s, sep);
    if i == |s| then [s] else [s[..i]] + Split(s[i + 1..], sep)
  }

  /** The single trailing newline `exec_command_fast` removes from a child's output. */
  function StripTrailingNewline(s: string): (r: string)
    ensures r == s || r + "\n" == s
    ensures r != s <==> |s| > 0 && s[|s| - 1] == '\n'
  {
    if |s| > 0 && s[|s| - 1] == '\n' then s[..|s| - 1] else s
  }

  /** A piece in front of a non-empty list is joined to it by one separator. */
  lemma JoinWithCons(x: string, parts: seq<string>, sep: char)
    requires parts != []
    ensures JoinWith([x] + parts, sep) == x + [sep] + JoinWith(parts, sep)
  {
    assert ([x] + parts)[1..] == parts;
  }

  /** Only the end of the text decides whether a trailing newline is removed. */
  lemma StripAfterNewline(a: string, rest: string)
    requires rest != []
    ensures StripTrailingNewline(a + "\n" + rest) == a + "\n" + StripTrailingNewline(rest)
  {
    var s := a + "\n" + rest;
    assert s[|s| - 1] == rest[|rest| - 1];
    if rest[|rest| - 1] == '\n' {
      assert s[..|s| - 1] == a + "\n" + rest[..|rest| - 1];
    }
  }

  /** Gluing the lines back together gives the text without its trailing newline. */
  lemma {:induction false} LinesJoin(s: string)
    ensures JoinWith(Lines(s), '\n') == StripTrailingNewline(s)
    decreases |s|
  {
    if s != [] {
      var i := IndexOf(s, '\n');
      if i < |s| {
        var line, rest := s[..i], s[i + 1..];
        assert s == line + "\n" + rest;
        LinesCons(s);
        if rest == [] {
          assert Lines(s) == [line];
        } else {
          LinesJoin(rest);
          StripAfterNewline(line, rest);
          JoinWithCons(line, Lines(rest), '\n');
        }
      }
    }
  }

  /** Splitting a joined list gives the list back when no piece holds the separator. */
  lemma {:induction false} SplitJoin(parts: seq<string>, sep: char)
    requires |parts| >= 1
    requires forall k :: 0 <= k < |parts| ==> sep !in parts[k]
    ensures Split(JoinWith(parts, sep), sep) == parts
  {
    var s := JoinWith(parts, sep);
    if |parts| == 1 {
      assert IndexOf(s, sep) == |s|;
    } else {
      var rest := JoinWith(parts[1..], sep);
      assert s == parts[0] + [sep] + rest;
      assert s[|parts[0]|] == sep;
      assert forall k :: 0 <= k < |parts[0]| ==> s[k] == parts[0][k];
      assert IndexOf(s, sep) == |parts[0]|;
      assert s[..|parts[0]|] == parts[0];
      assert s[|parts[0]| + 1..] == rest;
      SplitJoin(parts[1..], sep);
    }
  }

  // ---------------------------------------------------------------------
  // Decimal numbers

  function DigitChar(d: nat): (c: char)
    requires d < 10
    ensures IsDigit(c)
  {
    ('0' as int + d) as char
  }

  function DigitValue(c: char): (d: nat)
    requires IsDigit(c)
    ensures d < 10
  {
    c as int - '0' as int
  }

  /** The value of a run of decimal digits, as `std::stoi` reads it (leading zeros allowed). */
  function DigitsValue(s: string): nat
    requires AllDigits(s)
  {
    if s == [] then 0 else DigitsValue(s[..|s| - 1]) * 10 + DigitValue(s[|s| - 1])
  }

  /** `std::to_string` of a non-negative number: its shortest decimal digits. */
  function NatToString(n: nat): (s: string)
    ensures |s| >= 1 && AllDigits(s)
    ensures |s| > 1 ==> s[0] != '0'
  {
    if n < 10 then [DigitChar(n)] else NatToString(n / 10) + [DigitChar(n % 10)]
  }

  /** `std::to_string(int)`: a minus sign before the digits of a negative number. */
  function IntToString(n: int): (s: string)
    ensures |s| >= 1
  {
    if n < 0 then "-" + NatToString(-n) else NatToString(n)
  }

  lemma {:induction false} NatToStringValue(n: nat)
    ensures DigitsValue(NatToString(n)) == n
  {
    if n >= 10 {
      NatToStringValue(n / 10);
      var s := NatToString(n);
      assert s[..|s| - 1] == NatToString(n / 10);
    }
  }

  /** Length of the run of digits at the start of `s`. */
  function DigitRun(s: string): (n: nat)
    ensures n <= |s| && AllDigits(s[..n])
    ensures n < |s| ==> !IsDigit(s[n])
  {
    if s == [] || !IsDigit(s[0]) then 0 else 1 + DigitRun(s[1..])
  }

  lemma {:induction false} DigitRunOf(d: string, rest: string)
    requires AllDigits(d)
    requires rest == [] || !IsDigit(rest[0])
    ensures DigitRun(d + rest) == |d|
  {
    if d != [] {
      assert (d + rest)[1..] == d[1..] + rest;
      DigitRunOf(d[1..], rest);
    }
  }

  /**
   * Reads an optionally negative decimal number at the start of `s` and
   * returns it with what follows; the reader of the numbers `IntToString`
   * writes.
   */
  function ReadInt(s: string): (r: Option<(int, string)>)
    ensures r.Some? ==> |r.value.1| < |s|
  {
    var neg := |s| > 0 && s[0] == '-';
    var t := if neg then s[1..] else s;
    var n := DigitRun(t);
    if n == 0 then None
    else
      var v: int := DigitsValue(t[..n]);
      Some((if neg then -v else v, t[n..]))
  }

  /** The digits at the start of `t`, up to the first non-digit. */
  lemma DigitsPrefix(d: string, rest: string)
    requires AllDigits(d)
    requires rest == [] || !IsDigit(rest[0])
    ensures var t := d + rest; DigitRun(t) == |d| && t[..|d|] == d && t[|d|..] == rest
  {
    DigitRunOf(d, rest);
    assert (d + rest)[..|d|] == d;
    assert (d + rest)[|d|..] == rest;
  }

  lemma ReadNatToString(m: nat, rest: string)
    requires rest == [] || !IsDigit(rest[0])
    ensures ReadInt(NatToString(m) + rest) == Some((m, rest))
  {
    var d := NatToString(m);
    NatToStringValue(m);
    DigitsPrefix(d, rest);
    assert (d + rest)[0] == d[0];
  }

  lemma ReadNegatedNatToString(m: nat, rest: string)
    requires rest == [] || !IsDigit(rest[0])
    ensures ReadInt("-" + NatToString(m) + rest) == Some((-(m as int), rest))
  {
    var d := NatToString(m);
    NatToStringValue(m);
    DigitsPrefix(d, rest);
    assert "-" + d + rest == "-" + (d + rest);
    assert ("-" + (d + rest))[1..] == d + rest;
  }

  /** Writing a number and reading it back gives the number and the rest untouched. */
  lemma ReadIntToString(n: int, rest: string)
    requires rest == [] || !IsDigit(rest[0])
    ensures ReadInt(IntToString(n) + rest) == Some((n, rest))
  {
    if n < 0 {
      ReadNegatedNatToString(-n, rest);
    } else {
      ReadNatToString(n, rest);
    }
  }
}

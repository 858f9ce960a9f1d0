/**
 * Per-monitor overlay generation: finding `<w>x<h>+<x>+<y>` in each line of
 * the display-topology listing, placing the lock icon and the prompt text on
 * that monitor, and writing one ImageMagick argument fragment per monitor.
 */
module Geometry {
  import opened Wrappers
  import opened Text

  // ---------------------------------------------------------------------
  // Finding the geometry in a line

  /** The four groups of `(\d+)x(\d+)\+(\d+)\+(\d+)`, as the digits matched. */
  datatype GeometryMatch = GeometryMatch(w: string, h: string, x: string, y: string)

  predicate WellFormed(m: GeometryMatch)
  {
    && |m.w| > 0 && AllDigits(m.w) && |m.h| > 0 && AllDigits(m.h)
    && |m.x| > 0 && AllDigits(m.x) && |m.y| > 0 && AllDigits(m.y)
  }

  /** Group `g` is written at `i` and directly followed by the character `sep`. */
  predicate GroupThen(line: string, i: nat, g: string, sep: char)
  {
    i + |g| < |line| && line[i..i + |g|] == g && line[i + |g|] == sep
  }

  /** Group `g` is written at `i` and no digit follows it. */
  predicate LastGroup(line: string, i: nat, g: string)
  {
    i + |g| <= |line| && line[i..i + |g|] == g && (i + |g| == |line| || !IsDigit(line[i + |g|]))
  }

  /**
   * What the regular expression accepts at index `i` with groups `m`: each
   * group a non-empty digit run, written one after the other with `x`, `+`
   * and `+` between them, and the greedy last group taking every digit that
   * follows it.
   */
  predicate PatternAt(line: string, i: nat, m: GeometryMatch)
  {
    var a := i + |m.w| + 1;
    var b := a + |m.h| + 1;
    var c := b + |m.x| + 1;
    && WellFormed(m)
    && GroupThen(line, i, m.w, 'x')
    && GroupThen(line, a, m.h, '+')
    && GroupThen(line, b, m.x, '+')
    && LastGroup(line, c, m.y)
  }

  /** End of the maximal digit run that starts at `i`. */
  function RunEnd(s: string, i: nat): (j: nat)
    requires i <= |s|
    decreases |s| - i
    ensures i <= j <= |s|
    ensures AllDigits(s[i..j])
    ensures j < |s| ==> !IsDigit(s[j])
  {
    if i < |s| && IsDigit(s[i]) then
      var j := RunEnd(s, i + 1);
      assert s[i..j] == [s[i]] + s[i + 1..j];
      j
    else i
  }

  lemma {:induction false} RunEndAt(s: string, i: nat, j: nat)
    requires i <= j <= |s|
    requires forall k :: i <= k < j ==> IsDigit(s[k])
    requires j < |s| ==> !IsDigit(s[j])
    ensures RunEnd(s, i) == j
    decreases j - i
  {
    if i < j {
      assert IsDigit(s[i]);
      RunEndAt(s, i + 1, j);
    }
  }

  /** Every character of a digit slice is a digit of the line. */
  lemma SliceDigits(s: string, i: nat, j: nat)
    requires i <= j <= |s| && AllDigits(s[i..j])
    ensures forall k :: i <= k < j ==> IsDigit(s[k])
  {
    forall k | i <= k < j
      ensures IsDigit(s[k])
    {
      assert s[k] == s[i..j][k - i];
    }
  }

  /** A group of digits followed by a non-digit is a maximal run. */
  lemma GroupRun(line: string, i: nat, g: string)
    requires i + |g| <= |line| && line[i..i + |g|] == g && AllDigits(g)
    requires i + |g| < |line| ==> !IsDigit(line[i + |g|])
    ensures RunEnd(line, i) == i + |g|
  {
    SliceDigits(line, i, i + |g|);
    RunEndAt(line, i, i + |g|);
  }

  /**
   * A non-empty digit run at `i` followed by `sep`: the digits and the
   * index just after the separator.
   */
  function GroupAt(line: string, i: nat, sep: char): (r: Option<(string, nat)>)
    requires i <= |line|
    ensures r.Some? ==> |r.value.0| > 0 && AllDigits(r.value.0) && GroupThen(line, i, r.value.0, sep)
    ensures r.Some? ==> r.value.1 == i + |r.value.0| + 1 <= |line|
  {
    var e := RunEnd(line, i);
    if e == i || e == |line| || line[e] != sep then None else Some((line[i..e], e + 1))
  }

  lemma GroupAtOf(line: string, i: nat, g: string, sep: char)
    requires |g| > 0 && AllDigits(g) && !IsDigit(sep) && GroupThen(line, i, g, sep)
    ensures GroupAt(line, i, sep) == Some((g, i + |g| + 1))
  {
    GroupRun(line, i, g);
  }

  /** The non-empty digit run at `i` that ends the match, taking every digit. */
  function LastGroupAt(line: string, i: nat): (r: Option<string>)
    requires i <= |line|
    ensures r.Some? ==> |r.value| > 0 && AllDigits(r.value) && LastGroup(line, i, r.value)
  {
    var e := RunEnd(line, i);
    if e == i then None else Some(line[i..e])
  }

  lemma LastGroupAtOf(line: string, i: nat, g: string)
    requires |g| > 0 && AllDigits(g) && LastGroup(line, i, g)
    ensures LastGroupAt(line, i) == Some(g)
  {
    GroupRun(line, i, g);
  }

  /** The match anchored at index `i`, taking every digit run in full. */
  function MatchAt(line: string, i: nat): (r: Option<GeometryMatch>)
    requires i <= |line|
    ensures r.Some? ==> WellFormed(r.value)
  {
    match GroupAt(line, i, 'x')
    case None => None
    case Some((w, a)) =>
      match GroupAt(line, a, '+')
      case None => None
      case Some((h, b)) =>
        match GroupAt(line, b, '+')
        case None => None
        case Some((x, c)) =>
          match LastGroupAt(line, c)
          case None => None
          case Some(y) => Some(GeometryMatch(w, h, x, y))
  }

  /** The anchored match from the four groups it reads one after the other. */
  lemma MatchAtOfGroups(line: string, i: nat, m: GeometryMatch, a: nat, b: nat, c: nat)
    requires i <= |line|
    requires GroupAt(line, i, 'x') == Some((m.w, a))
    requires a <= |line| && GroupAt(line, a, '+') == Some((m.h, b))
    requires b <= |line| && GroupAt(line, b, '+') == Some((m.x, c))
    requires c <= |line| && LastGroupAt(line, c) == Some(m.y)
    ensures MatchAt(line, i) == Some(m)
  {
  }

  /** What the pattern accepts at `i`, the anchored match reports. */
  lemma MatchAtComplete(line: string, i: nat, m: GeometryMatch)
    requires i <= |line| && PatternAt(line, i, m)
    ensures MatchAt(line, i) == Some(m)
  {
    var a := i + |m.w| + 1;
    var b := a + |m.h| + 1;
    var c := b + |m.x| + 1;
    GroupAtOf(line, i, m.w, 'x');
    GroupAtOf(line, a, m.h, '+');
    GroupAtOf(line, b, m.x, '+');
    LastGroupAtOf(line, c, m.y);
    MatchAtOfGroups(line, i, m, a, b, c);
  }

  /** What the anchored match reports, the pattern accepts. */
  lemma MatchAtSound(line: string, i: nat)
    requires i <= |line| && MatchAt(line, i).Some?
    ensures PatternAt(line, i, MatchAt(line, i).value)
  {
    var m := MatchAt(line, i).value;
    var (w, a) := GroupAt(line, i, 'x').value;
    var (h, b) := GroupAt(line, a, '+').value;
    var (x, c) := GroupAt(line, b, '+').value;
    var y := LastGroupAt(line, c).value;
    assert m == GeometryMatch(w, h, x, y);
  }

  /** Anchored matching takes maximal digit runs exactly when the pattern does. */
  lemma MatchAtIsPattern(line: string, i: nat, m: GeometryMatch)
    requires i <= |line|
    ensures MatchAt(line, i) == Some(m) <==> PatternAt(line, i, m)
  {
    if PatternAt(line, i, m) {
      MatchAtComplete(line, i, m);
    }
    if MatchAt(line, i) == Some(m) {
      MatchAtSound(line, i);
    }
  }

  /** Index of the leftmost anchored match at or after `i`. */
  function FirstMatchFrom(line: string, i: nat): (r: Option<nat>)
    requires i <= |line|
    decreases |line| - i
    ensures r.Some? ==> i <= r.value <= |line| && MatchAt(line, r.value).Some?
    ensures r.Some? ==> forall k :: i <= k < r.value ==> MatchAt(line, k).None?
    ensures r.None? ==> forall k :: i <= k <= |line| ==> MatchAt(line, k).None?
  {
    if MatchAt(line, i).Some? then Some(i)
    else if i == |line| then None
    else FirstMatchFrom(line, i + 1)
  }

  /** `std::regex_search(line, matches, resolution_regex_)`: the groups of the leftmost match. */
  function Search(line: string): (r: Option<GeometryMatch>)
    ensures r.Some? ==> WellFormed(r.value)
  {
    match FirstMatchFrom(line, 0)
    case None => None
    case Some(i) => MatchAt(line, i)
  }

  /**
   * The search finds a match exactly when the pattern occurs somewhere, and
   * then it reports the groups of the leftmost occurrence.
   */
  lemma SearchIsLeftmostPattern(line: string)
    ensures Search(line).None? <==> forall i: nat, m :: i <= |line| ==> !PatternAt(line, i, m)
    ensures Search(line).Some? ==>
      exists i: nat :: i <= |line| && PatternAt(line, i, Search(line).value)
        && forall j: nat, m :: j < i ==> !PatternAt(line, j, m)
  {
    match FirstMatchFrom(line, 0)
    case None =>
      forall i: nat, m | i <= |line|
        ensures !PatternAt(line, i, m)
      {
        MatchAtIsPattern(line, i, m);
      }
    case Some(i) =>
      MatchAtIsPattern(line, i, MatchAt(line, i).value);
      forall j: nat, m | j < i
        ensures !PatternAt(line, j, m)
      {
        MatchAtIsPattern(line, j, m);
      }
  }

  lemma {:induction false} FirstMatchFromAt(line: string, i: nat, p: nat)
    requires i <= p <= |line| && MatchAt(line, p).Some?
    requires forall k :: i <= k < p ==> MatchAt(line, k).None?
    ensures FirstMatchFrom(line, i) == Some(p)
    decreases p - i
  {
    if i < p {
      assert MatchAt(line, i).None?;
      FirstMatchFromAt(line, i + 1, p);
    }
  }

  /** An occurrence of the pattern with none further left is what the search reports. */
  lemma SearchLeftmost(line: string, p: nat, m: GeometryMatch)
    requires p <= |line| && PatternAt(line, p, m)
    requires forall j: nat, m': GeometryMatch :: j < p ==> !PatternAt(line, j, m')
    ensures Search(line) == Some(m)
  {
    MatchAtComplete(line, p, m);
    forall k | 0 <= k < p
      ensures MatchAt(line, k).None?
    {
      if MatchAt(line, k).Some? {
        MatchAtSound(line, k);
      }
    }
    FirstMatchFromAt(line, 0, p);
  }

  // ---------------------------------------------------------------------
  // Monitors

  /** One monitor's rectangle as the topology listing reports it. */
  datatype Rect = Rect(width: nat, height: nat, x: nat, y: nat)

  /** The four numbers of a match, or `None` where `std::stoi` throws `out_of_range`. */
  function ToRect(m: GeometryMatch): (r: Option<Rect>)
    requires WellFormed(m)
    ensures r.Some? <==> DigitsValue(m.w) <= INT_MAX && DigitsValue(m.h) <= INT_MAX
                         && DigitsValue(m.x) <= INT_MAX && DigitsValue(m.y) <= INT_MAX
    ensures r.Some? ==> r.value == Rect(DigitsValue(m.w), DigitsValue(m.h), DigitsValue(m.x), DigitsValue(m.y))
  {
    var w, h, x, y := DigitsValue(m.w), DigitsValue(m.h), DigitsValue(m.x), DigitsValue(m.y);
    if w > INT_MAX || h > INT_MAX || x > INT_MAX || y > INT_MAX then None
    else Some(Rect(w, h, x, y))
  }

  /** The text `xrandr` writes for a rectangle. */
  function RectText(r: Rect): string
  {
    NatToString(r.width) + ("x" + (NatToString(r.height) + ("+" + (NatToString(r.x) + ("+" + NatToString(r.y))))))
  }

  predicate FitsInt(r: Rect)
  {
    r.width <= INT_MAX && r.height <= INT_MAX && r.x <= INT_MAX && r.y <= INT_MAX
  }

  /** What one line of the listing contributes. */
  datatype LineResult = NoGeometry | OutOfRange | Monitor(rect: Rect)

  /** The rectangle a line spells out, if any; `OutOfRange` where `std::stoi` throws. */
  function MonitorOf(line: string): (r: LineResult)
    ensures r.NoGeometry? <==> Search(line).None?
    ensures r.OutOfRange? ==> Search(line).Some? && ToRect(Search(line).value).None?
    ensures r.Monitor? ==> Search(line).Some? && var m := Search(line).value;
      r.rect == Rect(DigitsValue(m.w), DigitsValue(m.h), DigitsValue(m.x), DigitsValue(m.y))
    ensures r.Monitor? ==> FitsInt(r.rect)
  {
    match Search(line)
    case None => NoGeometry
    case Some(m) => match ToRect(m)
      case None => OutOfRange
      case Some(r) => Monitor(r)
  }

  /**
   * The rectangles of the results, in order, skipping lines without a
   * geometry; `None` as soon as one result is out of range.
   */
  function Collect(results: seq<LineResult>): (r: Option<seq<Rect>>)
    ensures r.Some? ==> |r.value| <= |results|
    ensures r.Some? ==> forall k :: 0 <= k < |r.value| ==> Monitor(r.value[k]) in results
  {
    if results == [] then Some([])
    else
      var rest := Collect(results[1..]);
      match results[0]
      case NoGeometry => rest
      case OutOfRange => None
      case Monitor(r) => if rest.None? then None else Some([r] + rest.value)
  }

  /** Collecting fails exactly when some line's numbers are out of range. */
  lemma {:induction false} CollectFails(results: seq<LineResult>)
    ensures Collect(results).None? <==> OutOfRange in results
  {
    if results != [] {
      CollectFails(results[1..]);
      assert results == [results[0]] + results[1..];
    }
  }

  /**
   * The monitors of the listing, in line order, skipping lines without a
   * geometry; `None` when a matched number is out of `int` range, where the
   * program throws and generates nothing.
   */
  function Monitors(lines: seq<string>): (r: Option<seq<Rect>>)
    ensures r.Some? ==> |r.value| <= |lines|
    ensures r.Some? ==> forall k :: 0 <= k < |r.value| ==>
      exists j :: 0 <= j < |lines| && MonitorOf(lines[j]) == Monitor(r.value[k])
  {
    var results := seq(|lines|, k requires 0 <= k < |lines| => MonitorOf(lines[k]));
    assert forall m :: m in results ==> exists j :: 0 <= j < |lines| && MonitorOf(lines[j]) == m;
    Collect(results)
  }

  /** Appends `done` in front of a result, keeping a failure a failure. */
  function Prepend(done: seq<Rect>, o: Option<seq<Rect>>): Option<seq<Rect>>
  {
    match o
    case None => None
    case Some(rs) => Some(done + rs)
  }

  /** Collecting two runs of results one after the other collects their concatenation. */
  lemma {:induction false} CollectAppend(a: seq<LineResult>, b: seq<LineResult>)
    ensures Collect(a + b) ==
      if Collect(a).Some? && Collect(b).Some? then Some(Collect(a).value + Collect(b).value) else None
  {
    if a != [] {
      assert (a + b)[0] == a[0];
      assert (a + b)[1..] == a[1..] + b;
      CollectAppend(a[1..], b);
      if Collect(a).Some? && Collect(b).Some? && a[0].Monitor? {
        var r := a[0].rect;
        assert [r] + (Collect(a[1..]).value + Collect(b).value)
            == ([r] + Collect(a[1..]).value) + Collect(b).value;
      }
    } else {
      assert a + b == b;
      assert Collect(b).Some? ==> [] + Collect(b).value == Collect(b).value;
    }
  }

  /** The first line of a listing is scanned before the rest. */
  lemma MonitorsCons(line: string, lines: seq<string>)
    ensures Monitors([line] + lines) == match MonitorOf(line)
      case NoGeometry => Monitors(lines)
      case OutOfRange => None
      case Monitor(r) => Prepend([r], Monitors(lines))
  {
    var all := [line] + lines;
    var results := seq(|all|, k requires 0 <= k < |all| => MonitorOf(all[k]));
    var tail := seq(|lines|, k requires 0 <= k < |lines| => MonitorOf(lines[k]));
    assert results[0] == MonitorOf(line);
    assert results[1..] == tail;
  }

  /** Scanning two listings one after the other scans their concatenation. */
  lemma MonitorsAppend(a: seq<string>, b: seq<string>)
    ensures Monitors(a + b) ==
      if Monitors(a).Some? && Monitors(b).Some? then Some(Monitors(a).value + Monitors(b).value) else None
  {
    var ra := seq(|a|, k requires 0 <= k < |a| => MonitorOf(a[k]));
    var rb := seq(|b|, k requires 0 <= k < |b| => MonitorOf(b[k]));
    var ab := a + b;
    assert seq(|ab|, k requires 0 <= k < |ab| => MonitorOf(ab[k])) == ra + rb;
    CollectAppend(ra, rb);
  }

  /** A line without a geometry contributes nothing, wherever it stands. */
  lemma NonMatchingLineIgnored(a: seq<string>, line: string, b: seq<string>)
    requires MonitorOf(line).NoGeometry?
    ensures Monitors(a + [line] + b) == Monitors(a + b)
  {
    MonitorsAppend(a + [line], b);
    MonitorsAppend(a, [line]);
    MonitorsAppend(a, b);
    MonitorsCons(line, []);
    assert [line] + [] == [line];
    assert Monitors([]) == Some([]);
    assert Monitors(a).Some? ==> Monitors(a).value + [] == Monitors(a).value;
  }

  /** A line whose numbers overflow makes the whole scan fail, wherever it stands. */
  lemma OutOfRangeLineFails(a: seq<string>, line: string, b: seq<string>)
    requires MonitorOf(line).OutOfRange?
    ensures Monitors(a + [line] + b).None?
  {
    MonitorsAppend(a + [line], b);
    MonitorsAppend(a, [line]);
    MonitorsCons(line, []);
    assert [line] + [] == [line];
  }

  /** The regions that cannot start a geometry: no digit directly before an `x`. */
  predicate NoDigitBeforeX(s: string)
  {
    forall k :: 0 <= k < |s| - 1 ==> !(IsDigit(s[k]) && s[k + 1] == 'x')
  }

  /** Reading `piece` at index `i` of a line, and what follows it. */
  lemma Peel(line: string, i: nat, piece: string, rest: string)
    requires i <= |line| && line[i..] == piece + rest
    ensures i + |piece| <= |line|
    ensures line[i..i + |piece|] == piece && line[i + |piece|..] == rest
  {
    assert line[i..i + |piece|] == line[i..][..|piece|];
    assert line[i + |piece|..] == line[i..][|piece|..];
  }

  /** Reading a one-character piece at index `i`. */
  lemma PeelChar(line: string, i: nat, c: char, rest: string)
    requires i <= |line| && line[i..] == [c] + rest
    ensures i < |line| && line[i] == c && line[i + 1..] == rest
  {
    assert line[i] == line[i..][0];
    assert line[i + 1..] == line[i..][1..];
  }

  /** The numbers `xrandr` writes, as the four groups they form. */
  function GroupsOf(r: Rect): GeometryMatch
  {
    GeometryMatch(NatToString(r.width), NatToString(r.height), NatToString(r.x), NatToString(r.y))
  }

  /** The text of a rectangle followed by `suffix`, one piece at a time. */
  lemma RectTextThen(r: Rect, suffix: string)
    ensures var g := GroupsOf(r);
      RectText(r) + suffix == g.w + ("x" + (g.h + ("+" + (g.x + ("+" + (g.y + suffix))))))
  {
    var g := GroupsOf(r);
    var t5 := "+" + g.y;
    var t4 := g.x + t5;
    var t3 := "+" + t4;
    var t2 := g.h + t3;
    var t1 := "x" + t2;
    assert t5 + suffix == "+" + (g.y + suffix);
    assert t4 + suffix == g.x + (t5 + suffix);
    assert t3 + suffix == "+" + (t4 + suffix);
    assert t2 + suffix == g.h + (t3 + suffix);
    assert t1 + suffix == "x" + (t2 + suffix);
    assert RectText(r) + suffix == g.w + (t1 + suffix);
  }

  /** A group and its separator read at index `i`, and what follows them. */
  lemma GroupStep(line: string, i: nat, g: string, sep: char, rest: string)
    requires i <= |line| && line[i..] == g + ([sep] + rest)
    ensures GroupThen(line, i, g, sep) && line[i + |g| + 1..] == rest
  {
    Peel(line, i, g, [sep] + rest);
    PeelChar(line, i + |g|, sep, rest);
  }

  /** A last group read at index `i`, followed by something that is not a digit. */
  lemma LastGroupOf(line: string, i: nat, g: string, suffix: string)
    requires suffix == [] || !IsDigit(suffix[0])
    requires i <= |line| && line[i..] == g + suffix
    ensures LastGroup(line, i, g)
  {
    Peel(line, i, g, suffix);
    assert i + |g| < |line| ==> line[i + |g|] == line[i + |g|..][0];
  }

  /** The last three groups, written after the `x`. */
  lemma TailGroups(line: string, a: nat, g: GeometryMatch, suffix: string)
    requires suffix == [] || !IsDigit(suffix[0])
    requires a <= |line| && line[a..] == g.h + ("+" + (g.x + ("+" + (g.y + suffix))))
    ensures var b := a + |g.h| + 1;
      && GroupThen(line, a, g.h, '+') && GroupThen(line, b, g.x, '+') && LastGroup(line, b + |g.x| + 1, g.y)
  {
    var b := a + |g.h| + 1;
    GroupStep(line, a, g.h, '+', g.x + ("+" + (g.y + suffix)));
    GroupStep(line, b, g.x, '+', g.y + suffix);
    LastGroupOf(line, b + |g.x| + 1, g.y, suffix);
  }

  /** Groups written one after the other with their separators are what the pattern accepts. */
  lemma PatternOfGroups(line: string, p: nat, g: GeometryMatch, suffix: string)
    requires WellFormed(g) && (suffix == [] || !IsDigit(suffix[0]))
    requires p <= |line| && line[p..] == g.w + ("x" + (g.h + ("+" + (g.x + ("+" + (g.y + suffix))))))
    ensures PatternAt(line, p, g)
  {
    GroupStep(line, p, g.w, 'x', g.h + ("+" + (g.x + ("+" + (g.y + suffix)))));
    TailGroups(line, p + |g.w| + 1, g, suffix);
  }

  /** The geometry written after `prefix` is what the pattern accepts there. */
  lemma PatternOfRectText(prefix: string, r: Rect, suffix: string)
    requires suffix == [] || !IsDigit(suffix[0])
    ensures PatternAt(prefix + RectText(r) + suffix, |prefix|, GroupsOf(r))
  {
    var t := RectText(r) + suffix;
    var line := prefix + RectText(r) + suffix;
    assert line == prefix + t;
    assert line[|prefix|..] == t;
    RectTextThen(r, suffix);
    PatternOfGroups(line, |prefix|, GroupsOf(r), suffix);
  }

  /** No geometry starts inside a prefix with no digit before an `x` and no digit at its end. */
  lemma NoPatternInPrefix(prefix: string, rest: string)
    requires NoDigitBeforeX(prefix) && (prefix == [] || !IsDigit(prefix[|prefix| - 1]))
    ensures forall j: nat, m: GeometryMatch :: j < |prefix| ==> !PatternAt(prefix + rest, j, m)
  {
    forall j: nat, m: GeometryMatch | j < |prefix|
      ensures !PatternAt(prefix + rest, j, m)
    {
      if |m.w| > 0 && AllDigits(m.w) {
        NoWidthInPrefix(prefix, rest, j, m.w);
      }
    }
  }

  /** No digit run followed by an `x` starts inside such a prefix. */
  lemma NoWidthInPrefix(prefix: string, rest: string, j: nat, g: string)
    requires NoDigitBeforeX(prefix) && (prefix == [] || !IsDigit(prefix[|prefix| - 1]))
    requires j < |prefix| && |g| > 0 && AllDigits(g)
    ensures !GroupThen(prefix + rest, j, g, 'x')
  {
    var line := prefix + rest;
    var e := j + |g|;
    if e < |prefix| {
      assert prefix[e - 1] == line[e - 1] && prefix[e] == line[e];
    } else {
      assert line[|prefix| - 1] == prefix[|prefix| - 1];
    }
    if GroupThen(line, j, g, 'x') {
      SliceDigits(line, j, e);
    }
  }

  /** The search finds exactly the rectangle written after such a prefix. */
  lemma SearchRectText(prefix: string, r: Rect, suffix: string)
    requires NoDigitBeforeX(prefix) && (prefix == [] || !IsDigit(prefix[|prefix| - 1]))
    requires suffix == [] || !IsDigit(suffix[0])
    ensures Search(prefix + RectText(r) + suffix) == Some(GroupsOf(r))
  {
    var line := prefix + RectText(r) + suffix;
    PatternOfRectText(prefix, r, suffix);
    ConcatAssoc(prefix, RectText(r), suffix);
    NoPatternInPrefix(prefix, RectText(r) + suffix);
    SearchLeftmost(line, |prefix|, GroupsOf(r));
  }

  /**
   * A listing line such as `HDMI-1 connected primary 1920x1080+0+0 (normal ...)`
   * yields exactly the rectangle it spells out.
   */
  lemma MonitorOfLine(prefix: string, r: Rect, suffix: string)
    requires FitsInt(r)
    requires NoDigitBeforeX(prefix) && (prefix == [] || !IsDigit(prefix[|prefix| - 1]))
    requires suffix == [] || !IsDigit(suffix[0])
    ensures Monitors([prefix + RectText(r) + suffix]) == Some([r])
  {
    var line := prefix + RectText(r) + suffix;
    SearchRectText(prefix, r, suffix);
    NatToStringValue(r.width);
    NatToStringValue(r.height);
    NatToStringValue(r.x);
    NatToStringValue(r.y);
    assert MonitorOf(line) == Monitor(r);
    MonitorsCons(line, []);
    assert [line] + [] == [line];
    assert Monitors([]) == Some([]);
    assert [r] + [] == [r];
  }

  // ---------------------------------------------------------------------
  // Placement

  /** Side of the square lock icon, in pixels. */
  const LOCK_ICON_SIZE: int := 60
  /** How far below the monitor's centre the prompt text is anchored. */
  const TEXT_OFFSET_Y: int := 160
  /** How far left of the monitor's centre the prompt text is anchored. */
  const TEXT_OFFSET_X: int := 142

  datatype Point = Point(x: int, y: int)

  /** Where a monitor's prompt text and lock icon go. */
  datatype Placement = Placement(anchor: Point, icon: Point)

  /**
   * Top-left corner of the lock icon on a monitor: the icon's centre sits
   * on the monitor's centre, rounded down for odd sizes.
   */
  function IconPosition(r: Rect): (p: Point)
    ensures 2 * (p.x + LOCK_ICON_SIZE / 2) + r.width % 2 == 2 * r.x + r.width
    ensures 2 * (p.y + LOCK_ICON_SIZE / 2) + r.height % 2 == 2 * r.y + r.height
  {
    Point(r.width / 2 + r.x - LOCK_ICON_SIZE / 2, r.height / 2 + r.y - LOCK_ICON_SIZE / 2)
  }

  /**
   * Anchor of the prompt text on a monitor: 142 pixels left of and 160
   * pixels below the monitor's centre, rounded down for odd sizes.
   */
  function TextAnchor(r: Rect): (p: Point)
    ensures 2 * (p.x + TEXT_OFFSET_X) + r.width % 2 == 2 * r.x + r.width
    ensures 2 * (p.y - TEXT_OFFSET_Y) + r.height % 2 == 2 * r.y + r.height
  {
    Point(r.width / 2 + r.x - TEXT_OFFSET_X, r.height / 2 + r.y + TEXT_OFFSET_Y)
  }

  /** Moving a monitor moves its icon and its text by the same offset. */
  lemma PlacementTranslates(r: Rect, dx: nat, dy: nat)
    ensures var moved := Rect(r.width, r.height, r.x + dx, r.y + dy);
      && IconPosition(moved) == Point(IconPosition(r).x + dx, IconPosition(r).y + dy)
      && TextAnchor(moved) == Point(TextAnchor(r).x + dx, TextAnchor(r).y + dy)
  {
  }

  /**
   * Both positions on a monitor; the text anchor is 112 pixels left of and
   * 190 pixels below the icon's corner.
   */
  function PlacementOf(r: Rect): (pl: Placement)
    ensures pl.anchor.x == pl.icon.x - 112 && pl.anchor.y == pl.icon.y + 190
  {
    Placement(TextAnchor(r), IconPosition(r))
  }

  function Placements(rs: seq<Rect>): (ps: seq<Placement>)
    ensures |ps| == |rs|
  {
    if rs == [] then [] else [PlacementOf(rs[0])] + Placements(rs[1..])
  }

  /** Each monitor's placement is at its own position in the list. */
  lemma {:induction false} PlacementsAt(rs: seq<Rect>)
    ensures forall k :: 0 <= k < |rs| ==> Placements(rs)[k] == PlacementOf(rs[k])
  {
    if rs != [] {
      PlacementsAt(rs[1..]);
    }
  }

  /** The single 1920x1080 monitor at the origin. */
  lemma FullHdPlacement()
    ensures PlacementOf(Rect(1920, 1080, 0, 0)) == Placement(Point(818, 700), Point(930, 510))
  {
  }

  /** A 1280x1024 monitor to the right of a 1920-pixel-wide one. */
  lemma SecondMonitorPlacement()
    ensures PlacementOf(Rect(1280, 1024, 1920, 0)) == Placement(Point(2418, 672), Point(2530, 482))
  {
  }

  // ---------------------------------------------------------------------
  // The ImageMagick fragment for one monitor

  /** Installation directory of the lock icon. */
  const SCRIPT_PATH: string := "/usr/share/i3lock-fancy-c"

  /**
   * The fixed pieces of every monitor's fragment, built once per listing
   * from the font and the prompt text.
   */
  datatype FragmentParts = FragmentParts(
    fontPart: string, textPart1: string, textPart2: string, textPart3: string, compositePart: string)

  /** The stroked prompt's style, after the font name. */
  const STROKED_STYLE: string := "\" -pointsize 26 -fill lightgrey -stroke grey10" + " -strokewidth 2"

  /** The plain prompt's style and the start of its position. */
  const PLAIN_STYLE: string := "\" -fill lightgrey -stroke lightgrey" + " -strokewidth 1 -annotate +"

  /** The lock icon, after the installation directory, and the start of its position. */
  const ICON_FILE: string := "/icons/lock.png\" -geometry +"

  /** Every piece that follows a coordinate pair starts with something other than a digit. */
  predicate Delimited(parts: FragmentParts)
  {
    && |parts.textPart2| > 0 && !IsDigit(parts.textPart2[0])
    && |parts.textPart3| > 0 && !IsDigit(parts.textPart3[0])
    && |parts.compositePart| > 0 && !IsDigit(parts.compositePart[0])
  }

  /**
   * The pieces draw the prompt twice (first stroked in grey10 with width 2,
   * then plain lightgrey with width 1), each at the coordinates that follow
   * an `-annotate +`, then place the installed lock icon with `-geometry +`
   * and end with `-composite`.
   */
  function PartsFor(font: string, text: string): (parts: FragmentParts)
    ensures Delimited(parts)
    ensures HasPrefix(parts.fontPart, " -font \"" + font) && HasSuffix(parts.fontPart, " -strokewidth 2")
    ensures parts.textPart1 == " -annotate +"
    ensures HasPrefix(parts.textPart2, " \"" + text) && HasSuffix(parts.textPart2, " -strokewidth 1 -annotate +")
    ensures HasPrefix(parts.textPart3, " \"" + text)
    ensures HasSuffix(parts.textPart3, " \"" + SCRIPT_PATH + "/icons/lock.png\" -geometry +")
    ensures parts.compositePart == " -composite"
  {
    var parts := FragmentParts(
      " -font \"" + font + STROKED_STYLE,
      " -annotate +",
      " \"" + text + PLAIN_STYLE,
      " \"" + text + "\" \"" + SCRIPT_PATH + ICON_FILE,
      " -composite");
    var fontOpen, textOpen := " -font \"" + font, " \"" + text;
    assert parts.fontPart[..|fontOpen|] == fontOpen;
    assert parts.textPart2[..|textOpen|] == textOpen;
    assert parts.textPart3[..|textOpen|] == textOpen;
    SuffixOf(" -font \"" + font + "\" -pointsize 26 -fill lightgrey -stroke grey10", " -strokewidth 2");
    SuffixOf(" \"" + text + "\" -fill lightgrey -stroke lightgrey", " -strokewidth 1 -annotate +");
    SuffixOf(" \"" + text + "\"", " \"" + SCRIPT_PATH + ICON_FILE);
    parts
  }

  /** `<x>+<y>` as `std::to_string` writes the two coordinates. */
  function PointText(p: Point): string { IntToString(p.x) + "+" + IntToString(p.y) }

  /**
   * One monitor's fragment: the prompt at the text anchor (stroked, then
   * plain), then the lock icon composited at the icon position.
   */
  function Fragment(parts: FragmentParts, pl: Placement): string
  {
    var pos := PointText(pl.anchor);
    parts.fontPart + parts.textPart1 + pos + parts.textPart2 + pos + parts.textPart3 + PointText(pl.icon) + parts.compositePart
  }

  /** All monitors' fragments, one after the other in monitor order. */
  function Render(parts: FragmentParts, pls: seq<Placement>): (r: string)
    requires Delimited(parts)
    ensures r == [] <==> pls == []
  {
    if pls == [] then "" else Fragment(parts, pls[0]) + Render(parts, pls[1..])
  }

  lemma {:induction false} RenderAppend(parts: FragmentParts, pls: seq<Placement>, pl: Placement)
    requires Delimited(parts)
    ensures Render(parts, pls + [pl]) == Render(parts, pls) + Fragment(parts, pl)
  {
    if pls != [] {
      assert (pls + [pl])[0] == pls[0];
      assert (pls + [pl])[1..] == pls[1..] + [pl];
      RenderAppend(parts, pls[1..], pl);
      ConcatAssoc(Fragment(parts, pls[0]), Render(parts, pls[1..]), Fragment(parts, pl));
    } else {
      assert [pl][1..] == [];
    }
  }

  lemma {:induction false} PlacementsAppend(rs: seq<Rect>, r: Rect)
    ensures Placements(rs + [r]) == Placements(rs) + [PlacementOf(r)]
  {
    if rs != [] {
      assert (rs + [r])[1..] == rs[1..] + [r];
      PlacementsAppend(rs[1..], r);
    } else {
      assert [r][1..] == [];
    }
  }

  /** The fragments for the monitors of a listing, or `None` when a number is out of range. */
  function RenderListing(parts: FragmentParts, listing: string): Option<string>
    requires Delimited(parts)
  {
    match Monitors(Lines(listing))
    case None => None
    case Some(rs) => Some(Render(parts, Placements(rs)))
  }

  /**
   * The overlay arguments `generate_lock_overlays_fast` produces for a
   * listing, or `None` when it throws.
   */
  function OverlayText(font: string, text: string, listing: string): (r: Option<string>)
    ensures r.Some? <==> Monitors(Lines(listing)).Some?
  {
    RenderListing(PartsFor(font, text), listing)
  }

  /** The scan result once `done` has been read and `rest` is still to come, after one more line. */
  lemma ScanStep(done: seq<Rect>, line: string, tail: seq<string>)
    ensures Prepend(done, Monitors([line] + tail)) == match MonitorOf(line)
      case NoGeometry => Prepend(done, Monitors(tail))
      case OutOfRange => None
      case Monitor(r) => Prepend(done + [r], Monitors(tail))
  {
    MonitorsCons(line, tail);
    if MonitorOf(line).Monitor? && Monitors(tail).Some? {
      var r := MonitorOf(line).rect;
      assert done + ([r] + Monitors(tail).value) == (done + [r]) + Monitors(tail).value;
    }
  }

  /** One more monitor appends its fragment to the rendered text. */
  lemma RenderStep(parts: FragmentParts, done: seq<Rect>, r: Rect)
    requires Delimited(parts)
    ensures Render(parts, Placements(done + [r])) == Render(parts, Placements(done)) + Fragment(parts, PlacementOf(r))
  {
    PlacementsAppend(done, r);
    RenderAppend(parts, Placements(done), PlacementOf(r));
  }

  /** The loop's invariants after one more line, with that line's fragment when it is a monitor. */
  lemma ScanAdvance(parts: FragmentParts, listing: string, done: seq<Rect>, acc: string,
                    line: string, tail: seq<string>, fragment: string)
    requires Delimited(parts)
    requires acc == Render(parts, Placements(done))
    requires Monitors(Lines(listing)) == Prepend(done, Monitors([line] + tail))
    requires MonitorOf(line).Monitor? ==> fragment == Fragment(parts, PlacementOf(MonitorOf(line).rect))
    ensures MonitorOf(line).NoGeometry? ==> Monitors(Lines(listing)) == Prepend(done, Monitors(tail))
    ensures MonitorOf(line).OutOfRange? ==> RenderListing(parts, listing).None?
    ensures MonitorOf(line).Monitor? ==>
      var r := MonitorOf(line).rect;
      && acc + fragment == Render(parts, Placements(done + [r]))
      && Monitors(Lines(listing)) == Prepend(done + [r], Monitors(tail))
  {
    ScanStep(done, line, tail);
    if MonitorOf(line).Monitor? {
      RenderStep(parts, done, MonitorOf(line).rect);
    }
  }

  /** The positions computed for one monitor and the fragment written for them. */
  method MonitorFragment(parts: FragmentParts, w: nat, h: nat, xoff: nat, yoff: nat) returns (fragment: string)
    ensures fragment == Fragment(parts, PlacementOf(Rect(w, h, xoff, yoff)))
  {
    var midxi := w / 2 + xoff - LOCK_ICON_SIZE / 2;
    var midyi := h / 2 + yoff - LOCK_ICON_SIZE / 2;
    var midxt := w / 2 + xoff - TEXT_OFFSET_X;
    var midyt := h / 2 + yoff + TEXT_OFFSET_Y;
    var posStr := IntToString(midxt) + "+" + IntToString(midyt);
    var geomStr := IntToString(midxi) + "+" + IntToString(midyi);
    fragment := parts.fontPart + parts.textPart1 + posStr + parts.textPart2 + posStr
      + parts.textPart3 + geomStr + parts.compositePart;
    assert PlacementOf(Rect(w, h, xoff, yoff)) == Placement(Point(midxt, midyt), Point(midxi, midyi));
    assert posStr == PointText(Point(midxt, midyt)) && geomStr == PointText(Point(midxi, midyi));
  }

  /** One line of the listing: what it contributes and, for a monitor, that monitor's fragment. */
  method ScanLine(parts: FragmentParts, line: string) returns (result: LineResult, fragment: string)
    ensures result == MonitorOf(line)
    ensures result.Monitor? ==> fragment == Fragment(parts, PlacementOf(result.rect))
  {
    var m := Search(line);
    if m.None? {
      return NoGeometry, "";
    }
    var r := ToRect(m.value);
    if r.None? {
      return OutOfRange, "";
    }
    var rect := r.value;
    fragment := MonitorFragment(parts, rect.width, rect.height, rect.x, rect.y);
    assert Rect(rect.width, rect.height, rect.x, rect.y) == rect;
    result := Monitor(rect);
  }

  /** `getline`: the text up to the first newline, and what follows that newline. */
  method NextLine(s: string) returns (line: string, rest: string)
    requires s != []
    ensures Lines(s) == [line] + Lines(rest) && |rest| < |s|
  {
    var i := IndexOf(s, '\n');
    line := s[..i];
    rest := if i < |s| then s[i + 1..] else [];
    LinesCons(s);
  }

  /** The line-by-line scan of the topology listing, appending one fragment per monitor. */
  method ScanListing(parts: FragmentParts, listing: string) returns (overlays: Option<string>)
    requires Delimited(parts)
    ensures overlays == RenderListing(parts, listing)
  {
    var acc := "";
    ghost var done: seq<Rect> := [];
    assert Monitors(Lines(listing)).Some? ==> [] + Monitors(Lines(listing)).value == Monitors(Lines(listing)).value;
    var rest := listing;
    while rest != []
      invariant acc == Render(parts, Placements(done))
      invariant Monitors(Lines(listing)) == Prepend(done, Monitors(Lines(rest)))
      decreases |rest|
    {
      var line;
      line, rest := NextLine(rest);
      var result, fragment := ScanLine(parts, line);
      ScanAdvance(parts, listing, done, acc, line, Lines(rest), fragment);
      match result
      case NoGeometry =>
      case OutOfRange =>
        return None;
      case Monitor(rect) =>
        acc := acc + fragment;
        done := done + [rect];
    }
    assert done + [] == done;
    return Some(acc);
  }

  /**
   * `generate_lock_overlays_fast`: nothing for an empty listing, otherwise
   * the fixed pieces built once and the listing scanned line by line.
   */
  method GenerateOverlays(font: string, text: string, listing: string) returns (overlays: Option<string>)
    ensures overlays == OverlayText(font, text, listing)
  {
    if listing == [] {
      return Some("");
    }
    var parts := PartsFor(font, text);
    overlays := ScanListing(parts, listing);
  }

  // ---------------------------------------------------------------------
  // Reading the fragments back

  /** Strips the literal `lit` from the front of `s`. */
  function Expect(s: string, lit: string): (r: Option<string>)
    ensures r.Some? ==> |r.value| == |s| - |lit|
  {
    if HasPrefix(s, lit) then Some(s[|lit|..]) else None
  }

  lemma ExpectConcat(lit: string, t: string)
    ensures Expect(lit + t, lit) == Some(t)
  {
    assert (lit + t)[..|lit|] == lit;
    assert (lit + t)[|lit|..] == t;
  }

  /** Reads `<x>+<y>`. */
  function ReadPoint(s: string): (r: Option<(Point, string)>)
    ensures r.Some? ==> |r.value.1| < |s|
  {
    var (x, s1) :- ReadInt(s);
    var s2 :- Expect(s1, "+");
    var (y, s3) :- ReadInt(s2);
    Some((Point(x, y), s3))
  }

  lemma ReadPointText(p: Point, rest: string)
    requires rest == [] || !IsDigit(rest[0])
    ensures ReadPoint(PointText(p) + rest) == Some((p, rest))
  {
    var ys := IntToString(p.y) + rest;
    assert PointText(p) + rest == IntToString(p.x) + ("+" + ys);
    ReadIntToString(p.x, "+" + ys);
    ExpectConcat("+", ys);
    ReadIntToString(p.y, rest);
  }

  /**
   * Reads one monitor's fragment built from `parts`; both annotations must
   * name the same anchor.
   */
  function ReadFragment(parts: FragmentParts, s: string): (r: Option<(Placement, string)>)
    ensures r.Some? ==> |r.value.1| < |s|
  {
    var s1 :- Expect(s, parts.fontPart + parts.textPart1);
    var (anchor, s2) :- ReadPoint(s1);
    var s3 :- Expect(s2, parts.textPart2);
    var (again, s4) :- ReadPoint(s3);
    var s5 :- Expect(s4, parts.textPart3);
    var (icon, s6) :- ReadPoint(s5);
    var s7 :- Expect(s6, parts.compositePart);
    if again != anchor then None else Some((Placement(anchor, icon), s7))
  }

  /** Reads a sequence of fragments up to the end of `s`. */
  function ReadOverlays(parts: FragmentParts, s: string): Option<seq<Placement>>
    decreases |s|
  {
    if s == [] then Some([])
    else
      match ReadFragment(parts, s)
      case None => None
      case Some((pl, rest)) =>
        match ReadOverlays(parts, rest)
        case None => None
        case Some(more) => Some([pl] + more)
  }

  /** Eight pieces and a tail, regrouped from the right after the first two. */
  lemma Regroup(a: string, b: string, c: string, d: string, e: string, f: string, g: string, h: string, rest: string)
    ensures a + b + c + d + e + f + g + h + rest == (a + b) + (c + (d + (e + (f + (g + (h + rest))))))
  {
    var f6 := a + b + c + d + e + f;
    assert f6 + h + rest == f6 + (h + rest);
    assert f6 + (h + rest) == (a + b + c + d + e) + (f + (h + rest));
    assert (a + b + c + d + e) + (f + (h + rest)) == (a + b + c + d) + (e + (f + (h + rest)));
    assert (a + b + c + d) + (e + (f + (h + rest))) == (a + b + c) + (d + (e + (f + (h + rest))));
    assert (a + b + c) + (d + (e + (f + (h + rest)))) == (a + b) + (c + (d + (e + (f + (h + rest)))));
  }

  /** A fragment followed by `rest`, regrouped from the right. */
  lemma FragmentThen(parts: FragmentParts, pl: Placement, rest: string)
    ensures var pos := PointText(pl.anchor);
      Fragment(parts, pl) + rest == (parts.fontPart + parts.textPart1) + (pos + (parts.textPart2 + (pos
        + (parts.textPart3 + (PointText(pl.icon) + (parts.compositePart + rest))))))
  {
    Regroup(parts.fontPart, parts.textPart1, PointText(pl.anchor), parts.textPart2, PointText(pl.anchor),
      parts.textPart3, PointText(pl.icon), parts.compositePart, rest);
  }

  /** A fragment reads back as the placement it was written for. */
  lemma FragmentRead(parts: FragmentParts, pl: Placement, rest: string)
    requires Delimited(parts)
    ensures ReadFragment(parts, Fragment(parts, pl) + rest) == Some((pl, rest))
  {
    var pos := PointText(pl.anchor);
    var t7 := parts.compositePart + rest;
    var t6 := PointText(pl.icon) + t7;
    var t5 := parts.textPart3 + t6;
    var t4 := pos + t5;
    var t3 := parts.textPart2 + t4;
    var t2 := pos + t3;
    FragmentThen(parts, pl, rest);
    ExpectConcat(parts.fontPart + parts.textPart1, t2);
    ReadPointText(pl.anchor, t3);
    ExpectConcat(parts.textPart2, t4);
    ReadPointText(pl.anchor, t5);
    ExpectConcat(parts.textPart3, t6);
    ReadPointText(pl.icon, t7);
    ExpectConcat(parts.compositePart, rest);
  }

  lemma ReadOverlaysCons(parts: FragmentParts, s: string, pl: Placement, rest: string)
    requires s != [] && ReadFragment(parts, s) == Some((pl, rest))
    ensures ReadOverlays(parts, s) == match ReadOverlays(parts, rest)
      case None => None
      case Some(more) => Some([pl] + more)
  {
  }

  /** Reading a rendering back takes its first fragment, then reads the rest. */
  lemma RenderHead(parts: FragmentParts, pls: seq<Placement>)
    requires Delimited(parts) && pls != []
    requires ReadOverlays(parts, Render(parts, pls[1..])) == Some(pls[1..])
    ensures ReadOverlays(parts, Render(parts, pls)) == Some(pls)
  {
    var head, tail := Fragment(parts, pls[0]), Render(parts, pls[1..]);
    assert Render(parts, pls) == head + tail;
    FragmentRead(parts, pls[0], tail);
    ReadOverlaysCons(parts, head + tail, pls[0], tail);
    assert [pls[0]] + pls[1..] == pls;
  }

  /** The rendered text reads back as the placements it was rendered from. */
  lemma {:induction false} RenderRead(parts: FragmentParts, pls: seq<Placement>)
    requires Delimited(parts)
    ensures ReadOverlays(parts, Render(parts, pls)) == Some(pls)
  {
    if pls != [] {
      RenderRead(parts, pls[1..]);
      RenderHead(parts, pls);
    }
  }

  /**
   * Whatever the listing, the generated overlays hold one fragment per
   * monitor, in listing order, each with that monitor's placement; and they
   * are empty exactly when the listing names no monitor.
   */
  lemma OverlaysDescribeMonitors(font: string, text: string, listing: string)
    requires OverlayText(font, text, listing).Some?
    ensures ReadOverlays(PartsFor(font, text), OverlayText(font, text, listing).value)
      == Some(Placements(Monitors(Lines(listing)).value))
    ensures OverlayText(font, text, listing).value == [] <==> Monitors(Lines(listing)).value == []
  {
    RenderRead(PartsFor(font, text), Placements(Monitors(Lines(listing)).value));
  }
}

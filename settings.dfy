// Configuration the locker works out before it runs: the prompt text for
// the user's language, the screenshot command and the font of the prompt.
// The facts these depend on (the `LANG` variable, which tools are
// installed, the output of `fc-match` and `convert -list font`) are
// parameters.

module Settings {
  import opened Wrappers
  import opened Text
  import opened Commands

  // ---------------------------------------------------------------------
  // Prompt text

  const DEFAULT_PROMPT: string := "Type password to unlock"

  /** The translated prompts, by two-letter language code. */
  const PROMPTS: map<string, string> := map[
    "de" := "Bitte Passwort eingeben",
    "es" := "Ingrese su contraseña",
    "fr" := "Entrez votre mot de passe",
    "pl" := "Podaj hasło"]

  /** The first two characters of `LANG`, or nothing when it is shorter. */
  function LanguageCode(lang: string): (code: string)
    ensures |code| == 0 || |code| == 2
    ensures |code| == 2 <==> |lang| >= 2
    ensures |code| == 2 ==> code == lang[..2]
  {
    if |lang| >= 2 then lang[..2] else ""
  }

  /**
   * `get_localized_text_fast`: the table's prompt for the language code of
   * `LANG` when there is one, and the English prompt otherwise, also when
   * `LANG` is unset.
   */
  function LocalizedText(lang: Option<string>): (text: string)
    ensures text == if lang.Some? && LanguageCode(lang.value) in PROMPTS
      then PROMPTS[LanguageCode(lang.value)] else DEFAULT_PROMPT
  {
    match lang
    case None => DEFAULT_PROMPT
    case Some(l) =>
      var code := LanguageCode(l);
      if code == "de" then "Bitte Passwort eingeben"
      else if code == "es" then "Ingrese su contraseña"
      else if code == "fr" then "Entrez votre mot de passe"
      else if code == "pl" then "Podaj hasło"
      else DEFAULT_PROMPT
  }

  /** Only the language code counts: region and encoding are ignored. */
  lemma LocalizedTextByCode(code: string, rest: string)
    requires |code| == 2
    ensures LocalizedText(Some(code + rest)) == LocalizedText(Some(code))
  {
    assert (code + rest)[..2] == code;
    assert code[..2] == code;
  }

  // ---------------------------------------------------------------------
  // Screenshot command

  /** A screenshot program and its command, with `{}` where the image path goes. */
  datatype Tool = Tool(name: string, template: string)

  const PLACEHOLDER: string := "{}"

  /** The programs tried, in order of preference. */
  const TOOLS: seq<Tool> := [
    Tool("maim", "maim \"" + PLACEHOLDER + "\""),
    Tool("scrot", "scrot -z \"" + PLACEHOLDER + "\""),
    Tool("import", "import -window root \"" + PLACEHOLDER + "\"")]

  /** Each template is a command head, the placeholder and a closing quote. */
  lemma TemplatesShape()
    ensures TOOLS[0].template == "maim \"" + PLACEHOLDER + "\"" && '{' !in "maim \""
    ensures TOOLS[1].template == "scrot -z \"" + PLACEHOLDER + "\"" && '{' !in "scrot -z \""
    ensures TOOLS[2].template == "import -window root \"" + PLACEHOLDER + "\""
    ensures '{' !in "import -window root \""
  {
  }

  /** The command used when none of the programs is installed. */
  function FallbackCommand(path: string): string
  {
    "import -window root \"" + path + "\""
  }

  /** The first program from position `i` on that is installed. */
  function FirstInstalled(installed: set<string>, i: nat): (r: Option<Tool>)
    decreases |TOOLS| - i
    ensures r.Some? ==> r.value in TOOLS && r.value.name in installed
    ensures r.Some? ==>
      exists k :: (i <= k < |TOOLS| && r.value == TOOLS[k] && forall j :: i <= j < k ==> TOOLS[j].name !in installed)
    ensures r.None? ==> forall k :: i <= k < |TOOLS| ==> TOOLS[k].name !in installed
  {
    if i >= |TOOLS| then None
    else if TOOLS[i].name in installed then Some(TOOLS[i])
    else FirstInstalled(installed, i + 1)
  }

  /** Which program is the first one installed, by the programs' names. */
  lemma FirstInstalledCases(installed: set<string>)
    ensures "maim" in installed ==> FirstInstalled(installed, 0) == Some(TOOLS[0])
    ensures "maim" !in installed && "scrot" in installed ==> FirstInstalled(installed, 0) == Some(TOOLS[1])
    ensures "maim" !in installed && "scrot" !in installed ==>
      FirstInstalled(installed, 0) == if "import" in installed then Some(TOOLS[2]) else None
  {
    assert TOOLS[0].name == "maim" && TOOLS[1].name == "scrot" && TOOLS[2].name == "import";
    if "maim" !in installed {
      assert FirstInstalled(installed, 0) == FirstInstalled(installed, 1);
      if "scrot" !in installed {
        assert FirstInstalled(installed, 1) == FirstInstalled(installed, 2);
      }
    }
  }

  /**
   * `detect_screenshot_tool_fast`'s answer for the installed programs:
   * `maim` wins when installed, then `scrot`, and otherwise the command is
   * `import`'s, whether `import` is installed or not; every choice writes
   * to the quoted image path.
   */
  function DetectedCommand(installed: set<string>, path: string): (cmd: string)
    ensures "maim" in installed ==> cmd == "maim \"" + path + "\""
    ensures "maim" !in installed && "scrot" in installed ==> cmd == "scrot -z \"" + path + "\""
    ensures "maim" !in installed && "scrot" !in installed ==> cmd == "import -window root \"" + path + "\""
  {
    TemplatesShape();
    ReplaceFirstAt("maim \"", PLACEHOLDER, "\"", path);
    ReplaceFirstAt("scrot -z \"", PLACEHOLDER, "\"", path);
    ReplaceFirstAt("import -window root \"", PLACEHOLDER, "\"", path);
    FirstInstalledCases(installed);
    match FirstInstalled(installed, 0)
    case Some(t) => ReplaceFirst(t.template, PLACEHOLDER, path)
    case None => FallbackCommand(path)
  }

  /** `detect_screenshot_tool_fast`: tries the programs in order and fills in the first one found. */
  method DetectScreenshotTool(installed: set<string>, path: string) returns (cmd: string)
    ensures cmd == DetectedCommand(installed, path)
  {
    var i := 0;
    while i < |TOOLS|
      invariant i <= |TOOLS|
      invariant FirstInstalled(installed, i) == FirstInstalled(installed, 0)
    {
      var tool := TOOLS[i];
      if tool.name in installed {
        cmd := tool.template;
        var pos := Find(cmd, PLACEHOLDER);
        if pos.Some? {
          cmd := cmd[..pos.value] + path + cmd[pos.value + |PLACEHOLDER|..];
        }
        return;
      }
      i := i + 1;
    }
    cmd := FallbackCommand(path);
  }

  /** The space-separated command line of the arguments given after `--`. */
  method JoinArguments(args: seq<string>) returns (cmd: string)
    ensures cmd == JoinWith(args, ' ')
  {
    cmd := "";
    for i := 0 to |args|
      invariant cmd == JoinWith(args[..i], ' ')
    {
      if i > 0 {
        cmd := cmd + " ";
      }
      cmd := cmd + args[i];
      JoinWithSnoc(args[..i], args[i], ' ');
      assert args[..i + 1] == args[..i] + [args[i]];
    }
    assert args[..|args|] == args;
  }

  /**
   * The user's screenshot command: the arguments joined by spaces, with
   * the quoted image path appended unless the path already occurs in them.
   * It always names the image path and begins with the user's own arguments.
   */
  function CustomCommand(args: seq<string>, path: string): (cmd: string)
    ensures Contains(cmd, path)
    ensures HasPrefix(cmd, JoinWith(args, ' '))
  {
    var joined := JoinWith(args, ' ');
    if Contains(joined, path) then
      assert joined[..|joined|] == joined;
      joined
    else
      var cmd := joined + " " + Quoted(path);
      assert cmd == (joined + " \"") + path + "\"";
      ContainsMiddle(joined + " \"", path, "\"");
      assert cmd[..|joined|] == joined;
      cmd
  }

  /**
   * The arguments are kept as they are when they already mention the image
   * path, and the quoted path is appended to them exactly when they do not.
   */
  lemma CustomCommandMentionsImage(args: seq<string>, path: string)
    ensures Contains(JoinWith(args, ' '), path) ==> CustomCommand(args, path) == JoinWith(args, ' ')
    ensures !Contains(JoinWith(args, ' '), path) ==>
      CustomCommand(args, path) == JoinWith(args, ' ') + " " + Quoted(path)
  {
  }

  // ---------------------------------------------------------------------
  // Prompt font

  const FALLBACK_FONT: string := "DejaVu-Sans"

  /** How the font name is cut out of the line that precedes the family. */
  datatype Extraction =
    | AsWritten   // the text between the first and the second space
    | Corrected   // the second space-separated word

  /** The text between the first and the second space of `line`, if it has two. */
  function BetweenFirstSpaces(line: string): (r: Option<string>)
    ensures r.Some? ==> ' ' !in r.value
  {
    var start := IndexOf(line, ' ');
    if start == |line| then None
    else
      var end := start + 1 + IndexOf(line[start + 1..], ' ');
      if end == |line| then None else Some(line[start + 1..end])
  }

  /**
   * The cut exists exactly when the line has two spaces, and it is the
   * text between the first space and the next one.
   */
  lemma BetweenFirstSpacesCut(line: string)
    ensures BetweenFirstSpaces(line).Some? <==>
      exists p, q :: 0 <= p < q < |line| && line[p] == ' ' && line[q] == ' '
    ensures BetweenFirstSpaces(line).Some? ==>
      var t := BetweenFirstSpaces(line).value;
      exists p :: (0 <= p && p + |t| + 1 < |line| && ' ' !in line[..p] && line[p] == ' '
        && line[p + 1..p + 1 + |t|] == t && line[p + 1 + |t|] == ' ')
  {
    var start := IndexOf(line, ' ');
    if start < |line| {
      var tail := line[start + 1..];
      var e := IndexOf(tail, ' ');
      var end := start + 1 + e;
      if end == |line| {
        forall p, q | 0 <= p < q < |line| && line[p] == ' '
          ensures line[q] != ' '
        {
          assert line[q] == tail[q - start - 1];
        }
      } else {
        var t := line[start + 1..end];
        assert line[end] == tail[e];
        assert BetweenFirstSpaces(line) == Some(t);
        assert ' ' !in line[..start] by {
          forall k | 0 <= k < start ensures line[..start][k] != ' ' { assert line[..start][k] == line[k]; }
        }
        assert line[start + 1..start + 1 + |t|] == t;
      }
    }
  }

  /** The maximal runs of non-space characters of `s`, in order. */
  function Words(s: string): (ws: seq<string>)
    decreases |s|
    ensures forall k :: 0 <= k < |ws| ==> ws[k] != [] && ' ' !in ws[k]
  {
    if s == [] then []
    else if s[0] == ' ' then Words(s[1..])
    else
      var i := IndexOf(s, ' ');
      [s[..i]] + Words(s[i..])
  }

  function SecondWord(line: string): (r: Option<string>)
    ensures r.Some? ==> r.value != [] && ' ' !in r.value
  {
    var ws := Words(line);
    if |ws| >= 2 then Some(ws[1]) else None
  }

  /** Text made of spaces only. */
  predicate AllSpaces(s: string) { forall k :: 0 <= k < |s| ==> s[k] == ' ' }

  /** Leading spaces do not change the words. */
  lemma {:induction false} WordsAfterSpaces(sp: string, t: string)
    requires AllSpaces(sp)
    ensures Words(sp + t) == Words(t)
    decreases |sp|
  {
    if sp != [] {
      assert (sp + t)[0] == ' ' && (sp + t)[1..] == sp[1..] + t;
      WordsAfterSpaces(sp[1..], t);
    } else {
      assert sp + t == t;
    }
  }

  /**
   * On a line with at least two words, whatever the spaces around them,
   * the corrected cut is the second word.
   */
  lemma SecondWordOf(lead: string, w1: string, gap: string, w2: string, rest: string)
    requires AllSpaces(lead) && AllSpaces(gap) && gap != []
    requires w1 != [] && ' ' !in w1 && w2 != [] && ' ' !in w2
    requires rest == [] || rest[0] == ' '
    ensures SecondWord(lead + w1 + gap + w2 + rest) == Some(w2)
  {
    var after := gap + (w2 + rest);
    assert lead + w1 + gap + w2 + rest == lead + (w1 + after);
    WordsAfterSpaces(lead, w1 + after);
    assert after[0] == ' ';
    WordsLead(w1, after);
    WordsAfterSpaces(gap, w2 + rest);
    WordsLead(w2, rest);
  }

  /** A line with at most one word has no second word. */
  lemma SecondWordNone(lead: string, w: string, trail: string)
    requires AllSpaces(lead) && AllSpaces(trail) && ' ' !in w
    ensures SecondWord(lead + w + trail).None?
  {
    WordsAfterSpaces(trail, "");
    assert trail + "" == trail;
    assert lead + w + trail == lead + (w + trail);
    WordsAfterSpaces(lead, w + trail);
    if w != [] {
      assert trail == [] || trail[0] == ' ';
      WordsLead(w, trail);
    } else {
      assert w + trail == trail;
    }
  }

  /** The font name cut out of a line; it never holds a space. */
  function FontToken(e: Extraction, line: string): (r: Option<string>)
    ensures r.Some? ==> ' ' !in r.value
  {
    match e
    case AsWritten => BetweenFirstSpaces(line)
    case Corrected => SecondWord(line)
  }

  /**
   * Line `k` of the listing names the family and the line before it is
   * non-empty and yields a font name.
   */
  predicate FontHit(e: Extraction, lines: seq<string>, target: string, k: nat)
  {
    0 < k < |lines| && Contains(lines[k], target) && lines[k - 1] != ""
      && FontToken(e, lines[k - 1]).Some?
  }

  /** The font named before the first hit at or after line `k`. */
  function FontScan(e: Extraction, lines: seq<string>, target: string, k: nat): (r: Option<string>)
    decreases |lines| - k
    ensures r.Some? ==> ' ' !in r.value
  {
    if k >= |lines| then None
    else if FontHit(e, lines, target, k) then FontToken(e, lines[k - 1])
    else FontScan(e, lines, target, k + 1)
  }

  /** A scan that finds a font found it on the line before a hit. */
  lemma {:induction false} FontScanFound(e: Extraction, lines: seq<string>, target: string, k: nat)
    ensures var r := FontScan(e, lines, target, k);
      r.Some? ==> exists j :: k <= j < |lines| && FontHit(e, lines, target, j) && r == FontToken(e, lines[j - 1])
    decreases |lines| - k
  {
    if k < |lines| && !FontHit(e, lines, target, k) {
      FontScanFound(e, lines, target, k + 1);
    }
  }

  /** The scan's answer is the font of the first hit. */
  lemma {:induction false} FontScanFirstHit(e: Extraction, lines: seq<string>, target: string, from: nat, k: nat)
    requires from <= k && FontHit(e, lines, target, k)
    requires forall j :: from <= j < k ==> !FontHit(e, lines, target, j)
    ensures FontScan(e, lines, target, from) == FontToken(e, lines[k - 1])
    decreases k - from
  {
    if from < k {
      FontScanFirstHit(e, lines, target, from + 1, k);
    }
  }

  /** Without a hit the scan finds nothing. */
  lemma {:induction false} FontScanNoHit(e: Extraction, lines: seq<string>, target: string, from: nat)
    requires forall j :: from <= j < |lines| ==> !FontHit(e, lines, target, j)
    ensures FontScan(e, lines, target, from) == None
    decreases |lines| - from
  {
    if from < |lines| {
      FontScanNoHit(e, lines, target, from + 1);
    }
  }

  /** The loop of `get_default_font_fast` over the font listing, remembering the previous line. */
  method ScanFontListing(e: Extraction, listing: string, target: string) returns (font: Option<string>)
    ensures font == FontScan(e, Lines(listing), target, 0)
  {
    var lines := Lines(listing);
    var prev := "";
    var k := 0;
    while k < |lines|
      invariant k <= |lines|
      invariant prev == if k == 0 then "" else lines[k - 1]
      invariant FontScan(e, lines, target, k) == FontScan(e, lines, target, 0)
    {
      var line := lines[k];
      if Contains(line, target) && prev != "" {
        var token := FontToken(e, prev);
        if token.Some? {
          assert FontHit(e, lines, target, k);
          assert FontScan(e, lines, target, k) == token;
          return token;
        }
      }
      assert !FontHit(e, lines, target, k);
      assert FontScan(e, lines, target, k) == FontScan(e, lines, target, k + 1);
      prev := line;
      k := k + 1;
    }
    return None;
  }

  /** `font` is cut from a line of `lines` that precedes one holding `family: `. */
  predicate CutBeforeFamily(e: Extraction, lines: seq<string>, font: string)
  {
    exists j :: 0 < j < |lines| && Contains(lines[j], "family: ") && FontToken(e, lines[j - 1]) == Some(font)
  }

  /** A scan for a family finds its font on the line before one that holds `family: `. */
  lemma FontScanFamily(e: Extraction, lines: seq<string>, family: string)
    ensures var r := FontScan(e, lines, "family: " + family, 0);
      r.Some? ==> CutBeforeFamily(e, lines, r.value)
  {
    var r := FontScan(e, lines, "family: " + family, 0);
    FontScanFound(e, lines, "family: " + family, 0);
    if r.Some? {
      var j :| 0 <= j < |lines| && FontHit(e, lines, "family: " + family, j) && r == FontToken(e, lines[j - 1]);
      ContainsPrefix(lines[j], "family: ", family);
    }
  }

  /**
   * `get_default_font_fast` given the outputs of `fc-match` and
   * `convert -list font` (each without its final newline once read): the
   * font listed just before the family `fc-match` names, or the fallback.
   * The fallback is used whenever either tool prints nothing, and any
   * other font is cut from a line that precedes one holding `family: `.
   */
  function DetectedFont(e: Extraction, fcOutput: string, fontList: string): (font: string)
    ensures fcOutput == "" || fcOutput == "\n" || fontList == "" || fontList == "\n" ==> font == FALLBACK_FONT
    ensures font != FALLBACK_FONT ==> CutBeforeFamily(e, Lines(StripTrailingNewline(fontList)), font)
  {
    var fc := StripTrailingNewline(fcOutput);
    if fc == "" then FALLBACK_FONT
    else
      var family := fc[..IndexOf(fc, '\n')];
      if family == "" then FALLBACK_FONT
      else
        var list := StripTrailingNewline(fontList);
        if list == "" then FALLBACK_FONT
        else
          FontScanFamily(e, Lines(list), family);
          match FontScan(e, Lines(list), "family: " + family, 0)
          case Some(f) => f
          case None => FALLBACK_FONT
  }

  /**
   * A detected font other than the fallback is what the scan finds for the
   * family on the first line `fc-match` prints, and `FontScanFirstHit` says
   * it comes from the first usable hit for that family.
   */
  lemma {:induction false} DetectedFontScans(e: Extraction, fcOutput: string, fontList: string)
    ensures var fc := StripTrailingNewline(fcOutput);
      var font := DetectedFont(e, fcOutput, fontList);
      font != FALLBACK_FONT ==>
        && fc[..IndexOf(fc, '\n')] != ""
        && FontScan(e, Lines(StripTrailingNewline(fontList)), "family: " + fc[..IndexOf(fc, '\n')], 0) == Some(font)
  {
  }

  method DefaultFont(e: Extraction, fcOutput: string, fontList: string) returns (font: string)
    ensures font == DetectedFont(e, fcOutput, fontList)
  {
    var fc := StripTrailingNewline(fcOutput);
    if fc == "" {
      return FALLBACK_FONT;
    }
    var family := fc[..IndexOf(fc, '\n')];
    if family == "" {
      return FALLBACK_FONT;
    }
    var list := StripTrailingNewline(fontList);
    if list == "" {
      return FALLBACK_FONT;
    }
    var found := ScanFontListing(e, list, "family: " + family);
    font := if found.Some? then found.value else FALLBACK_FONT;
  }

  // ---------------------------------------------------------------------
  // The font listing as ImageMagick prints it

  /** A word followed by a space or by nothing is the first word. */
  lemma WordsLead(w: string, t: string)
    requires w != [] && ' ' !in w && (t == [] || t[0] == ' ')
    ensures Words(w + t) == [w] + Words(t)
  {
    IndexOfConcat(w, t, ' ');
    var s := w + t;
    assert s[..|w|] == w && s[|w|..] == t;
    if t == [] {
      assert IndexOf(s, ' ') == |w|;
    }
  }

  /** The entry line `  Font: <name>` has the name as its second word. */
  lemma FontLineSecondWord(name: string)
    requires name != [] && ' ' !in name
    ensures SecondWord(EntryLine(name)) == Some(name)
  {
    var s := EntryLine(name);
    assert s[1..] == " Font: " + name;
    assert s[2..] == "Font:" + (" " + name);
    WordsLead("Font:", " " + name);
    assert (" " + name)[1..] == name + "";
    WordsLead(name, "");
    assert Words(s) == ["Font:", name];
  }

  /** A line indented by two spaces has nothing between its first two spaces. */
  lemma IndentedLineBetween(rest: string)
    ensures BetweenFirstSpaces("  " + rest) == Some("")
  {
    var s := "  " + rest;
    assert s[0] == ' ' && s[1..][0] == ' ';
    assert IndexOf(s, ' ') == 0 && IndexOf(s[1..], ' ') == 0;
    assert s[1..1] == "";
  }

  /**
   * ImageMagick's layout of the font listing: every line before one that
   * holds `family: ` is empty or indented by two spaces.
   */
  predicate IndentedBeforeFamilies(lines: seq<string>)
  {
    forall k :: 0 < k < |lines| && Contains(lines[k], "family: ") ==>
      lines[k - 1] == "" || HasPrefix(lines[k - 1], "  ")
  }

  /**
   * On a listing in that layout the cut between the first two spaces finds
   * nothing or the empty text between the two leading spaces, whatever
   * family `fc-match` names.
   */
  lemma AsWrittenOnIndentedListing(fcOutput: string, fontList: string)
    requires IndentedBeforeFamilies(Lines(StripTrailingNewline(fontList)))
    ensures DetectedFont(AsWritten, fcOutput, fontList) == ""
         || DetectedFont(AsWritten, fcOutput, fontList) == FALLBACK_FONT
  {
    var font := DetectedFont(AsWritten, fcOutput, fontList);
    if font != FALLBACK_FONT {
      var ls := Lines(StripTrailingNewline(fontList));
      var j :| 0 < j < |ls| && Contains(ls[j], "family: ") && FontToken(AsWritten, ls[j - 1]) == Some(font);
      var line := ls[j - 1];
      assert line != "";
      assert line == "  " + line[2..];
      IndentedLineBetween(line[2..]);
    }
  }

  /** Removing the final newline only touches the last piece. */
  lemma StripAppend(x: string, y: string)
    requires y != []
    ensures StripTrailingNewline(x + y) == x + StripTrailingNewline(y)
  {
    if y[|y| - 1] == '\n' {
      assert (x + y)[..|x + y| - 1] == x + y[..|y| - 1];
    }
  }

  /** A newline-free piece followed by a newline is the first line. */
  lemma FirstLine(a: string, u: string)
    requires '\n' !in a
    ensures Lines(a + "\n" + u) == [a] + Lines(u)
  {
    var s := a + "\n" + u;
    ConcatAssoc(a, "\n", u);
    IndexOfConcat(a, "\n" + u, '\n');
    assert s[..|a|] == a && s[|a| + 1..] == u;
    LinesCons(s);
  }

  /** A non-empty newline-free text is a single line. */
  lemma SingleLine(b: string)
    requires '\n' !in b && b != []
    ensures Lines(b) == [b]
  {
    assert b[..|b|] == b;
  }

  /** The first two lines of a text that starts with two newline-free lines. */
  lemma FirstTwoLines(a: string, b: string, tail: string)
    requires '\n' !in a && '\n' !in b && b != []
    requires tail == [] || tail[0] == '\n'
    ensures var ls := Lines(a + "\n" + b + tail); |ls| >= 2 && ls[0] == a && ls[1] == b
  {
    ConcatAssoc(a + "\n", b, tail);
    FirstLine(a, b + tail);
    if tail == [] {
      assert b + tail == b;
      SingleLine(b);
    } else {
      assert tail == "\n" + tail[1..];
      ConcatAssoc(b, "\n", tail[1..]);
      FirstLine(b, tail[1..]);
    }
  }

  /** Removing the final newline of two lines and whatever follows them. */
  lemma StripAfterTwoLines(a: string, b: string, rest: string)
    ensures StripTrailingNewline(a + "\n" + b + "\n" + rest)
         == a + "\n" + b + (if rest == [] then [] else "\n" + StripTrailingNewline(rest))
  {
    if rest == [] {
      assert a + "\n" + b + "\n" + rest == (a + "\n" + b) + "\n";
    } else {
      assert a + "\n" + b + "\n" + rest == (a + "\n" + b + "\n") + rest;
      StripAppend(a + "\n" + b + "\n", rest);
    }
  }

  /** The line that opens a font's entry in `convert -list font`. */
  function EntryLine(name: string): string { "  Font: " + name }

  /** The line of an entry that gives the font's family. */
  function FamilyLine(family: string): string { "    family: " + family }

  /**
   * A font listing in ImageMagick's layout whose first entry is the font
   * `name` of the family `family`, followed by anything else.
   */
  function EntryListing(family: string, name: string, rest: string): string
  {
    EntryLine(name) + "\n" + FamilyLine(family) + "\n" + rest
  }

  /** Both lines are single lines, and the family line names the family. */
  lemma EntryLinesShape(family: string, name: string)
    requires '\n' !in family && '\n' !in name
    ensures '\n' !in EntryLine(name) && '\n' !in FamilyLine(family) && FamilyLine(family) != []
    ensures Contains(FamilyLine(family), "family: " + family)
  {
    assert '\n' !in "  Font: " && '\n' !in "    family: ";
    assert FamilyLine(family) == "    " + ("family: " + family) + "";
    ContainsMiddle("    ", "family: " + family, "");
  }

  /**
   * The lines the scan looks at in such a listing: the entry line and the
   * family line below it, which names the family.
   */
  lemma ListingLines(family: string, name: string, rest: string)
    requires family != [] && '\n' !in family && '\n' !in name
    ensures var ls := Lines(StripTrailingNewline(EntryListing(family, name, rest)));
      && |ls| >= 2 && ls[0] == EntryLine(name) && ls[1] == FamilyLine(family)
      && Contains(ls[1], "family: " + family)
  {
    var a, b := EntryLine(name), FamilyLine(family);
    EntryLinesShape(family, name);
    StripAfterTwoLines(a, b, rest);
    FirstTwoLines(a, b, if rest == [] then [] else "\n" + StripTrailingNewline(rest));
  }

  /** The font the scan reports for such a listing, whichever way the name is cut out. */
  lemma ListingFont(e: Extraction, family: string, name: string, rest: string)
    requires family != [] && '\n' !in family && '\n' !in name
    requires FontToken(e, EntryLine(name)).Some?
    ensures DetectedFont(e, family + "\n", EntryListing(family, name, rest))
         == FontToken(e, EntryLine(name)).value
  {
    ListingLines(family, name, rest);
    var ls := Lines(StripTrailingNewline(EntryListing(family, name, rest)));
    assert StripTrailingNewline(family + "\n") == family;
    assert family[..IndexOf(family, '\n')] == family;
    assert FontHit(e, ls, "family: " + family, 1);
    FontScanFirstHit(e, ls, "family: " + family, 0, 1);
  }

  /**
   * As written, the name is cut between the first and the second space of
   * the entry line, which ImageMagick indents by two spaces: the detected
   * font is the empty string, whatever the listing names.
   */
  lemma FontDetectionAsWritten(family: string, name: string, rest: string)
    requires family != [] && '\n' !in family && '\n' !in name
    ensures DetectedFont(AsWritten, family + "\n", EntryListing(family, name, rest)) == ""
  {
    IndentedLineBetween("Font: " + name);
    assert EntryLine(name) == "  " + ("Font: " + name);
    ListingFont(AsWritten, family, name, rest);
  }

  /** Taking the second word of the entry line detects the font the listing names. */
  lemma FontDetectionCorrected(family: string, name: string, rest: string)
    requires family != [] && '\n' !in family
    requires name != [] && ' ' !in name && '\n' !in name
    ensures DetectedFont(Corrected, family + "\n", EntryListing(family, name, rest)) == name
  {
    FontLineSecondWord(name);
    ListingFont(Corrected, family, name, rest);
  }
}

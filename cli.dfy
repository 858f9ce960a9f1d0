// The program's entry point: the options, in the order given, adjust a
// freshly built locker; help and unknown options end the program before
// anything runs; otherwise the locker runs once, and the image file is
// removed however the program ends.

module Cli {
  import opened Wrappers
  import opened Commands
  import opened Settings
  import opened Locker

  /** One option as the option parser reports it. */
  datatype Flag =
    | Help                 // -h, --help
    | Greyscale            // -g, --greyscale
    | Pixelate             // -p, --pixelate
    | Font(name: string)   // -f FONT, --font FONT
    | Sequential           // --sequential
    | Unknown              // anything else, or -f without its argument

  /** The settings after the options, whether to run sequentially, and the exit status of an early stop. */
  datatype Parsed = Parsed(config: Config, sequential: bool, exit: Option<int>)

  /** Whether an option ends the program before the run. */
  predicate Stops(f: Flag) { f.Help? || f.Unknown? }

  /** Whether an option names a font that `set_font` takes. */
  predicate SetsFont(f: Flag) { f.Font? && f.name != "" }

  /** One option: a setter, the sequential switch, or an early stop with its exit status. */
  function ApplyFlag(c: Config, sequential: bool, f: Flag): (r: Parsed)
    ensures r.config.imagePath == c.imagePath && r.config.text == c.text
    ensures r.config.screenshotCommand == c.screenshotCommand
    ensures r.exit.Some? <==> Stops(f)
    ensures r.exit == Some(0) <==> f.Help?
  {
    match f
    case Help => Parsed(c, sequential, Some(0))
    case Unknown => Parsed(c, sequential, Some(1))
    case Greyscale => Parsed(c.(hue := GREYSCALE_HUE), sequential, None)
    case Pixelate => Parsed(c.(effect := PIXELATE_EFFECT), sequential, None)
    case Font(name) => Parsed(if name == "" then c else c.(font := name), sequential, None)
    case Sequential => Parsed(c, true, None)
  }

  /** The options applied from the first on, stopping at help or an unknown option. */
  function ApplyFlags(c: Config, sequential: bool, flags: seq<Flag>): (r: Parsed)
    ensures r.config.imagePath == c.imagePath && r.config.text == c.text
    ensures r.config.screenshotCommand == c.screenshotCommand
    ensures r.exit.Some? ==> r.exit.value == 0 || r.exit.value == 1
    decreases |flags|
  {
    if flags == [] then Parsed(c, sequential, None)
    else
      var p := ApplyFlag(c, sequential, flags[0]);
      if p.exit.Some? then p else ApplyFlags(p.config, p.sequential, flags[1..])
  }

  /**
   * The program stops early exactly when some option is help or unknown,
   * and then with status 0 exactly when a help option comes before every
   * unknown one.
   */
  lemma {:induction false} ApplyFlagsStops(c: Config, sequential: bool, flags: seq<Flag>)
    ensures var r := ApplyFlags(c, sequential, flags);
      && (r.exit.Some? <==> exists k :: 0 <= k < |flags| && Stops(flags[k]))
      && (r.exit == Some(0) <==>
            exists k :: 0 <= k < |flags| && flags[k].Help? && forall j :: 0 <= j < k ==> !flags[j].Unknown?)
    decreases |flags|
  {
    if flags != [] {
      var p := ApplyFlag(c, sequential, flags[0]);
      ApplyFlagsStops(p.config, p.sequential, flags[1..]);
      if !Stops(flags[0]) {
        var r := ApplyFlags(c, sequential, flags);
        assert forall k :: 0 <= k < |flags[1..]| ==> flags[1..][k] == flags[k + 1];
        if r.exit == Some(0) {
          var k :| 0 <= k < |flags[1..]| && flags[1..][k].Help?
            && forall j :: 0 <= j < k ==> !flags[1..][j].Unknown?;
          assert flags[k + 1].Help? && forall j :: 0 <= j < k + 1 ==> !flags[j].Unknown?;
        }
        if exists k :: 0 <= k < |flags| && flags[k].Help? && forall j :: 0 <= j < k ==> !flags[j].Unknown? {
          var k :| 0 <= k < |flags| && flags[k].Help? && forall j :: 0 <= j < k ==> !flags[j].Unknown?;
          assert flags[1..][k - 1].Help? && forall j :: 0 <= j < k - 1 ==> !flags[1..][j].Unknown?;
        }
        if exists k :: 0 <= k < |flags| && Stops(flags[k]) {
          var k :| 0 <= k < |flags| && Stops(flags[k]);
          assert Stops(flags[1..][k - 1]);
        }
      }
    }
  }

  /**
   * When no option stops the program, `-g` selects the greyscale hue,
   * `-p` the pixelation and `--sequential` the sequential path, each
   * however often and wherever it appears; without them the settings
   * stay as they were.
   */
  lemma {:induction false} ApplyFlagsPresets(c: Config, sequential: bool, flags: seq<Flag>)
    requires forall k :: 0 <= k < |flags| ==> !Stops(flags[k])
    ensures var r := ApplyFlags(c, sequential, flags);
      && r.exit.None?
      && r.config.hue == (if Greyscale in flags then GREYSCALE_HUE else c.hue)
      && r.config.effect == (if Pixelate in flags then PIXELATE_EFFECT else c.effect)
      && r.sequential == (sequential || Sequential in flags)
    decreases |flags|
  {
    if flags != [] {
      var p := ApplyFlag(c, sequential, flags[0]);
      assert forall k :: 0 <= k < |flags[1..]| ==> flags[1..][k] == flags[k + 1];
      ApplyFlagsPresets(p.config, p.sequential, flags[1..]);
      assert flags == [flags[0]] + flags[1..];
    }
  }

  /**
   * When no option stops the program, the font is the one named by the
   * last `-f` with a non-empty name, or the original one when there is
   * none.
   */
  lemma {:induction false} ApplyFlagsFont(c: Config, sequential: bool, flags: seq<Flag>)
    requires forall k :: 0 <= k < |flags| ==> !Stops(flags[k])
    ensures var r := ApplyFlags(c, sequential, flags);
      && ((forall k :: 0 <= k < |flags| ==> !SetsFont(flags[k])) ==> r.config.font == c.font)
      && (forall k :: 0 <= k < |flags| && SetsFont(flags[k]) && (forall j :: k < j < |flags| ==> !SetsFont(flags[j]))
            ==> r.config.font == flags[k].name)
    decreases |flags|
  {
    if flags != [] {
      var p := ApplyFlag(c, sequential, flags[0]);
      assert forall k :: 0 <= k < |flags[1..]| ==> flags[1..][k] == flags[k + 1];
      ApplyFlagsFont(p.config, p.sequential, flags[1..]);
      var r := ApplyFlags(c, sequential, flags);
      forall k | 0 <= k < |flags| && SetsFont(flags[k]) && (forall j :: k < j < |flags| ==> !SetsFont(flags[j]))
        ensures r.config.font == flags[k].name
      {
        if k > 0 {
          assert SetsFont(flags[1..][k - 1]);
          assert forall j :: k - 1 < j < |flags[1..]| ==> !SetsFont(flags[1..][j]);
        } else {
          assert forall j :: 0 <= j < |flags[1..]| ==> !SetsFont(flags[1..][j]);
        }
      }
    }
  }

  /**
   * The option loop of `main`: each option in turn, until help or an
   * unknown option ends it with that exit status.
   */
  method ApplyOptions(locker: FastI3Lock, flags: seq<Flag>) returns (sequential: bool, exit: Option<int>)
    modifies locker
    ensures Parsed(locker.Snapshot(), sequential, exit) == ApplyFlags(old(locker.Snapshot()), false, flags)
    ensures locker.events == old(locker.events)
  {
    sequential, exit := false, None;
    var i := 0;
    while i < |flags|
      invariant 0 <= i <= |flags|
      invariant locker.events == old(locker.events)
      invariant ApplyFlags(old(locker.Snapshot()), false, flags)
             == ApplyFlags(locker.Snapshot(), sequential, flags[i..])
    {
      assert flags[i..][1..] == flags[i + 1..];
      match flags[i] {
        case Help =>
          return sequential, Some(0);
        case Unknown =>
          return sequential, Some(1);
        case Greyscale =>
          locker.SetGreyscale();
        case Pixelate =>
          locker.SetPixelate();
        case Font(name) =>
          locker.SetFont(name);
        case Sequential =>
          sequential := true;
      }
      i := i + 1;
    }
  }

  // ---------------------------------------------------------------------
  // The whole program

  /** The exit status and everything the program did. */
  datatype Exit = Exit(code: int, events: seq<Event>)

  /**
   * The locker's settings once the options are applied and, when
   * arguments follow them, the screenshot command they form.
   */
  function Prepared(host: Host, flags: seq<Flag>, operands: seq<string>): (p: Parsed)
    ensures p.config.imagePath == host.tempPath
  {
    var p := ApplyFlags(Defaults(host), false, flags);
    if p.exit.None? && operands != [] then
      p.(config := p.config.(screenshotCommand := CustomCommand(operands, host.tempPath)))
    else p
  }

  /** A run's exit status and events, followed by the destructor's removal of the image. */
  function Finish(r: Outcome, path: string): (e: Exit)
    ensures e.code == 0 <==> r.failure.None?
    ensures e.code == 0 || e.code == 1
    ensures |e.events| == |r.events| + 1
    ensures e.events[..|r.events|] == r.events && e.events[|r.events|] == Remove(path)
  {
    Exit(if r.failure.Some? then 1 else 0, r.events + [Remove(path)])
  }

  /**
   * `main`: the early stop or the run, then the removal of the image. The
   * program exits with 0 or 1 and its last act is that removal.
   */
  function SessionOutcome(host: Host, flags: seq<Flag>, operands: seq<string>, env: Environment): (e: Exit)
    ensures e.code == 0 || e.code == 1
    ensures |e.events| >= 1 && e.events[|e.events| - 1] == Remove(host.tempPath)
  {
    var p := Prepared(host, flags, operands);
    if p.exit.Some? then Exit(p.exit.value, [Remove(host.tempPath)])
    else Finish(RunOutcome(p.config, env, !p.sequential), host.tempPath)
  }

  /**
   * `main`: a locker on the host, the options, the arguments after them as
   * the screenshot command, the run, and the destructor on every path.
   */
  method Session(host: Host, flags: seq<Flag>, operands: seq<string>, env: Environment)
    returns (code: int, events: seq<Event>)
    ensures code == SessionOutcome(host, flags, operands, env).code
    ensures events == SessionOutcome(host, flags, operands, env).events
  {
    var locker := new FastI3Lock(host);
    var sequential, exit := ApplyOptions(locker, flags);
    if exit.Some? {
      locker.Dispose();
      return exit.value, locker.events;
    }
    if operands != [] {
      locker.SetScreenshotCommand(operands, host.installed);
    }
    code := RunThenDispose(locker, locker.Snapshot(), env, !sequential);
    events := locker.events;
    EventsAfterNone(SessionOutcome(host, flags, operands, env).events);
  }

  /** The end of `main`: the run, with its failure turned into status 1, and the destructor. */
  method RunThenDispose(locker: FastI3Lock, ghost c: Config, env: Environment, useParallel: bool) returns (code: int)
    requires c == locker.Snapshot()
    modifies locker
    ensures code == Finish(RunOutcome(c, env, useParallel), c.imagePath).code
    ensures locker.events == old(locker.events) + Finish(RunOutcome(c, env, useParallel), c.imagePath).events
  {
    ghost var start := locker.events;
    var failure := locker.Run(env, useParallel);
    ghost var mid := locker.events;
    locker.Dispose();
    EventsAssoc(start, mid[|start|..], [Remove(c.imagePath)]);
    code := if failure.Some? then 1 else 0;
  }

  // ---------------------------------------------------------------------
  // What the program promises

  /** A run's events are shell commands only. */
  lemma RunIssuesCommandsOnly(c: Config, env: Environment, useParallel: bool, overlays: Option<string>)
    ensures var r := RunWith(c, env, useParallel, overlays);
      forall k :: 0 <= k < |r.events| ==> r.events[k].System?
  {
    EffectsOnlyConvert(c, env, useParallel, overlays);
  }

  /**
   * However the program ends, its last act is the removal of the image,
   * done once, and everything before it is a shell command.
   */
  lemma SessionRemovesImageLast(host: Host, flags: seq<Flag>, operands: seq<string>, env: Environment)
    ensures var e := SessionOutcome(host, flags, operands, env).events;
      && |e| >= 1 && e[|e| - 1] == Remove(host.tempPath)
      && forall k :: 0 <= k < |e| - 1 ==> e[k].System?
  {
    var p := Prepared(host, flags, operands);
    if p.exit.None? {
      RunIssuesCommandsOnly(p.config, env, !p.sequential, Overlays(p.config, env));
    }
  }

  /**
   * When some option is help or unknown, the program runs nothing and
   * only removes the image; it exits with 0 exactly when a help option
   * comes before every unknown one.
   */
  lemma StoppingOptionRunsNothing(host: Host, flags: seq<Flag>, operands: seq<string>, env: Environment)
    requires exists k :: 0 <= k < |flags| && Stops(flags[k])
    ensures SessionOutcome(host, flags, operands, env).events == [Remove(host.tempPath)]
    ensures SessionOutcome(host, flags, operands, env).code == 0
        <==> exists k :: 0 <= k < |flags| && flags[k].Help? && forall j :: 0 <= j < k ==> !flags[j].Unknown?
  {
    ApplyFlagsStops(Defaults(host), false, flags);
  }

  /**
   * Without options or arguments the program runs the defaults on the
   * parallel path when the hardware allows it, as its shortcut for a bare
   * invocation does.
   */
  lemma BareInvocationRunsDefaults(host: Host, env: Environment)
    ensures var r := RunOutcome(Defaults(host), env, true);
      SessionOutcome(host, [], [], env) == Finish(r, host.tempPath)
  {
  }

  /** A program that got past its options runs the prepared locker and removes the image. */
  lemma SessionRunsPrepared(host: Host, flags: seq<Flag>, operands: seq<string>, env: Environment)
    requires forall k :: 0 <= k < |flags| ==> !Stops(flags[k])
    ensures var p := Prepared(host, flags, operands);
      SessionOutcome(host, flags, operands, env) == Finish(RunOutcome(p.config, env, !p.sequential), host.tempPath)
  {
    ApplyFlagsStops(Defaults(host), false, flags);
  }

  /**
   * A program that got past its options exits with 0 only when the screen
   * was locked on the image; when it exits with 1, everything between the
   * screenshot and the removal of the image was a `convert` rewriting it.
   */
  lemma SuccessMeansLocked(host: Host, flags: seq<Flag>, operands: seq<string>, env: Environment)
    requires forall k :: 0 <= k < |flags| ==> !Stops(flags[k])
    ensures var e := SessionOutcome(host, flags, operands, env);
      && (e.code == 0 ==> System(StyledLockCommand(host.tempPath)) in e.events)
      && (e.code != 0 ==>
            forall k :: 1 <= k < |e.events| - 1 ==>
              e.events[k].System? && ConvertOps(e.events[k].command, host.tempPath).Some?)
  {
    SessionRunsPrepared(host, flags, operands, env);
    var p := Prepared(host, flags, operands);
    var c := p.config;
    RunLockedOrConverted(c, env, !p.sequential, Overlays(c, env));
    var r := RunOutcome(c, env, !p.sequential);
    var e := Finish(r, host.tempPath).events;
    if r.failure.None? {
      var i :| 0 <= i < |r.events| && r.events[i] == System(StyledLockCommand(host.tempPath));
      assert e[i] == e[..|r.events|][i];
    } else {
      forall k | 1 <= k < |e| - 1
        ensures e[k].System? && ConvertOps(e[k].command, host.tempPath).Some?
      {
        assert e[k] == e[..|r.events|][k];
      }
    }
  }
}

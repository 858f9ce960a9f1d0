// The locker object and its run: take a screenshot, blur and decorate it,
// lock the screen on it, and remove it when the object goes away. The
// programs it starts are recorded as events; their exit statuses and the
// other facts of the outside world come from an `Environment`.

module Locker {
  import opened Wrappers
  import opened Text
  import opened Geometry
  import opened Commands
  import opened Settings

  /** What the locker does to the outside world. */
  datatype Event =
    | System(command: string)   // a shell command, run to completion
    | Remove(path: string)      // the image file deleted

  /** The errors a run raises; each ends it. */
  datatype Failure =
    | ScreenshotFailed(command: string)
    | ScreenshotMissing(path: string)
    | BaseEffectsFailed
    | OverlayCompositionFailed
    | ImageProcessingFailed
    | GeometryOutOfRange       // a monitor dimension too large for `int`

  /** The outside world as far as a run depends on it. */
  datatype Environment = Environment(
    failing: set<string>,   // the shell commands that exit with a non-zero status
    imageWritten: bool,     // whether the image file exists after the screenshot
    xrandr: string,         // what `xrandr` prints
    cores: nat)             // the hardware concurrency reported

  /** The exit status the shell reports for a command. */
  function Status(env: Environment, cmd: string): int
  {
    if cmd in env.failing then 1 else 0
  }

  /** The fields of a locker that a run reads. */
  datatype Config = Config(
    hue: string, effect: string, font: string, imagePath: string, text: string, screenshotCommand: string)

  /** The events of a step and the error it raises, if any. */
  datatype Outcome = Outcome(events: seq<Event>, failure: Option<Failure>)

  // ---------------------------------------------------------------------
  // The run, step by step

  /**
   * The screenshot command, run once; it fails when the command exits
   * with a non-zero status or, after a successful command, when no image
   * was written.
   */
  function ScreenshotStep(c: Config, env: Environment): (r: Outcome)
    ensures r.events == [System(c.screenshotCommand)]
    ensures Status(env, c.screenshotCommand) != 0 ==> r.failure == Some(ScreenshotFailed(c.screenshotCommand))
    ensures Status(env, c.screenshotCommand) == 0 && !env.imageWritten ==>
      r.failure == Some(ScreenshotMissing(c.imagePath))
    ensures r.failure.None? <==> Status(env, c.screenshotCommand) == 0 && env.imageWritten
  {
    Outcome([System(c.screenshotCommand)],
      if Status(env, c.screenshotCommand) != 0 then Some(ScreenshotFailed(c.screenshotCommand))
      else if !env.imageWritten then Some(ScreenshotMissing(c.imagePath))
      else None)
  }

  /** The overlay arguments for the monitors `xrandr` lists, `None` when their generation throws. */
  function Overlays(c: Config, env: Environment): Option<string>
  {
    OverlayText(c.font, c.text, StripTrailingNewline(env.xrandr))
  }

  /**
   * The parallel path: the base pass first, then, once the overlays are
   * ready, the overlay pass when there is anything to draw. It succeeds
   * exactly when the base pass succeeds, the overlays were generated, and
   * the overlay pass, when it runs, succeeds.
   */
  function ParallelEffects(c: Config, env: Environment, overlays: Option<string>): (r: Outcome)
    ensures r.failure.None? <==>
      && Status(env, BaseEffectsCommand(c.imagePath, c.hue, c.effect)) == 0
      && overlays.Some?
      && (overlays.value == "" || Status(env, OverlayCommand(c.imagePath, overlays.value)) == 0)
  {
    var base := BaseEffectsCommand(c.imagePath, c.hue, c.effect);
    if Status(env, base) != 0 then Outcome([System(base)], Some(BaseEffectsFailed))
    else
      match overlays
      case None => Outcome([System(base)], Some(GeometryOutOfRange))
      case Some(o) =>
        if o == "" then Outcome([System(base)], None)
        else
          var composite := OverlayCommand(c.imagePath, o);
          Outcome([System(base), System(composite)],
            if Status(env, composite) != 0 then Some(OverlayCompositionFailed) else None)
  }

  /**
   * The sequential path: the overlays first, then one pass doing
   * everything. It issues at most one command and succeeds exactly when
   * the overlays were generated and that pass succeeds.
   */
  function SequentialEffects(c: Config, env: Environment, overlays: Option<string>): (r: Outcome)
    ensures |r.events| <= 1
    ensures r.failure.None? <==>
      overlays.Some? && Status(env, SequentialCommand(c.imagePath, c.hue, c.effect, overlays.value)) == 0
  {
    match overlays
    case None => Outcome([], Some(GeometryOutOfRange))
    case Some(o) =>
      var cmd := SequentialCommand(c.imagePath, c.hue, c.effect, o);
      Outcome([System(cmd)], if Status(env, cmd) != 0 then Some(ImageProcessingFailed) else None)
  }

  /** Whether the effects run in parallel. */
  predicate Parallel(env: Environment, useParallel: bool)
  {
    useParallel && env.cores > 1
  }

  function Effects(c: Config, env: Environment, useParallel: bool, overlays: Option<string>): Outcome
  {
    if Parallel(env, useParallel) then ParallelEffects(c, env, overlays) else SequentialEffects(c, env, overlays)
  }

  /**
   * The styled locker, then the basic one if the styled one failed; neither
   * raises. The styled locker runs first; the basic locker runs once,
   * exactly when the styled one failed; both lock the screen on the image.
   */
  function LockSteps(c: Config, env: Environment): (ls: seq<Event>)
    ensures 1 <= |ls| <= 2
    ensures ls[0] == System(StyledLockCommand(c.imagePath)) && StyledLockImage(ls[0].command) == Some(c.imagePath)
    ensures |ls| == 2 <==> Status(env, StyledLockCommand(c.imagePath)) != 0
    ensures |ls| == 2 ==>
      ls[1] == System(BasicLockCommand(c.imagePath)) && BasicLockImage(ls[1].command) == Some(c.imagePath)
  {
    var styled := StyledLockCommand(c.imagePath);
    if Status(env, styled) != 0 then [System(styled), System(BasicLockCommand(c.imagePath))]
    else [System(styled)]
  }

  /** The effects with the given overlays and, when they succeed, the locker. */
  function AfterScreenshot(c: Config, env: Environment, useParallel: bool, overlays: Option<string>): Outcome
  {
    var fx := Effects(c, env, useParallel, overlays);
    if fx.failure.Some? then fx else Outcome(fx.events + LockSteps(c, env), None)
  }

  /**
   * The screenshot, the effects with the given overlays and the locker,
   * stopping at the first error. The screenshot command runs first, and
   * when it fails or leaves no image the run stops there with that error,
   * whatever the overlays.
   */
  function RunWith(c: Config, env: Environment, useParallel: bool, overlays: Option<string>): (r: Outcome)
    ensures |r.events| >= 1 && r.events[0] == System(c.screenshotCommand)
    ensures ScreenshotStep(c, env).failure.Some? ==> r == ScreenshotStep(c, env)
  {
    var shot := ScreenshotStep(c, env);
    if shot.failure.Some? then shot
    else
      var rest := AfterScreenshot(c, env, useParallel, overlays);
      Outcome(shot.events + rest.events, rest.failure)
  }

  /**
   * `run`. It fails on the overlays exactly when the screenshot succeeded,
   * the base pass (on the parallel path) succeeded, and some monitor in the
   * `xrandr` listing has a number out of `int` range.
   */
  function RunOutcome(c: Config, env: Environment, useParallel: bool): (r: Outcome)
    ensures r.failure == Some(GeometryOutOfRange) <==>
      && ScreenshotStep(c, env).failure.None?
      && (Parallel(env, useParallel) ==> Status(env, BaseEffectsCommand(c.imagePath, c.hue, c.effect)) == 0)
      && Monitors(Lines(StripTrailingNewline(env.xrandr))).None?
  {
    RunWith(c, env, useParallel, Overlays(c, env))
  }

  /** Events recorded in three steps are the first step's followed by the other two. */
  lemma EventsAssoc(a: seq<Event>, b: seq<Event>, c: seq<Event>)
    ensures (a + b) + c == a + (b + c)
  {
  }

  /** Events recorded after none are just those events. */
  lemma EventsAfterNone(a: seq<Event>)
    ensures [] + a == a
  {
  }

  // ---------------------------------------------------------------------
  // What a run promises

  /**
   * In parallel the base pass always runs first and its failure is fatal;
   * after it, overlays that cannot be generated are fatal too. The overlay
   * pass runs exactly when the base pass succeeded and the overlays are a
   * non-empty string; it rewrites the image with them, and its failure is
   * fatal. Empty overlays end the effects successfully after the base pass.
   */
  lemma ParallelOrder(c: Config, env: Environment, overlays: Option<string>)
    ensures var r := ParallelEffects(c, env, overlays);
      var base := BaseEffectsCommand(c.imagePath, c.hue, c.effect);
      && 1 <= |r.events| <= 2
      && r.events[0] == System(base)
      && (Status(env, base) != 0 ==> r.failure == Some(BaseEffectsFailed))
      && (Status(env, base) == 0 && overlays.None? ==> r.failure == Some(GeometryOutOfRange))
      && (Status(env, base) == 0 && overlays == Some("") ==> r.failure.None?)
      && (|r.events| == 2 <==> Status(env, base) == 0 && overlays.Some? && overlays.value != "")
      && (|r.events| == 2 ==> ConvertOps(r.events[1].command, c.imagePath) == overlays)
      && (|r.events| == 2 ==>
            && (r.failure == Some(OverlayCompositionFailed) <==> Status(env, r.events[1].command) != 0)
            && (r.failure.None? <==> Status(env, r.events[1].command) == 0))
  {
  }

  /**
   * The sequential path issues one `convert`, applying the base pass's
   * operations followed by the overlays, and its failure is fatal; when
   * the overlays cannot be generated it issues nothing and fails.
   */
  lemma SequentialSingleConvert(c: Config, env: Environment, overlays: Option<string>)
    ensures var r := SequentialEffects(c, env, overlays);
      && (overlays.None? ==> r == Outcome([], Some(GeometryOutOfRange)))
      && (overlays.Some? ==>
            && |r.events| == 1
            && ConvertOps(r.events[0].command, c.imagePath)
               == Some((c.hue + " " + c.effect) + " " + overlays.value)
            && (r.failure == Some(ImageProcessingFailed) <==> Status(env, r.events[0].command) != 0)
            && (r.failure.None? <==> Status(env, r.events[0].command) == 0))
  {
  }

  /** The effects of either path only rewrite the image with `convert`. */
  lemma EffectsOnlyConvert(c: Config, env: Environment, useParallel: bool, overlays: Option<string>)
    ensures var fx := Effects(c, env, useParallel, overlays);
      forall k :: 0 <= k < |fx.events| ==>
        fx.events[k].System? && ConvertOps(fx.events[k].command, c.imagePath).Some?
  {
  }

  /**
   * A run succeeds exactly when the screenshot and the effects succeed,
   * and only then does it start the locker: a failed run's events are the
   * screenshot and the effects issued so far.
   */
  lemma LockOnlyAfterSuccess(c: Config, env: Environment, useParallel: bool, overlays: Option<string>)
    ensures var r := RunWith(c, env, useParallel, overlays);
      var shot := ScreenshotStep(c, env);
      var fx := Effects(c, env, useParallel, overlays);
      && (r.failure.None? <==> shot.failure.None? && fx.failure.None?)
      && (r.failure.None? ==> r.events == shot.events + fx.events + LockSteps(c, env))
      && (r.failure.Some? ==> r.events == shot.events || r.events == shot.events + fx.events)
  {
  }

  /**
   * A successful run started the styled locker on the image; a failed run
   * issued nothing after the screenshot but `convert` calls rewriting it.
   */
  lemma RunLockedOrConverted(c: Config, env: Environment, useParallel: bool, overlays: Option<string>)
    ensures var r := RunWith(c, env, useParallel, overlays);
      && (r.failure.None? ==> System(StyledLockCommand(c.imagePath)) in r.events)
      && (r.failure.Some? ==>
            forall k :: 1 <= k < |r.events| ==>
              r.events[k].System? && ConvertOps(r.events[k].command, c.imagePath).Some?)
  {
    var r := RunWith(c, env, useParallel, overlays);
    var shot, fx := ScreenshotStep(c, env), Effects(c, env, useParallel, overlays);
    LockOnlyAfterSuccess(c, env, useParallel, overlays);
    EffectsOnlyConvert(c, env, useParallel, overlays);
    if r.failure.None? {
      assert r.events[|shot.events| + |fx.events|] == System(StyledLockCommand(c.imagePath));
    } else {
      forall k | 1 <= k < |r.events|
        ensures r.events[k].System? && ConvertOps(r.events[k].command, c.imagePath).Some?
      {
        assert r.events[k] == fx.events[k - 1];
      }
    }
  }

  // ---------------------------------------------------------------------
  // The locker object

  /** The machine a locker is created on. */
  datatype Host = Host(
    fcOutput: string,        // what `fc-match` prints
    fontList: string,        // what `convert -list font` prints
    tempPath: string,        // the file `mkstemps` created
    lang: Option<string>,    // `LANG`, when set
    installed: set<string>)  // the programs `which` finds

  /** The font the constructor settles on: the detected one, or the fallback when that is empty. */
  function InitialFont(fcOutput: string, fontList: string): (font: string)
    ensures font != ""
  {
    var detected := DetectedFont(AsWritten, fcOutput, fontList);
    if detected == "" then FALLBACK_FONT else detected
  }

  /**
   * A new locker's settings: the darkening hue, the blur, the detected
   * font, the prompt for the language and the first installed screenshot
   * program, all for the temporary image.
   */
  function Defaults(host: Host): (c: Config)
    ensures c.imagePath == host.tempPath && c.font != ""
    ensures c.hue == DEFAULT_HUE && c.effect == DEFAULT_EFFECT
  {
    Config(DEFAULT_HUE, DEFAULT_EFFECT, InitialFont(host.fcOutput, host.fontList),
           host.tempPath, LocalizedText(host.lang), DetectedCommand(host.installed, host.tempPath))
  }

  /**
   * On a font listing in ImageMagick's layout, where the line before each
   * `family: ` line is empty or indented, a new locker uses the fallback
   * font, whichever family `fc-match` names.
   */
  lemma DefaultFontOnImageMagickListing(host: Host)
    requires IndentedBeforeFamilies(Lines(StripTrailingNewline(host.fontList)))
    ensures Defaults(host).font == FALLBACK_FONT
  {
    AsWrittenOnIndentedListing(host.fcOutput, host.fontList);
  }

  class FastI3Lock {
    var hueParams: string
    var effectParams: string
    var font: string
    var imagePath: string
    var text: string
    var screenshotCommand: string
    /** Everything the locker has done so far, oldest first. */
    var events: seq<Event>

    function Snapshot(): Config
      reads this
    {
      Config(hueParams, effectParams, font, imagePath, text, screenshotCommand)
    }

    /** The constructor: every setting at its default, nothing done yet. */
    constructor(host: Host)
      ensures Snapshot() == Defaults(host)
      ensures events == []
    {
      var detected := DefaultFont(AsWritten, host.fcOutput, host.fontList);
      var command := DetectScreenshotTool(host.installed, host.tempPath);
      hueParams := DEFAULT_HUE;
      effectParams := DEFAULT_EFFECT;
      font := detected;
      imagePath := host.tempPath;
      text := LocalizedText(host.lang);
      screenshotCommand := command;
      events := [];
      new;
      if font == "" {
        font := FALLBACK_FONT;
      }
    }

    /** `set_greyscale`. */
    method SetGreyscale()
      modifies this
      ensures Snapshot() == old(Snapshot()).(hue := GREYSCALE_HUE)
      ensures events == old(events)
    {
      hueParams := GREYSCALE_HUE;
    }

    /** `set_pixelate`. */
    method SetPixelate()
      modifies this
      ensures Snapshot() == old(Snapshot()).(effect := PIXELATE_EFFECT)
      ensures events == old(events)
    {
      effectParams := PIXELATE_EFFECT;
    }

    /** `set_font`: an empty name keeps the current font. */
    method SetFont(custom: string)
      modifies this
      ensures Snapshot() == old(Snapshot()).(font := if custom == "" then old(font) else custom)
      ensures events == old(events)
    {
      if custom != "" {
        font := custom;
      }
    }

    /**
     * `set_screenshot_command`: no arguments re-run the detection,
     * otherwise the arguments become the command.
     */
    method SetScreenshotCommand(args: seq<string>, installed: set<string>)
      modifies this
      ensures Snapshot() == old(Snapshot()).(screenshotCommand :=
        if args == [] then DetectedCommand(installed, imagePath) else CustomCommand(args, imagePath))
      ensures events == old(events)
    {
      if args == [] {
        screenshotCommand := DetectScreenshotTool(installed, imagePath);
        return;
      }
      var cmd := JoinArguments(args);
      if !Contains(cmd, imagePath) {
        cmd := cmd + " " + Quoted(imagePath);
      }
      screenshotCommand := cmd;
    }

    /** `std::system`: runs a command and reports its exit status. */
    method Shell(env: Environment, cmd: string) returns (status: int)
      modifies this
      ensures Snapshot() == old(Snapshot())
      ensures events == old(events) + [System(cmd)]
      ensures status == Status(env, cmd)
    {
      events := events + [System(cmd)];
      status := Status(env, cmd);
    }

    /** `take_screenshot_async`. */
    method TakeScreenshot(env: Environment) returns (failure: Option<Failure>)
      modifies this
      ensures Snapshot() == old(Snapshot())
      ensures events == old(events) + ScreenshotStep(Snapshot(), env).events
      ensures failure == ScreenshotStep(Snapshot(), env).failure
    {
      var status := Shell(env, screenshotCommand);
      if status != 0 {
        return Some(ScreenshotFailed(screenshotCommand));
      }
      if !env.imageWritten {
        return Some(ScreenshotMissing(imagePath));
      }
      return None;
    }

    /**
     * `apply_effects_parallel_optimized`: the overlays are generated while
     * the base pass runs, and awaited after it.
     */
    method ApplyEffectsParallel(ghost c: Config, ghost ov: Option<string>, env: Environment) returns (failure: Option<Failure>)
      requires c == Snapshot() && ov == Overlays(c, env)
      modifies this
      ensures Snapshot() == c
      ensures events == old(events) + ParallelEffects(c, env, ov).events
      ensures failure == ParallelEffects(c, env, ov).failure
    {
      var overlays := GenerateOverlays(font, text, StripTrailingNewline(env.xrandr));
      failure := BaseThenComposite(env, overlays);
    }

    /** The parallel path once the overlay generation has been started. */
    method BaseThenComposite(env: Environment, overlays: Option<string>) returns (failure: Option<Failure>)
      modifies this
      ensures Snapshot() == old(Snapshot())
      ensures events == old(events) + ParallelEffects(Snapshot(), env, overlays).events
      ensures failure == ParallelEffects(Snapshot(), env, overlays).failure
    {
      var status := Shell(env, BaseEffectsCommand(imagePath, hueParams, effectParams));
      if status != 0 {
        return Some(BaseEffectsFailed);
      }
      if overlays.None? {
        return Some(GeometryOutOfRange);
      }
      if overlays.value != "" {
        status := Shell(env, OverlayCommand(imagePath, overlays.value));
        if status != 0 {
          return Some(OverlayCompositionFailed);
        }
      }
      return None;
    }

    /** `apply_effects_sequential_fast`: the overlays first, then one pass. */
    method ApplyEffectsSequential(ghost c: Config, ghost ov: Option<string>, env: Environment) returns (failure: Option<Failure>)
      requires c == Snapshot() && ov == Overlays(c, env)
      modifies this
      ensures Snapshot() == c
      ensures events == old(events) + SequentialEffects(c, env, ov).events
      ensures failure == SequentialEffects(c, env, ov).failure
    {
      var overlays := GenerateOverlays(font, text, StripTrailingNewline(env.xrandr));
      failure := CombinedPass(env, overlays);
    }

    /** The sequential path once the overlays are known. */
    method CombinedPass(env: Environment, overlays: Option<string>) returns (failure: Option<Failure>)
      modifies this
      ensures Snapshot() == old(Snapshot())
      ensures events == old(events) + SequentialEffects(Snapshot(), env, overlays).events
      ensures failure == SequentialEffects(Snapshot(), env, overlays).failure
    {
      if overlays.None? {
        return Some(GeometryOutOfRange);
      }
      var status := Shell(env, SequentialCommand(imagePath, hueParams, effectParams, overlays.value));
      if status != 0 {
        return Some(ImageProcessingFailed);
      }
      return None;
    }

    /** `execute_i3lock_fast`: the fallback's own status is ignored. */
    method ExecuteLock(env: Environment)
      modifies this
      ensures Snapshot() == old(Snapshot())
      ensures events == old(events) + LockSteps(Snapshot(), env)
    {
      var status := Shell(env, StyledLockCommand(imagePath));
      if status != 0 {
        var ignored := Shell(env, BasicLockCommand(imagePath));
      }
    }

    /** `run`. */
    method Run(env: Environment, useParallel: bool) returns (failure: Option<Failure>)
      modifies this
      ensures Snapshot() == old(Snapshot())
      ensures events == old(events) + RunOutcome(old(Snapshot()), env, useParallel).events
      ensures failure == RunOutcome(old(Snapshot()), env, useParallel).failure
    {
      ghost var c := Snapshot();
      ghost var ov := Overlays(c, env);
      ghost var start := events;
      failure := TakeScreenshot(env);
      if failure.Some? {
        return;
      }
      ghost var mid := events;
      failure := EffectsThenLock(c, ov, env, useParallel);
      EventsAssoc(start, mid[|start|..], events[|mid|..]);
    }

    /**
     * The rest of `run` once the screenshot is taken: the effects on the
     * path the hardware allows, then the locker when they succeeded. `c`
     * names the locker's settings and `ov` the overlays they produce for
     * the monitors `xrandr` lists.
     */
    method EffectsThenLock(ghost c: Config, ghost ov: Option<string>, env: Environment, useParallel: bool) returns (failure: Option<Failure>)
      requires c == Snapshot() && ov == Overlays(c, env)
      modifies this
      ensures Snapshot() == c
      ensures events == old(events) + AfterScreenshot(c, env, useParallel, ov).events
      ensures failure == AfterScreenshot(c, env, useParallel, ov).failure
    {
      ghost var start := events;
      failure := ApplyEffects(c, ov, env, useParallel);
      if failure.Some? {
        return;
      }
      ghost var mid := events;
      ExecuteLock(env);
      EventsAssoc(start, mid[|start|..], events[|mid|..]);
    }

    /** The choice between the parallel and the sequential effects. */
    method ApplyEffects(ghost c: Config, ghost ov: Option<string>, env: Environment, useParallel: bool) returns (failure: Option<Failure>)
      requires c == Snapshot() && ov == Overlays(c, env)
      modifies this
      ensures Snapshot() == c
      ensures events == old(events) + Effects(c, env, useParallel, ov).events
      ensures failure == Effects(c, env, useParallel, ov).failure
    {
      if useParallel && env.cores > 1 {
        failure := ApplyEffectsParallel(c, ov, env);
      } else {
        failure := ApplyEffectsSequential(c, ov, env);
      }
    }

    /** The destructor: the image file is removed, errors ignored. */
    method Dispose()
      modifies this
      ensures Snapshot() == old(Snapshot())
      ensures events == old(events) + [Remove(imagePath)]
    {
      events := events + [Remove(imagePath)];
    }
  }
}

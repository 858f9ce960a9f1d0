# i3lock-fancy-c, modelled in Dafny

`i3lock-fancy-c` locks an X session behind a blurred screenshot. `main`
builds one `FastI3Lock` object, adjusts it from the command-line options and
calls its `run`:

1. it takes a screenshot into a temporary PNG;
2. it darkens and blurs (or pixelates) the PNG with ImageMagick `convert`;
3. for every monitor that `xrandr` lists, it draws the prompt text and a lock
   icon;
4. it starts `i3lock` on the picture, falling back to a plain `i3lock` when
   the styled one fails;
5. the object's destructor deletes the PNG on every path out of `main`.

The project models that object and `main` in seven modules, one per file:

- `Wrappers` (`wrappers.dfy`): the `Option` type the other modules use for
  a value that may be missing.

- `Text` (`text.dfy`): the string operations the program relies on. These
  are `find`, `getline` splitting, `std::to_string`, `std::stoi`, joining,
  replacing the first `{}`, and dropping one trailing newline.
- `Commands` (`commands.dfy`): the effect presets, and the `convert` and
  `i3lock` command lines, each paired with a function that takes it apart
  again.
- `Settings` (`settings.dfy`): the settings worked out once:
  - the prompt text for `LANG`;
  - the screenshot command, either detected or given on the command line;
  - the font detected from the output of `fc-match` and
    `convert -list font`.
- `Geometry` (`geometry.dfy`): the overlay generator:
  - the regular expression `(\d+)x(\d+)\+(\d+)\+(\d+)`, as a maximal-munch
    matcher proved equal to a declarative pattern;
  - the `std::stoi` range check;
  - the icon and text positions;
  - the fragment writer, proved invertible by a reader of the fragments.
- `Locker` (`locker.dfy`): the class `FastI3Lock` with the fields the source
  updates, and `run` with its steps. Each step is a method proved against a
  function describing what it does.
- `Cli` (`cli.dfy`): `main`:
  - the option loop, over the options as the option parser reports them;
  - the trailing screenshot command;
  - the run;
  - the exit status, and the destructor's removal of the image.

The model does not run anything. A command the program starts with
`std::system` is an `Event` appended to the locker's `events`, and its exit
status comes from an `Environment`. The commands whose output the program
reads through `popen`, and the `which` probes, are not events: what they
report is a field of the `Environment` or of the `Host`. The `Environment`
says:

- whether the screenshot file exists;
- what `xrandr` printed;
- how many cores the hardware reports.

The facts a new locker depends on are a `Host`:

- the outputs of `fc-match` and `convert -list font`;
- the file `mkstemps` created;
- `LANG`;
- the programs `which` finds.

Behaviour worth noting:

- A monitor number too large for `int` makes `std::stoi` throw
  `out_of_range`, and the whole run then fails with that error.
- For the monitor `1280x1024+1920+0` the icon goes to `(2530,482)` and the
  text anchor to `(2418,672)`. This is `Geometry.SecondMonitorPlacement`.
- The font name is cut out of the line before the matching `family:` line
  as the code does: the text between the first and the second space. In
  ImageMagick's listing layout the line before every `family:` line is
  indented by two spaces, so that text is empty, and a new locker uses
  `DejaVu-Sans` whichever family `fc-match` names
  (`Locker.DefaultFontOnImageMagickListing`). See Findings.
- The shortcut `main` takes for a bare invocation behaves as the general
  path does with no options. This is `Cli.BareInvocationRunsDefaults`.

## Model

| member | source | states |
|---|---|---|
| Text.IndexOf | i3lock-fancy-c.cpp:120 | The result is the first index of the character, or the length when the character is absent. |
| Text.FindFrom | i3lock-fancy-c.cpp:132 | The result is the first occurrence of the pattern at or after `from`, or no occurrence at all. |
| Text.FindFromFirst | i3lock-fancy-c.cpp:389 | An occurrence with none before it is what `find` returns. |
| Text.ContainsMiddle | i3lock-fancy-c.cpp:389 | A text always contains what was put in its middle. |
| Text.ReplaceFirstAt | i3lock-fancy-c.cpp:102-104 | Replacing the first `{}` of `a + {} + b`, where `a` has no `{`, gives `a + path + b`. |
| Text.Lines | i3lock-fancy-c.cpp:128-131 | No line that `getline` yields contains a newline. |
| Text.StripTrailingNewline | i3lock-fancy-c.cpp:66-69 | Exactly one final newline is removed, and only when there is one. |
| Text.LinesJoin | i3lock-fancy-c.cpp:62-69 | The lines `getline` yields, joined by newlines, are the output with its final newline dropped. |
| Text.SplitJoin | i3lock-fancy-c.cpp:384-387 | Splitting a joined argument list at the separator gives the arguments back when none contains it. |
| Text.NatToStringValue | i3lock-fancy-c.cpp:219-220 | The decimal digits written for a number have that number as their value. |
| Text.ReadIntToString | i3lock-fancy-c.cpp:219-220 | Reading back what `std::to_string` writes for any integer, negative ones included, gives the integer and the rest of the text. |
| Text.DigitRunOf | i3lock-fancy-c.cpp:182 | A digit run followed by a non-digit is read in full. |
| Commands.ConvertInPlace | i3lock-fancy-c.cpp:262 | A `convert` command built on an image path starts by reading that image, and taking it apart again gives back exactly the operations it was built with. |
| Commands.BaseEffectsCommand | i3lock-fancy-c.cpp:262 | The base pass rewrites the image with the hue followed by the effect. |
| Commands.OverlayCommand | i3lock-fancy-c.cpp:274 | The overlay pass rewrites the image with exactly the overlays. |
| Commands.SequentialCommand | i3lock-fancy-c.cpp:296 | The sequential pass rewrites the image with the base pass's operations followed by the overlays. |
| Commands.StyledLockCommand | i3lock-fancy-c.cpp:306-310 | The styled locker command shows exactly the image path. |
| Commands.BasicLockCommand | i3lock-fancy-c.cpp:313 | The basic locker command shows exactly the image path. |
| Settings.LanguageCode | i3lock-fancy-c.cpp:171 | The language code has two characters exactly when `LANG` has at least two, and is then `LANG`'s first two characters; otherwise it is empty. |
| Settings.LocalizedText | i3lock-fancy-c.cpp:166-178 | The prompt is the table entry for the code of `LANG`, or the English prompt when `LANG` is unset or its code is not in the table. |
| Settings.LocalizedTextByCode | i3lock-fancy-c.cpp:169-171 | Only the first two characters of `LANG` choose the prompt. |
| Settings.FirstInstalled | i3lock-fancy-c.cpp:93-107 | The tool chosen is installed and every earlier tool in the preference order is not. When no tool is chosen, none is installed. |
| Settings.FirstInstalledCases | i3lock-fancy-c.cpp:93-100 | `maim` is chosen when installed, else `scrot` when installed, else `import` when installed, else no tool. |
| Settings.DetectScreenshotTool | i3lock-fancy-c.cpp:91-111 | The loop returns the command of the detection function. |
| Settings.TemplatesShape | i3lock-fancy-c.cpp:93-97 | The three templates are `maim`, `scrot -z` and `import -window root`, each with the placeholder between double quotes, and no command head contains `{`. |
| Settings.DetectedCommand | i3lock-fancy-c.cpp:91-111 | The command is `maim` if installed, else `scrot -z`, else `import -window root` whether or not `import` is installed, each on the quoted image path. |
| Settings.JoinArguments | i3lock-fancy-c.cpp:384-387 | The loop joins the arguments with single spaces. |
| Settings.CustomCommand | i3lock-fancy-c.cpp:384-393 | A user-given screenshot command starts with the joined arguments and always mentions the image path. |
| Settings.CustomCommandMentionsImage | i3lock-fancy-c.cpp:384-393 | When the joined arguments mention the image path they are the command unchanged; when they do not, the command is them followed by a space and the quoted path. |
| Settings.BetweenFirstSpaces | i3lock-fancy-c.cpp:134-137 | The text cut out between the first two spaces contains no space. |
| Settings.BetweenFirstSpacesCut | i3lock-fancy-c.cpp:134-137 | The cut exists exactly when the line has two spaces. It is the text after the first space, up to the next space. |
| Settings.SecondWord | i3lock-fancy-c.cpp:134-137 | The corrected extraction gives a non-empty word without spaces. |
| Settings.SecondWordOf | i3lock-fancy-c.cpp:134-137 | On a line with at least two words, whatever spaces surround them, the corrected extraction is the second word. |
| Settings.SecondWordNone | i3lock-fancy-c.cpp:134-137 | A line with at most one word has no second word. |
| Settings.FontScan | i3lock-fancy-c.cpp:131-141 | A font the scan finds contains no space. |
| Settings.FontScanFound | i3lock-fancy-c.cpp:131-138 | A font the scan finds was cut from the line just before a line that contains the target. |
| Settings.FontScanFirstHit | i3lock-fancy-c.cpp:131-141 | The scan answers with the font of the line before the first line that names the family. |
| Settings.FontScanNoHit | i3lock-fancy-c.cpp:131-141 | Without a usable family line the scan finds nothing. |
| Settings.ScanFontListing | i3lock-fancy-c.cpp:128-141 | The loop over the listing, which keeps the previous line, returns what the scan function describes. |
| Settings.FontScanFamily | i3lock-fancy-c.cpp:127-138 | A font found for a family was cut from the line just before a line that contains `family: `. |
| Settings.DefaultFont | i3lock-fancy-c.cpp:114-147 | The method returns the detected font or the fallback, as the detection function says. |
| Settings.DetectedFont | i3lock-fancy-c.cpp:114-147 | When either tool prints nothing the font is `DejaVu-Sans`; any other font was cut from the line before a line of the listing that contains `family: `. |
| Settings.DetectedFontScans | i3lock-fancy-c.cpp:114-141 | A font other than the fallback comes from a non-empty family on the first line `fc-match` prints, and is what the scan of the listing finds for `family: ` followed by that family. |
| Settings.FontLineSecondWord | i3lock-fancy-c.cpp:134-137 | On an ImageMagick `  Font: <name>` line, the corrected extraction yields the name. |
| Settings.IndentedLineBetween | i3lock-fancy-c.cpp:134-137 | On a line starting with two spaces, the as-written extraction yields the empty string. |
| Settings.AsWrittenOnIndentedListing | i3lock-fancy-c.cpp:114-147 | On any listing where the line before each `family:` line is empty or indented, detection as written yields the empty string or the fallback, whatever `fc-match` prints. |
| Settings.ListingLines | i3lock-fancy-c.cpp:128-132 | An entry of the listing reads as the font line followed by a line that contains `family: <family>`. |
| Settings.ListingFont | i3lock-fancy-c.cpp:116-141 | For a listing whose first entry is of the family `fc-match` names, the detected font is what the extraction takes from that entry's font line. |
| Settings.FontDetectionAsWritten | i3lock-fancy-c.cpp:131-137 | As written, detection on ImageMagick's listing layout yields the empty string. |
| Settings.FontDetectionCorrected | i3lock-fancy-c.cpp:131-137 | With the second word taken, detection yields the font's name. |
| Geometry.RunEnd | i3lock-fancy-c.cpp:182 | The end of the maximal digit run: everything before it is a digit and the character at it is not. |
| Geometry.MatchAt | i3lock-fancy-c.cpp:182 | An anchored match has four non-empty digit groups. |
| Geometry.MatchAtComplete | i3lock-fancy-c.cpp:182 | Whatever the pattern accepts at an index, the anchored matcher reports. |
| Geometry.MatchAtSound | i3lock-fancy-c.cpp:182 | Whatever the anchored matcher reports, the pattern accepts. |
| Geometry.MatchAtIsPattern | i3lock-fancy-c.cpp:182 | The anchored matcher and the declarative pattern agree, in both directions. |
| Geometry.FirstMatchFrom | i3lock-fancy-c.cpp:204 | The result is the first index from which a match starts; when there is none, no index matches. |
| Geometry.Search | i3lock-fancy-c.cpp:204 | A match the search reports has four non-empty digit groups. |
| Geometry.SearchIsLeftmostPattern | i3lock-fancy-c.cpp:204 | `regex_search` fails exactly when the pattern occurs nowhere. When it succeeds, it reports the pattern's leftmost occurrence. |
| Geometry.SearchLeftmost | i3lock-fancy-c.cpp:204 | An occurrence of the pattern with none to its left is the one the search reports. |
| Geometry.ToRect | i3lock-fancy-c.cpp:207-210 | The four numbers are read exactly when each fits in an `int`, and they are then the groups' decimal values. |
| Geometry.MonitorOf | i3lock-fancy-c.cpp:202-210 | A line contributes nothing exactly when the search fails. It is out of range only when a match's numbers do not all fit in `int`, and a monitor it contributes is the rectangle of the four matched groups' decimal values, which fits in `int`. |
| Geometry.Collect | i3lock-fancy-c.cpp:207-210 | The monitors collected are no more than the lines, and each is the monitor of some line. |
| Geometry.CollectFails | i3lock-fancy-c.cpp:207-210 | The whole scan fails exactly when some line's numbers are out of range. |
| Geometry.Monitors | i3lock-fancy-c.cpp:202-210 | Each monitor of a listing is the monitor read from one of its lines, and there are no more monitors than lines. |
| Geometry.MonitorsCons | i3lock-fancy-c.cpp:202-210 | The first line is skipped, is fatal, or adds its monitor in front of those that follow. |
| Geometry.MonitorsAppend | i3lock-fancy-c.cpp:202-223 | Scanning two listings one after the other gives their monitors in order. |
| Geometry.NonMatchingLineIgnored | i3lock-fancy-c.cpp:204 | Inserting a line without a geometry changes nothing. |
| Geometry.OutOfRangeLineFails | i3lock-fancy-c.cpp:207-210 | A line whose numbers are out of range makes the whole scan fail, wherever it is. |
| Geometry.SearchRectText | i3lock-fancy-c.cpp:182-204 | The geometry text `xrandr` writes for a rectangle is found with its four groups, whatever digit-free prefix and non-digit suffix surround it. |
| Geometry.MonitorOfLine | i3lock-fancy-c.cpp:202-210 | Such a line yields exactly that rectangle. |
| Geometry.IconPosition | i3lock-fancy-c.cpp:213-214 | The icon's centre sits on the monitor's centre, with odd sizes rounded down. |
| Geometry.TextAnchor | i3lock-fancy-c.cpp:215-216 | The text anchor sits 142 left of and 160 below the monitor's centre, with odd sizes rounded down. |
| Geometry.PlacementOf | i3lock-fancy-c.cpp:213-216 | The text anchor is 112 left of and 190 below the icon's corner. |
| Geometry.PlacementTranslates | i3lock-fancy-c.cpp:213-216 | Moving a monitor moves its icon and text anchor by the same offset. |
| Geometry.PlacementsAt | i3lock-fancy-c.cpp:202-216 | Each monitor gets its own placement, in listing order. |
| Geometry.FullHdPlacement | i3lock-fancy-c.cpp:213-216 | For `1920x1080+0+0` the text anchor is (818,700) and the icon is at (930,510). |
| Geometry.SecondMonitorPlacement | i3lock-fancy-c.cpp:213-216 | For `1280x1024+1920+0` the text anchor is (2418,672) and the icon is at (2530,482). |
| Geometry.PartsFor | i3lock-fancy-c.cpp:196-200 | The font piece names the font and ends with stroke width 2; both text positions follow ` -annotate +`, the second after stroke width 1; the third piece places `/usr/share/i3lock-fancy-c/icons/lock.png` with `-geometry +`; the fragment ends with ` -composite`; every piece after a coordinate starts with a non-digit, so a fragment can be read back. |
| Geometry.Render | i3lock-fancy-c.cpp:222 | The overlays are empty exactly when there are no monitors. |
| Geometry.RenderAppend | i3lock-fancy-c.cpp:222 | One more monitor appends exactly its fragment. |
| Geometry.ScanStep | i3lock-fancy-c.cpp:202-210 | One loop iteration skips a line, stops the scan, or records one monitor. |
| Geometry.MonitorFragment | i3lock-fancy-c.cpp:213-222 | The loop body writes the fragment of the monitor's placement. |
| Geometry.NextLine | i3lock-fancy-c.cpp:202 | `getline` splits off the first line, and the lines of the rest follow it. |
| Geometry.ScanLine | i3lock-fancy-c.cpp:203-222 | One line yields what the line function says and, for a monitor, the fragment of that monitor's placement. |
| Geometry.ScanListing | i3lock-fancy-c.cpp:192-225 | The loop over the listing returns every monitor's fragment in order, or fails when a number is out of range. |
| Geometry.GenerateOverlays | i3lock-fancy-c.cpp:185-226 | `generate_lock_overlays_fast` returns the overlay text the rendering function describes, and nothing for an empty listing. |
| Geometry.OverlayText | i3lock-fancy-c.cpp:185-226 | Overlays are generated exactly when no monitor number is out of range. |
| Geometry.ReadPointText | i3lock-fancy-c.cpp:219-220 | A position string `<x>+<y>` reads back as the point it was written for. |
| Geometry.FragmentRead | i3lock-fancy-c.cpp:222 | A fragment reads back as its placement, leaving what follows it. |
| Geometry.RenderRead | i3lock-fancy-c.cpp:222 | The overlays read back as the list of placements they were written from. |
| Geometry.OverlaysDescribeMonitors | i3lock-fancy-c.cpp:185-226 | Generated overlays hold one fragment per monitor, in listing order, each at that monitor's placement. They are empty exactly when no monitor is listed. |
| Locker.ScreenshotStep | i3lock-fancy-c.cpp:229-240 | The screenshot command runs once. A non-zero status fails with the command; a missing image fails with the path; the step succeeds exactly when neither happens. |
| Locker.ParallelEffects | i3lock-fancy-c.cpp:251-280 | The parallel path succeeds exactly when the base pass succeeds, the overlays were generated, and the overlay pass succeeds or the overlays are empty. |
| Locker.SequentialEffects | i3lock-fancy-c.cpp:291-300 | The sequential path issues at most one command and succeeds exactly when the overlays were generated and that command succeeds. |
| Locker.ParallelOrder | i3lock-fancy-c.cpp:251-280 | The base pass runs first and its failure is fatal. Overlays that cannot be generated are fatal after it; empty overlays end the step successfully. The overlay pass runs exactly when the base pass succeeded and the overlays are non-empty, it applies those overlays, and its failure is fatal: the step fails exactly when it fails. |
| Locker.SequentialSingleConvert | i3lock-fancy-c.cpp:291-300 | Nothing runs and the step fails when the overlays cannot be generated. Otherwise one `convert` applies the base operations and then the overlays, and the step fails exactly when that command fails. |
| Locker.LockSteps | i3lock-fancy-c.cpp:304-315 | The styled locker runs first. The basic one runs once, exactly when the styled one failed. Both show the image. |
| Locker.RunWith | i3lock-fancy-c.cpp:397-407 | The screenshot command is the first event, and a failing screenshot ends the run with the screenshot step's outcome. |
| Locker.RunOutcome | i3lock-fancy-c.cpp:397-407 | A run fails on the monitor geometry exactly when the screenshot succeeded, the base pass succeeded when the path is parallel, and some `xrandr` line has a number out of `int` range. |
| Locker.EffectsOnlyConvert | i3lock-fancy-c.cpp:251-300 | Every effects step is a `convert` rewriting the image. |
| Locker.LockOnlyAfterSuccess | i3lock-fancy-c.cpp:397-407 | A run succeeds exactly when the screenshot and the effects do. Only then does the locker start; a failed run stops after the step that failed. |
| Locker.RunLockedOrConverted | i3lock-fancy-c.cpp:397-407 | A successful run started the styled locker on the image. A failed run issued nothing after the screenshot but `convert` commands rewriting the image. |
| Locker.InitialFont | i3lock-fancy-c.cpp:323-335 | The constructor's font, detected with the code's two-space cut, is never empty. |
| Locker.Defaults | i3lock-fancy-c.cpp:320-326 | A new locker has the default hue and effect, a non-empty font, and works on the temporary file. |
| Locker.DefaultFontOnImageMagickListing | i3lock-fancy-c.cpp:114-147 | On any font listing in which the line before each `family:` line is empty or indented, as in ImageMagick's layout, a new locker's font is `DejaVu-Sans`, whatever `fc-match` prints. |
| Locker.FastI3Lock.constructor | i3lock-fancy-c.cpp:320-338 | Every field is at its default, with the empty detected font replaced by the fallback, and nothing has run yet. |
| Locker.FastI3Lock.SetGreyscale | i3lock-fancy-c.cpp:366 | Only the hue changes, to the greyscale preset. |
| Locker.FastI3Lock.SetPixelate | i3lock-fancy-c.cpp:367 | Only the effect changes, to pixelation. |
| Locker.FastI3Lock.SetFont | i3lock-fancy-c.cpp:369-373 | Only the font changes, and not when the name is empty. |
| Locker.FastI3Lock.SetScreenshotCommand | i3lock-fancy-c.cpp:375-394 | Only the screenshot command changes: to the detected one when there are no arguments, otherwise to the custom command. |
| Locker.FastI3Lock.Shell | i3lock-fancy-c.cpp:232 | Exactly the command is recorded, and its status is the environment's. |
| Locker.FastI3Lock.TakeScreenshot | i3lock-fancy-c.cpp:229-248 | The step records and raises what the screenshot step says. Settings are unchanged. |
| Locker.FastI3Lock.ApplyEffectsParallel | i3lock-fancy-c.cpp:251-288 | The parallel path records and raises what the parallel effects say, for the overlays the settings produce. |
| Locker.FastI3Lock.BaseThenComposite | i3lock-fancy-c.cpp:259-280 | The base pass, the overlay check and the composite match the parallel effects for the given overlays. |
| Locker.FastI3Lock.ApplyEffectsSequential | i3lock-fancy-c.cpp:291-301 | The sequential path records and raises what the sequential effects say. |
| Locker.FastI3Lock.CombinedPass | i3lock-fancy-c.cpp:294-300 | The single pass matches the sequential effects for the given overlays. |
| Locker.FastI3Lock.ExecuteLock | i3lock-fancy-c.cpp:304-316 | The locker steps are recorded, and the fallback's status is ignored. |
| Locker.FastI3Lock.Run | i3lock-fancy-c.cpp:397-407 | `run` records the events and raises the failure of the run function for the locker's settings, and changes no setting. |
| Locker.FastI3Lock.EffectsThenLock | i3lock-fancy-c.cpp:400-406 | After the screenshot, the effects and, when they succeed, the locker. |
| Locker.FastI3Lock.ApplyEffects | i3lock-fancy-c.cpp:400-404 | The parallel path runs when it is asked for and more than one core is reported; otherwise the sequential path runs. |
| Locker.FastI3Lock.Dispose | i3lock-fancy-c.cpp:341-344 | The destructor removes the image and nothing else. |
| Cli.ApplyFlag | i3lock-fancy-c.cpp:439-458 | An option stops the program exactly when it is help or unknown, with status 0 exactly for help. No option touches the image path, prompt or screenshot command. |
| Cli.ApplyFlags | i3lock-fancy-c.cpp:438-459 | Options never touch the image path, prompt or screenshot command, and an early stop exits with 0 or 1. |
| Cli.ApplyFlagsStops | i3lock-fancy-c.cpp:438-458 | The program stops early exactly when some option is help or unknown, and with 0 exactly when a help comes before every unknown option. |
| Cli.ApplyFlagsPresets | i3lock-fancy-c.cpp:443-454 | Without a stopping option, `-g`, `-p` and `--sequential` take effect exactly when they appear, wherever and however often. |
| Cli.ApplyFlagsFont | i3lock-fancy-c.cpp:449-451 | Without a stopping option, the font is that of the last `-f` with a non-empty name, or unchanged when there is none. |
| Cli.ApplyOptions | i3lock-fancy-c.cpp:437-459 | The option loop leaves the locker, the sequential switch and the exit status as the options function says, and runs nothing. |
| Cli.Prepared | i3lock-fancy-c.cpp:424-465 | The prepared settings always work on the temporary file. |
| Cli.Finish | i3lock-fancy-c.cpp:467-477 | The status is 0 exactly when the run succeeded and 1 otherwise, and the run's events are followed by exactly one removal of the image. |
| Cli.SessionOutcome | i3lock-fancy-c.cpp:411-478 | The program exits with 0 or 1, and its last event is the removal of the image. |
| Cli.Session | i3lock-fancy-c.cpp:411-478 | `main` returns the status and performs the events of the session function. |
| Cli.RunThenDispose | i3lock-fancy-c.cpp:467-477 | A failed run exits with 1 and a successful one with 0, and the image is removed after the run. |
| Cli.RunIssuesCommandsOnly | i3lock-fancy-c.cpp:397-407 | A run only issues shell commands. |
| Cli.SessionRemovesImageLast | i3lock-fancy-c.cpp:423-478 | On every path the program's last act is removing the image, once, after shell commands only. |
| Cli.StoppingOptionRunsNothing | i3lock-fancy-c.cpp:440-457 | A help or unknown option means nothing runs and the image is removed. The status is 0 exactly when help comes first. |
| Cli.BareInvocationRunsDefaults | i3lock-fancy-c.cpp:413-421 | A bare invocation runs the defaults in parallel and removes the image. |
| Cli.SessionRunsPrepared | i3lock-fancy-c.cpp:423-477 | Without a help or unknown option, the program runs the prepared locker, in parallel unless `--sequential` was given, and then removes the image. |
| Cli.SuccessMeansLocked | i3lock-fancy-c.cpp:467-477 | Past the options, status 0 means the styled locker ran on the image. Status 1 means every event between the screenshot and the removal was a `convert` on the image. |

## Left out

- Processes are not run. Each command started with `std::system` is an
  event, and its exit status comes from `Environment.failing`. The outputs of `xrandr`, `fc-match` and
  `convert -list font` are parameters, and so is whether the screenshot file
  exists.
- The `which` cache of `command_exists_cached` (lines 75-88) is left out.
  Tool availability is a set of installed names. The cache only saves
  repeated queries, so the answers are the same.
- `create_temp_file_fast` (lines 150-163): the name `mkstemps` chooses is a
  `Host` parameter. Its failure, and any other exception from the
  constructor, is not modelled: `main` would then exit with 1 and remove no
  file.
- Timing and diagnostics on standard error, `print_help`'s text and the
  `reserve` calls have no observable effect on the image or the exit status,
  and are left out.
- `getopt_long` itself is left out. `Cli.Session` receives the options
  already parsed, as `Flag` values, and the operands after them. An `-f`
  missing its argument arrives as `Unknown`.
- Concurrency: the parallel path starts the overlay generation on another
  thread. That thread only reads settings and runs `xrandr`, so it is
  modelled as happening before the base pass, with its exception raised
  after the base pass, as `future::get` raises it.
- `hardware_concurrency` is `Environment.cores`.
- `execute_i3lock_fast` builds its styled command once per process in a
  function-local `static`. A process runs it at most once, so the model
  builds it on each call.
- Signed overflow: the positions are computed in `int` and can overflow for
  numbers close to the `int` limit. The model's integers are unbounded.
- `popen` failing is treated as empty output, as `exec_command_fast` does.
- `exec_command_fast` reads the output in 512-byte pieces; only the
  concatenation is modelled.
- `Locker.FastI3Lock.Run` is specified for the outcome of `Environment`, so
  a command's status cannot depend on what ran before it.

## Findings

| source | as written | input that shows it | evidently intended | confidence | as-written member | corrected member |
|---|---|---|---|---|---|---|
| i3lock-fancy-c.cpp:134-137 | The font name is taken between the first and the second space of the line before `family: <family>`. | ImageMagick lists fonts as `  Font: DejaVu-Sans` over `    family: DejaVu Sans`. The first two spaces are adjacent, so the name cut out is the empty string, and the constructor falls back to `DejaVu-Sans` whatever font `fc-match` named. | Take the second space-separated word of that line (the font name). | not executed | Settings.FontDetectionAsWritten | Settings.FontDetectionCorrected |

The locker in the model uses the extraction as written, as the program
does. `Settings.IndentedLineBetween` shows that, on any line starting with
two spaces, that extraction yields the empty string.
`Settings.AsWrittenOnIndentedListing` lifts this to every listing in which
the line before each `family:` line is empty or indented, and
`Locker.DefaultFontOnImageMagickListing` shows that a new locker then falls
back to `DejaVu-Sans`, whatever `fc-match` prints. The corrected extraction, and what it yields, are
proved alongside in `Settings`.

// The external command lines the locker hands to the shell: the ImageMagick
// `convert` calls that blur and decorate the screenshot, and the two
// `i3lock` invocations.

module Commands {
  import opened Wrappers
  import opened Text

  // ---------------------------------------------------------------------
  // Effect presets

  /** Darkens the image (gamma 0.6). */
  const DEFAULT_HUE: string := "-level 0%,100%,0.6"

  /** Darkens the image and averages its channels into grey. */
  const GREYSCALE_HUE: string := "-level 0%,100%,0.6" + " -set colorspace Gray -separate -average"

  /** A cheap blur: shrink to a tenth with a Gaussian filter, grow back. */
  const DEFAULT_EFFECT: string := "-filter Gaussian -resize 10% -define filter:sigma=1.5 -resize 1000% +profile '*'"

  /** Pixelation: scale to a tenth and back without filtering. */
  const PIXELATE_EFFECT: string := "-scale 10% -scale 1000%"

  // ---------------------------------------------------------------------
  // Building and taking apart command lines

  /** A path between double quotes, as every command writes the image path. */
  function Quoted(path: string): string { "\"" + path + "\"" }

  /** The middle of `s` when it starts with `pre` and ends with `post`. */
  function Between(s: string, pre: string, post: string): (r: Option<string>)
    ensures r.Some? ==> s == pre + r.value + post
  {
    if |pre| + |post| <= |s| && s[..|pre|] == pre && s[|s| - |post|..] == post then
      assert s == s[..|pre|] + s[|pre|..|s| - |post|] + s[|s| - |post|..];
      Some(s[|pre|..|s| - |post|])
    else None
  }

  lemma BetweenWrapped(pre: string, mid: string, post: string)
    ensures Between(pre + mid + post, pre, post) == Some(mid)
  {
    var s := pre + mid + post;
    assert s[..|pre|] == pre;
    assert s[|s| - |post|..] == post;
    assert s[|pre|..|s| - |post|] == mid;
  }

  /** The operations of a `convert` command that rewrites `path` in place. */
  function ConvertOps(cmd: string, path: string): Option<string>
  {
    Between(cmd, "convert " + Quoted(path) + " ", " " + Quoted(path))
  }

  /**
   * `convert "<path>" <ops> "<path>"`: an ImageMagick run that rewrites the
   * image in place. It reads and writes the quoted image path and applies
   * exactly the operations it was built with: `ConvertOps` undoes it.
   */
  function ConvertInPlace(path: string, ops: string): (cmd: string)
    ensures ConvertOps(cmd, path) == Some(ops)
    ensures HasPrefix(cmd, "convert " + Quoted(path))
  {
    var pre, post := "convert " + Quoted(path) + " ", " " + Quoted(path);
    BetweenWrapped(pre, ops, post);
    var open := "convert " + Quoted(path);
    assert (pre + ops + post)[..|open|] == open;
    pre + ops + post
  }

  /** The first (parallel) pass: the colour preset, then the blur or pixelation. */
  function BaseEffectsCommand(path: string, hue: string, effect: string): (cmd: string)
    ensures ConvertOps(cmd, path) == Some(hue + " " + effect)
  {
    ConvertInPlace(path, hue + " " + effect)
  }

  /** The second (parallel) pass: the text and icon overlays. */
  function OverlayCommand(path: string, overlays: string): (cmd: string)
    ensures ConvertOps(cmd, path) == Some(overlays)
  {
    ConvertInPlace(path, overlays)
  }

  /**
   * The single sequential pass: colour, effect and overlays in one run,
   * that is the base pass's operations followed by the overlay pass's.
   */
  function SequentialCommand(path: string, hue: string, effect: string, overlays: string): (cmd: string)
    ensures ConvertOps(cmd, path) == Some((hue + " " + effect) + " " + overlays)
  {
    ConvertInPlace(path, hue + " " + effect + " " + overlays)
  }

  // ---------------------------------------------------------------------
  // The locker

  /** `i3lock -n` with the translucent ring colours of the fancy style. */
  const STYLED_LOCK: string :=
    "i3lock -n " + "--textcolor=ffffff00 --insidecolor=ffffff1c --ringcolor=ffffff3e "
    + "--linecolor=ffffff00 --keyhlcolor=00000080 --ringvercolor=00000000 "
    + "--separatorcolor=22222260 --insidevercolor=0000001c --ringwrongcolor=00000055 "
    + "--insidewrongcolor=0000001c -i "

  /** The styled locker on the image, its output discarded; it shows exactly that image. */
  function StyledLockCommand(path: string): (cmd: string)
    ensures StyledLockImage(cmd) == Some(path)
  {
    var cmd := STYLED_LOCK + Quoted(path) + " >/dev/null 2>&1";
    assert cmd == (STYLED_LOCK + "\"") + path + "\" >/dev/null 2>&1";
    BetweenWrapped(STYLED_LOCK + "\"", path, "\" >/dev/null 2>&1");
    cmd
  }

  /**
   * The plain fallback locker, for builds of `i3lock` without the colour
   * options; it shows exactly the given image.
   */
  function BasicLockCommand(path: string): (cmd: string)
    ensures BasicLockImage(cmd) == Some(path)
  {
    var cmd := "i3lock -ne -i " + Quoted(path);
    assert cmd == "i3lock -ne -i \"" + path + "\"";
    BetweenWrapped("i3lock -ne -i \"", path, "\"");
    cmd
  }

  /** The image a locker command displays. */
  function StyledLockImage(cmd: string): Option<string>
  {
    Between(cmd, STYLED_LOCK + "\"", "\" >/dev/null 2>&1")
  }

  function BasicLockImage(cmd: string): Option<string>
  {
    Between(cmd, "i3lock -ne -i \"", "\"")
  }
}

/** `YouTubeController`: the URL check used by the customtkinter front end, and the yt-dlp
    option dictionary that `downloadVideo` builds for one video. The command-line downloader and
    the tkinter front end build the same dictionary, key for key, and share this definition. */
module YouTubeController {
  import opened Wrappers
  import opened PyText
  import UrlValidator

  /** Which callback a `progress_hooks` list holds. */
  datatype Hook =
    | CliProgressPrinter
    | GuiProgressHook
    | FrameProgressHook
    | PlaylistProgressHook

  /** The values an option dictionary holds. */
  datatype OptValue =
    | Text(s: string)
    | Flag(b: bool)
    | Hooks(hooks: seq<Hook>)

  /** The keys the programs write into yt-dlp's option dictionaries; each stands for the
      string key named in its comment. */
  datatype OptName =
    | FormatKey              // 'format'
    | OuttmplKey             // 'outtmpl'
    | RestrictFilenamesKey   // 'restrictfilenames'
    | NoPlaylistKey          // 'noplaylist'
    | QuietKey               // 'quiet'
    | NoWarningsKey          // 'no_warnings'
    | IgnoreErrorsKey        // 'ignoreerrors'
    | MergeOutputFormatKey   // 'merge_output_format'
    | ProgressHooksKey       // 'progress_hooks'

  type Options = map<OptName, OptValue>

  /** `isValidUrl(url)`: the raw-string pattern, read by `re`, is the same pattern as the other
      copies, so the one matcher serves. */
  predicate IsValidUrl(url: string)
    ensures IsValidUrl(url) <==> UrlValidator.MatchesAtStart(url)
  {
    UrlValidator.ValidUrlIffPatternPrefix(url);
    UrlValidator.IsValidUrl(url)
  }

  /** A call of yt-dlp's `download`: the URL and the option dictionary it is given. */
  datatype DownloadJob = DownloadJob(url: string, opts: Options)

  const SelectorHead := "bestvideo[height<="
  const SelectorMiddle := "]+bestaudio/best[height<="

  /** `f'bestvideo[height<={target_height}]+bestaudio/best[height<={target_height}]'` */
  function FormatSelector(targetHeight: nat): string {
    SelectorHead + ShowNat(targetHeight) + SelectorMiddle + ShowNat(targetHeight) + "]"
  }

  /** Reads the two height bounds back out of a selector of that shape: the bound of the
      video-plus-audio alternative and the bound of the fallback. */
  function ParseSelector(s: string): Option<(nat, nat)> {
    match ReadNumberAfter(s, SelectorHead)
    case None => None
    case Some((h1, r1)) =>
      match ReadNumberAfter(r1, SelectorMiddle)
      case None => None
      case Some((h2, r2)) => if r2 == "]" then Some((h1, h2)) else None
  }

  /** Both alternatives of the selector are bounded by the target height, and no other. */
  lemma SelectorBounds(h: nat)
    ensures ParseSelector(FormatSelector(h)) == Some((h, h))
  {
    var d := ShowNat(h);
    var r1 := SelectorMiddle + d + "]";
    Regroup(SelectorHead, d, SelectorMiddle, d, "]");
    assert SelectorMiddle[0] == ']' && "]"[0] == ']';
    ReadNumberAfterOf(SelectorHead, d, r1);
    ReadNumberAfterOf(SelectorMiddle, d, "]");
    ShowNatValue(h);
  }

  /** Different targets give different selectors. */
  lemma SelectorInjective(h1: nat, h2: nat)
    requires FormatSelector(h1) == FormatSelector(h2)
    ensures h1 == h2
  {
    SelectorBounds(h1);
    SelectorBounds(h2);
  }

  const OutputName := "%(title)s [%(resolution)s].%(ext)s"

  /** `os.path.join(output_path, '%(title)s [%(resolution)s].%(ext)s')`: the file name pattern,
      placed under the output directory. */
  function OutputTemplate(outputPath: string): (r: string)
    ensures StartsWith(r, outputPath) && EndsWith(r, OutputName)
  {
    assert OutputName[0] == '%';
    PathJoin(outputPath, OutputName)
  }

  const SingleVideoKeys: set<OptName> :=
    {FormatKey, OuttmplKey, RestrictFilenamesKey, NoPlaylistKey, QuietKey, MergeOutputFormatKey, ProgressHooksKey}

  /** The dictionary `downloadVideo` passes to yt-dlp. */
  function DownloadOptions(outputPath: string, targetHeight: nat, hook: Hook): (opts: Options)
    ensures opts.Keys == SingleVideoKeys
    ensures opts[FormatKey] == Text(FormatSelector(targetHeight))
    ensures opts[OuttmplKey].Text?
    ensures StartsWith(opts[OuttmplKey].s, outputPath) && EndsWith(opts[OuttmplKey].s, OutputName)
    ensures opts[RestrictFilenamesKey] == Flag(true) && opts[NoPlaylistKey] == Flag(true)
    ensures opts[QuietKey] == Flag(false) && opts[MergeOutputFormatKey] == Text("mp4")
    ensures opts[ProgressHooksKey] == Hooks([hook])
  {
    map[
      FormatKey := Text(FormatSelector(targetHeight)),
      OuttmplKey := Text(OutputTemplate(outputPath)),
      RestrictFilenamesKey := Flag(true),
      NoPlaylistKey := Flag(true),
      QuietKey := Flag(false),
      MergeOutputFormatKey := Text("mp4"),
      ProgressHooksKey := Hooks([hook])
    ]
  }

  /** The dictionary bounds both alternatives of its format by the target height. */
  lemma DownloadOptionsBound(outputPath: string, targetHeight: nat, hook: Hook)
    ensures var opts := DownloadOptions(outputPath, targetHeight, hook);
      opts[FormatKey].Text? && ParseSelector(opts[FormatKey].s) == Some((targetHeight, targetHeight))
  {
    SelectorBounds(targetHeight);
  }
}

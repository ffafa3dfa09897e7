/** `YouTubeDownloaderGUI`, the tkinter front end: the window's state (entry texts, the video
    information, the quality combo box, the buttons, the progress bar and the status label) and
    the callbacks that change it. The worker threads are not modelled: what a worker hands back
    to the main loop is a parameter of the callback it schedules. */
module DownloaderGui {
  import opened Wrappers
  import opened PyText
  import opened Formats
  import opened QualityPresets
  import opened ProgressHook
  import opened YouTubeController
  import UrlValidator

  /** `is_valid_youtube_url(url)`: the window's copy of the pattern. */
  function IsValidYoutubeUrl(url: string): (ok: bool)
    ensures ok <==> UrlValidator.MatchesAtStart(url)
  {
    UrlValidator.ValidUrlIffPatternPrefix(url);
    UrlValidator.IsValidUrl(url)
  }

  /** The job `start_download` hands to its worker: the worker looks the combo box's text before
      `' - '` up in the table (KeyError, and no download, where it is not a key) and builds the
      option dictionary for that row's height. */
  function JobFor(url: string, outputPath: string, selection: string): (job: Option<DownloadJob>)
    ensures job.Some? <==> Lookup(SplitHead(selection, " - ")).Some?
    ensures forall p :: p in Presets && selection == OptionLabel(p) ==>
      job == Some(DownloadJob(url, DownloadOptions(outputPath, p.height, GuiProgressHook)))
  {
    LabelsLookUp();
    var preset := Lookup(SplitHead(selection, " - "));
    if preset.Some? then Some(DownloadJob(url, DownloadOptions(outputPath, preset.value.height, GuiProgressHook)))
    else None
  }

  /** A selection taken from the combo box always starts the download of its own row. */
  lemma SelectedLabelDownloads(url: string, outputPath: string, selection: string)
    requires IsPresetLabel(selection)
    ensures exists p ::
      && p in Presets && selection == OptionLabel(p)
      && JobFor(url, outputPath, selection) == Some(DownloadJob(url, DownloadOptions(outputPath, p.height, GuiProgressHook)))
  {
    var p := LabelLookup(selection);
  }

  /** Before any option is shown the combo box reads `""`, which is not a key: the worker
      stops on KeyError. */
  lemma EmptySelectionNoJob(url: string, outputPath: string)
    ensures JobFor(url, outputPath, "") == None
  {
    assert SplitHead("", " - ") == "";
  }

  /** Everything the callbacks read or write. */
  datatype WindowState = WindowState(
    url: string,
    path: string,
    videoInfo: Option<VideoInfo>,
    titleText: string,
    channelText: string,
    qualityValues: seq<string>,
    selection: string,
    downloadEnabled: bool,
    fetchEnabled: bool,
    fetchText: string,
    progress: real,
    status: string)

  /** The title and channel labels after `update_video_info` has read them. */
  function ShowInfo(s: WindowState, info: VideoInfo): WindowState {
    s.(titleText := info.title.GetOr("Unknown"), channelText := info.channel.GetOr("Unknown"))
  }

  /** The combo box after it has been given `options`: the first option is selected and the
      download button enabled only when there is one; otherwise both are left as they were. */
  function ShowOptions(s: WindowState, options: seq<string>): (r: WindowState)
    ensures r.qualityValues == options
    ensures options != [] ==> r.selection == options[0] && r.downloadEnabled
    ensures options == [] ==> r.selection == s.selection && r.downloadEnabled == s.downloadEnabled
  {
    if options != [] then s.(qualityValues := options, selection := options[0], downloadEnabled := true)
    else s.(qualityValues := options)
  }

  /** The window after `reset_fetch_button`: the fetch button enabled and relabelled, the
      status cleared. */
  function FetchReset(s: WindowState): (r: WindowState)
    ensures r.fetchEnabled && r.fetchText == "Fetch Video Info" && r.status == ""
    ensures r.(fetchEnabled := s.fetchEnabled, fetchText := s.fetchText, status := s.status) == s
  {
    s.(fetchEnabled := true, fetchText := "Fetch Video Info", status := "")
  }

  class YouTubeDownloaderGUI {
    var url: string              // url_var
    var path: string             // path_var
    var videoInfo: Option<VideoInfo>
    var titleText: string        // title_label
    var channelText: string      // channel_label
    var qualityValues: seq<string>
    var selection: string        // quality_combo.get()
    var downloadEnabled: bool
    var fetchEnabled: bool
    var fetchText: string
    var progress: real           // progress_var
    var status: string           // status_label

    ghost function State(): WindowState
      reads this
    {
      WindowState(url, path, videoInfo, titleText, channelText, qualityValues, selection,
        downloadEnabled, fetchEnabled, fetchText, progress, status)
    }

    /** The combo box only ever holds option labels, and its selection is empty or one of them. */
    ghost predicate Valid()
      reads this
    {
      ComboHoldsLabels(qualityValues, selection)
    }

    /** `__init__` and `setup_gui`; `cwd` stands for `os.getcwd()`. */
    constructor (cwd: string)
      ensures Valid()
      ensures State() == WindowState("", PathJoin(cwd, "downloads"), None, "", "", [], "",
        false, true, "Fetch Video Info", 0.0, "")
    {
      url, path, videoInfo := "", PathJoin(cwd, "downloads"), None;
      titleText, channelText := "", "";
      qualityValues, selection := [], "";
      downloadEnabled, fetchEnabled, fetchText := false, true, "Fetch Video Info";
      progress, status := 0.0, "";
    }

    /** `browse_directory`, with the dialog's answer as a parameter (`""` when cancelled). */
    method BrowseDirectory(directory: string)
      requires Valid()
      modifies this
      ensures Valid()
      ensures State() == old(State()).(path := if directory != "" then directory else old(path))
    {
      if directory != "" {
        path := directory;
      }
    }

    /** `fetch_video_info`: a stripped URL that fails the check is refused before anything
        changes; otherwise the fetch button is disabled and the URL to fetch is returned. */
    method FetchVideoInfo() returns (fetchUrl: Option<string>)
      requires Valid()
      modifies this
      ensures Valid()
      ensures fetchUrl.Some? <==> UrlValidator.MatchesAtStart(Strip(old(url)))
      ensures fetchUrl.None? ==> State() == old(State())
      ensures fetchUrl.Some? ==>
        && fetchUrl.value == Strip(old(url))
        && State() == old(State()).(fetchEnabled := false, fetchText := "Fetching...",
          status := "Fetching video information...")
    {
      var u := Strip(url);
      if !IsValidYoutubeUrl(u) {
        return None;
      }
      fetchEnabled, fetchText := false, "Fetching...";
      status := "Fetching video information...";
      fetchUrl := Some(u);
    }

    /** The callbacks the fetch worker schedules: `update_video_info` after a successful
        `extract_info` (which stored its answer in `video_info`), `show_error` after a failed
        one (None), and `reset_fetch_button` in either case. It returns the bound that
        `update_video_info` compared against, None where it compared against nothing. */
    method FetchCompleted(result: Option<VideoInfo>) returns (bound: Option<int>)
      requires Valid()
      modifies this
      ensures Valid()
      ensures result.None? ==> bound.None? && State() == FetchReset(old(State()))
      ensures result.Some? && !InfoTruthy(result.value) ==>
        bound.None? && State() == FetchReset(old(State()).(videoInfo := result))
      ensures result.Some? && InfoTruthy(result.value) ==>
        var info := result.value;
        var heights := HeightSet(FormatList(info));
        var shown := ShowInfo(old(State()).(videoInfo := result), info);
        && (bound.None? <==> exists v :: v in heights && !v.IntHeight?)
        && (bound.None? ==> State() == FetchReset(shown))
        && (bound.Some? ==>
          && IsMaxOrDefault(heights, bound.value)
          && State() == FetchReset(ShowOptions(shown, OptionLabels(Offered(bound.value)))))
    {
      bound := None;
      if result.Some? {
        videoInfo := result;
        bound := UpdateVideoInfo();
      } else {
        ShowError();
      }
      ResetFetchButton();
    }

    /** `update_video_info`. It returns the bound `max(available_heights, default=0)` it
        compared against, or None where a height that is not an int made the comparison raise
        TypeError and the method stop after the labels. */
    method UpdateVideoInfo() returns (bound: Option<int>)
      requires Valid()
      modifies this
      ensures Valid()
      ensures !HasInfo(old(videoInfo)) ==> bound.None? && State() == old(State())
      ensures HasInfo(old(videoInfo)) ==>
        var info := old(videoInfo).value;
        var heights := HeightSet(FormatList(info));
        && (bound.None? <==> exists v :: v in heights && !v.IntHeight?)
        && (bound.None? ==> State() == ShowInfo(old(State()), info))
        && (bound.Some? ==>
          && IsMaxOrDefault(heights, bound.value)
          && State() == ShowOptions(ShowInfo(old(State()), info), OptionLabels(Offered(bound.value))))
    {
      bound := None;
      if !HasInfo(videoInfo) {
        return;
      }
      var info := videoInfo.value;
      titleText := info.title.GetOr("Unknown");
      channelText := info.channel.GetOr("Unknown");
      var heights := CollectHeights(FormatList(info));
      bound := HeightBound(heights);
      if bound.None? {
        return;
      }
      var options := BuildQualityOptions(bound.value);
      OfferedLabels(bound.value);
      ShowQualityOptions(options);
    }

    /** The end of `update_video_info`: the combo box is given the options, and the first is
        selected and the download button enabled when there is one. */
    method ShowQualityOptions(options: seq<string>)
      requires Valid()
      requires forall v :: v in options ==> IsPresetLabel(v)
      modifies this
      ensures Valid()
      ensures State() == ShowOptions(old(State()), options)
    {
      qualityValues := options;
      if options != [] {
        assert options[0] in options;
        selection := options[0];
        downloadEnabled := true;
      }
    }

    /** `reset_fetch_button` */
    method ResetFetchButton()
      requires Valid()
      modifies this
      ensures Valid()
      ensures State() == FetchReset(old(State()))
    {
      fetchEnabled, fetchText, status := true, "Fetch Video Info", "";
    }

    /** `show_error`: the message box is not modelled, the status label is. */
    method ShowError()
      requires Valid()
      modifies this
      ensures Valid()
      ensures State() == old(State()).(status := "Error occurred")
    {
      status := "Error occurred";
    }

    /** `start_download`, with `os.path.exists(output_path)` and the success of
        `os.makedirs` as parameters. It returns the job the download worker runs, or None where
        nothing is started: no video information, a directory that cannot be made, or a
        selection whose key is not in the table (the worker's KeyError, after which
        `DownloadFailed` runs). */
    method StartDownload(pathExists: bool, makedirsOk: bool) returns (job: Option<DownloadJob>)
      requires Valid()
      modifies this
      ensures Valid()
      ensures !HasInfo(old(videoInfo)) ==> job.None? && State() == old(State())
      ensures HasInfo(old(videoInfo)) && !pathExists && !makedirsOk ==>
        job.None? && State() == old(State()).(status := "Error occurred")
      ensures HasInfo(old(videoInfo)) && (pathExists || makedirsOk) ==>
        && State() == old(State()).(downloadEnabled := false, fetchEnabled := false, progress := 0.0)
        && job == JobFor(old(url), old(path), old(selection))
    {
      job := None;
      if !HasInfo(videoInfo) {
        return;
      }
      if !pathExists && !makedirsOk {
        ShowError();
        return;
      }
      job := JobFor(url, path, selection);
      DisableForDownload();
    }

    /** The start of a download: both buttons are disabled and the progress bar is emptied. */
    method DisableForDownload()
      requires Valid()
      modifies this
      ensures Valid()
      ensures State() == old(State()).(downloadEnabled := false, fetchEnabled := false, progress := 0.0)
    {
      downloadEnabled, fetchEnabled := false, false;
      progress := 0.0;
    }

    /** `download_progress_hook` */
    method DownloadProgressHook(e: HookEvent)
      requires Valid()
      modifies this
      ensures Valid()
      ensures var d := OnEvent(Display(old(progress), old(status)), e);
        State() == old(State()).(progress := d.progress, status := d.status)
    {
      var d := OnEvent(Display(progress, status), e);
      progress, status := d.progress, d.status;
    }

    /** `download_complete`; the message box is not modelled. */
    method DownloadComplete()
      requires Valid()
      modifies this
      ensures Valid()
      ensures State() == old(State()).(status := "Download completed successfully!",
        downloadEnabled := true, fetchEnabled := true)
    {
      status := "Download completed successfully!";
      ResetDownloadButton();
    }

    /** The two callbacks the download worker schedules when `download()` raises: `show_error`
        and `reset_download_button`. */
    method DownloadFailed()
      requires Valid()
      modifies this
      ensures Valid()
      ensures State() == old(State()).(status := "Error occurred", downloadEnabled := true, fetchEnabled := true)
    {
      ShowError();
      ResetDownloadButton();
    }

    /** The same two callbacks as written: the scheduled lambda reads `e`, which Python unbinds
        when the `except` block ends, so it raises NameError when tkinter runs it and only
        `reset_download_button` takes effect. The status keeps whatever the progress hook last
        wrote. */
    method DownloadFailedAsWritten()
      requires Valid()
      modifies this
      ensures Valid()
      ensures old(status) != "Error occurred" ==> status != "Error occurred"
      ensures State() == old(State()).(downloadEnabled := true, fetchEnabled := true)
    {
      ResetDownloadButton();
    }

    /** `reset_download_button` */
    method ResetDownloadButton()
      requires Valid()
      modifies this
      ensures Valid()
      ensures State() == old(State()).(downloadEnabled := true, fetchEnabled := true)
    {
      downloadEnabled, fetchEnabled := true, true;
    }
  }
}

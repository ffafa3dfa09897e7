/** `DownloadOptionsFrame`, the download panel of the customtkinter front end: the quality combo
    box it fills from a video's formats, the output path chosen with the Browse button, the
    buttons, the progress bar and the status label, and the `start_download` that hands the
    chosen height to `YouTubeController.downloadVideo`. */
module YouTubeFrame {
  import opened Wrappers
  import opened PyText
  import opened Formats
  import opened QualityPresets
  import opened ProgressHook
  import opened YouTubeController

  /** What `start_download` passes to `downloadVideo` once `self.QUALITY_PRESETS[self.quality]`
      has been evaluated: None where that indexing raises KeyError. */
  function JobFor(url: string, outputPath: string, quality: string): (job: Option<DownloadJob>)
    ensures job.Some? <==> exists p :: p in Presets && p.key == quality
    ensures forall p :: p in Presets && p.key == quality ==>
      job == Some(DownloadJob(url, DownloadOptions(outputPath, p.height, FrameProgressHook)))
  {
    KeysLookUp();
    var preset := Lookup(quality);
    if preset.Some? then Some(DownloadJob(url, DownloadOptions(outputPath, preset.value.height, FrameProgressHook)))
    else None
  }

  /** `self.quality_combo.get().split('-')[0].strip()` */
  function QualityKey(selection: string): string {
    Strip(SplitHead(selection, "-"))
  }

  /** A label taken from the combo box is parsed back to its own row, and the download asks for
      that row's height. */
  lemma SelectedLabelDownloads(url: string, outputPath: string, selection: string)
    requires IsPresetLabel(selection)
    ensures exists p ::
      && p in Presets && selection == OptionLabel(p)
      && JobFor(url, outputPath, QualityKey(selection)) ==
         Some(DownloadJob(url, DownloadOptions(outputPath, p.height, FrameProgressHook)))
  {
    var p := LabelLookup(selection);
  }

  /** Everything the frame's methods read or write. `outputPath` is None until Browse has run;
      `quality` is None until `start_download` has set `self.quality`. */
  datatype FrameState = FrameState(
    videoInformation: Option<VideoInfo>,
    outputPath: Option<string>,
    pathText: string,
    qualityValues: seq<string>,
    selection: string,
    quality: Option<string>,
    downloadEnabled: bool,
    browseEnabled: bool,
    progress: real,
    status: string)

  /** How a `start_download` call ends. */
  datatype StartOutcome =
    | NoInformation            // `video_information` is falsy: nothing happens
    | NoOutputPath             // `os.path.exists(None)` raises TypeError
    | DirectoryFailed          // `os.mkdir` raised; the error is printed
    | UnknownQuality           // `QUALITY_PRESETS[self.quality]` raises KeyError
    | Downloaded(job: DownloadJob)

  class DownloadOptionsFrame {
    var videoInformation: Option<VideoInfo>
    var outputPath: Option<string>
    var pathText: string          // path_var
    var qualityValues: seq<string>
    var selection: string         // quality_combo.get()
    var quality: Option<string>   // self.quality
    var downloadEnabled: bool
    var browseEnabled: bool
    var progress: real            // progress_var
    var status: string            // status_label

    ghost function State(): FrameState
      reads this
    {
      FrameState(videoInformation, outputPath, pathText, qualityValues, selection, quality,
        downloadEnabled, browseEnabled, progress, status)
    }

    /** The combo box only ever holds option labels, and its selection is empty or one of them. */
    ghost predicate Valid()
      reads this
    {
      ComboHoldsLabels(qualityValues, selection)
    }

    /** `__init__`: no information, no output path, an empty combo box and the status label's
        initial text. */
    constructor ()
      ensures Valid()
      ensures State() == FrameState(None, None, "", [], "", None, true, true, 0.0, "Status")
    {
      videoInformation, outputPath, pathText := None, None, "";
      qualityValues, selection, quality := [], "", None;
      downloadEnabled, browseEnabled := true, true;
      progress, status := 0.0, "Status";
    }

    /** `browse`, with the dialog's answer as a parameter: the answer is stored as it is, `""`
        from a cancelled dialog included. */
    method Browse(path: string)
      requires Valid()
      modifies this
      ensures Valid()
      ensures State() == old(State()).(outputPath := Some(path), pathText := path)
    {
      outputPath := Some(path);
      pathText := path;
    }

    /** `filter_and_sort_quality_options`. It returns the bound `max(available_heights,
        default=0)`, or None where a height that is not an int made the comparison raise
        TypeError, after the information had been stored. */
    method FilterAndSortQualityOptions(info: VideoInfo) returns (bound: Option<int>)
      requires Valid()
      modifies this
      ensures Valid()
      ensures var heights := HeightSet(FormatList(info));
        && (bound.None? <==> exists v :: v in heights && !v.IntHeight?)
        && (bound.Some? ==> IsMaxOrDefault(heights, bound.value))
      ensures bound.None? ==> State() == old(State()).(videoInformation := Some(info))
      ensures bound.Some? ==>
        var options := OptionLabels(Offered(bound.value));
        State() == old(State()).(videoInformation := Some(info), qualityValues := options,
          selection := if options != [] then options[0] else old(selection),
          downloadEnabled := options != [] || old(downloadEnabled))
    {
      videoInformation := Some(info);
      var heights := CollectHeights(FormatList(info));
      bound := HeightBound(heights);
      if bound.None? {
        return;
      }
      var options := BuildQualityOptions(bound.value);
      OfferedLabels(bound.value);
      ShowQualityOptions(options);
    }

    /** The end of `filter_and_sort_quality_options`: the combo box is given the options, and
        the first is selected and the download button enabled when there is one. */
    method ShowQualityOptions(options: seq<string>)
      requires Valid()
      requires forall v :: v in options ==> IsPresetLabel(v)
      modifies this
      ensures Valid()
      ensures State() == old(State()).(qualityValues := options,
        selection := if options != [] then options[0] else old(selection),
        downloadEnabled := options != [] || old(downloadEnabled))
    {
      qualityValues := options;
      if options != [] {
        assert options[0] in options;
        selection := options[0];
        downloadEnabled := true;
      }
    }

    /** `start_download(url)`, with `os.path.exists(self.output_path)` and the success of
        `os.mkdir` as parameters. `self.quality` is set before the path is looked at; the
        buttons are disabled before the table is indexed, so a KeyError leaves them disabled. */
    method StartDownload(url: string, pathExists: bool, mkdirOk: bool) returns (outcome: StartOutcome)
      requires Valid()
      modifies this
      ensures Valid()
      ensures !HasInfo(old(videoInformation)) ==>
        outcome == NoInformation && State() == old(State())
      ensures HasInfo(old(videoInformation)) ==>
        var key := QualityKey(old(selection));
        && (old(outputPath).None? ==>
              outcome == NoOutputPath && State() == old(State()).(quality := Some(key)))
        && (old(outputPath).Some? && !pathExists && !mkdirOk ==>
              outcome == DirectoryFailed && State() == old(State()).(quality := Some(key)))
        && (old(outputPath).Some? && (pathExists || mkdirOk) ==>
              && State() == old(State()).(quality := Some(key), downloadEnabled := false, browseEnabled := false)
              && (JobFor(url, old(outputPath).value, key).None? ==> outcome == UnknownQuality)
              && (JobFor(url, old(outputPath).value, key).Some? ==>
                    outcome == Downloaded(JobFor(url, old(outputPath).value, key).value)))
    {
      if !HasInfo(videoInformation) {
        return NoInformation;
      }
      var key := QualityKey(selection);
      quality := Some(key);
      if outputPath.None? {
        return NoOutputPath;
      }
      if !pathExists && !mkdirOk {
        return DirectoryFailed;
      }
      downloadEnabled, browseEnabled := false, false;
      var job := JobFor(url, outputPath.value, key);
      if job.None? {
        return UnknownQuality;
      }
      outcome := Downloaded(job.value);
    }

    /** The frame's `download_progress_hook`. */
    method DownloadProgressHook(e: HookEvent)
      requires Valid()
      modifies this
      ensures Valid()
      ensures var d := OnEvent(Display(old(progress), old(status)), e);
        State() == old(State()).(progress := d.progress, status := d.status)
    {
      var d := OnEvent(Display(progress, status), e);
      progress, status := d.progress, d.status;
    }
  }
}

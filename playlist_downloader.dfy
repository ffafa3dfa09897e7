/** `YouTubeDownloader`, the playlist downloader: its own nine-row quality table (key and
    height bound, both as text), the prompt that accepts only a key of that table, and
    `download_playlist`, which writes the chosen bound and the numbered file name pattern into
    the option dictionary the object keeps, and counts the playlist's entries. */
module PlaylistDownloader {
  import opened Wrappers
  import opened PyText
  import opened Formats
  import opened QualityPresets
  import opened YouTubeController

  /** A row of `QUALITY_OPTIONS`: the key offered to the user and the height bound, as text. */
  datatype QualityOption = QualityOption(key: string, value: string)

  /** `QUALITY_OPTIONS`, in the dictionary's order. */
  const QualityOptions: seq<QualityOption> := [
    QualityOption("144p", "144"),
    QualityOption("240p", "240"),
    QualityOption("360p", "360"),
    QualityOption("480p", "480"),
    QualityOption("720p", "720"),
    QualityOption("1080p", "1080"),
    QualityOption("1440p", "1440"),
    QualityOption("2160p", "2160"),
    QualityOption("4320p", "4320")
  ]

  /** `get_available_qualities()`: the keys, in table order (the listing it prints is not
      modelled). */
  function GetAvailableQualities(): (r: seq<string>)
    ensures |r| == |QualityOptions|
    ensures forall i :: 0 <= i < |r| ==> r[i] == QualityOptions[i].key
  {
    seq(|QualityOptions|, i requires 0 <= i < |QualityOptions| => QualityOptions[i].key)
  }

  /** Every row's bound is a decimal number and its key is that number followed by `p`. */
  lemma QualityRowsShape()
    ensures forall i :: 0 <= i < |QualityOptions| ==>
      QualityOptions[i].value != [] && AllDigits(QualityOptions[i].value)
    ensures forall i :: 0 <= i < |QualityOptions| ==> QualityOptions[i].key == QualityOptions[i].value + "p"
  {
    TableMirrorsPresets();
    forall i | 0 <= i < |QualityOptions|
      ensures QualityOptions[i].key == QualityOptions[i].value + "p"
    {
      KeySpelling(i);
    }
  }

  lemma KeySpelling(i: nat)
    requires i < |QualityOptions|
    ensures QualityOptions[i].key == QualityOptions[i].value + "p"
  {
  }

  /** Apart from its first row, `144p`, the table is the preset table upside down: the same keys,
      and each bound spells the height of the preset with that key. */
  lemma TableMirrorsPresets()
    ensures QualityOptions[0] == QualityOption("144p", ShowNat(144))
    ensures forall i :: 0 <= i < |Presets| ==>
      && QualityOptions[|Presets| - i].key == Presets[i].key
      && QualityOptions[|Presets| - i].value == ShowNat(Presets[i].height)
  {
    LowSpellings();
    MiddleSpellings();
    HighSpellings();
  }

  lemma LowSpellings()
    ensures ShowNat(144) == "144" && ShowNat(240) == "240" && ShowNat(360) == "360"
  {
  }

  lemma MiddleSpellings()
    ensures ShowNat(480) == "480" && ShowNat(720) == "720" && ShowNat(1080) == "1080"
  {
  }

  lemma HighSpellings()
    ensures ShowNat(1440) == "1440" && ShowNat(2160) == "2160" && ShowNat(4320) == "4320"
  {
  }

  /** A row's bound read as a number. */
  function Bound(o: QualityOption): nat
    requires AllDigits(o.value)
  {
    DigitsValue(o.value)
  }

  /** The bounds run from 144 up to 4320, strictly growing down the table; row `i` past the
      first carries the height of preset row `8 - i`. */
  lemma TableBounds()
    ensures forall i :: 0 <= i < |QualityOptions| ==> AllDigits(QualityOptions[i].value)
    ensures Bound(QualityOptions[0]) == 144 && Bound(QualityOptions[8]) == 4320
    ensures forall i :: 1 <= i < |QualityOptions| ==> Bound(QualityOptions[i]) == Presets[8 - i].height
    ensures forall i, j :: 0 <= i < j < |QualityOptions| ==> Bound(QualityOptions[i]) < Bound(QualityOptions[j])
  {
    QualityRowsShape();
    TableMirrorsPresets();
    PresetsDescending();
    ShowNatValue(144);
    forall i | 1 <= i < |QualityOptions| ensures Bound(QualityOptions[i]) == Presets[8 - i].height {
      ShowNatValue(Presets[8 - i].height);
    }
    forall i, j | 0 <= i < j < |QualityOptions|
      ensures Bound(QualityOptions[i]) < Bound(QualityOptions[j])
    {
      if i > 0 {
        assert Presets[8 - j].height > Presets[8 - i].height;
      }
    }
  }

  /** `self.QUALITY_OPTIONS[quality]`: None where that raises KeyError. */
  function LookupQuality(quality: string): (r: Option<string>)
    ensures r.Some? <==> quality in GetAvailableQualities()
    ensures r.Some? ==> exists o :: o in QualityOptions && o.key == quality && o.value == r.value
  {
    LookupQualityIn(QualityOptions, quality)
  }

  function LookupQualityIn(os: seq<QualityOption>, quality: string): (r: Option<string>)
    ensures r.Some? <==> exists o :: o in os && o.key == quality
    ensures r.Some? ==> exists o :: o in os && o.key == quality && o.value == r.value
  {
    if os == [] then None
    else if os[0].key == quality then Some(os[0].value)
    else LookupQualityIn(os[1..], quality)
  }

  const FormatTail := "][ext=mp4]+bestaudio[ext=m4a]/mp4"

  /** `f'bestvideo[height<={bound}][ext=mp4]+bestaudio[ext=m4a]/mp4'` */
  function PlaylistFormat(bound: string): string {
    SelectorHead + bound + FormatTail
  }

  /** Reads the height bound back out of a format of that shape. */
  function ParsePlaylistBound(s: string): Option<nat> {
    if !StartsWith(s, SelectorHead) then None
    else
      var (ds, rest) := SpanDigits(s[|SelectorHead|..]);
      if ds == [] || rest != FormatTail then None
      else Some(DigitsValue(ds))
  }

  /** The format bounds the video stream by the bound it was given, and by nothing else. */
  lemma PlaylistFormatBound(bound: string)
    requires bound != [] && AllDigits(bound)
    ensures ParsePlaylistBound(PlaylistFormat(bound)) == Some(DigitsValue(bound))
  {
    var s := PlaylistFormat(bound);
    assert s == SelectorHead + (bound + FormatTail);
    assert s[..|SelectorHead|] == SelectorHead;
    assert s[|SelectorHead|..] == bound + FormatTail;
    SpanDigitsOf(bound, FormatTail);
  }

  /** For a key the two tables share, the playlist downloader asks for the same height as the
      single-video downloaders. */
  lemma SharedBoundsAgree(p: Preset)
    requires p in Presets
    ensures var v := LookupQuality(p.key);
      v.Some? && ParsePlaylistBound(PlaylistFormat(v.value)) == Some(p.height)
  {
    TableMirrorsPresets();
    KeysUnique();
    var k :| 0 <= k < |Presets| && Presets[k] == p;
    assert QualityOptions[8 - k].key == p.key;
    assert p.key in GetAvailableQualities();
    var v := LookupQuality(p.key);
    var o :| o in QualityOptions && o.key == p.key && o.value == v.value;
    var m :| 0 <= m < |QualityOptions| && QualityOptions[m] == o;
    assert m == 8 - k;
    RowBound(m);
    PlaylistFormatBound(v.value);
  }

  /** Row `i` past the first bounds the height of preset row `8 - i`. */
  lemma RowBound(i: nat)
    requires 1 <= i < |QualityOptions|
    ensures QualityOptions[i].value != [] && AllDigits(QualityOptions[i].value)
    ensures DigitsValue(QualityOptions[i].value) == Presets[8 - i].height
  {
    TableBounds();
    QualityRowsShape();
  }

  /** No key appears twice in the table. */
  lemma KeysUnique()
    ensures forall i, j :: 0 <= i < j < |QualityOptions| ==> QualityOptions[i].key != QualityOptions[j].key
  {
    TableBounds();
    QualityRowsShape();
    forall i, j | 0 <= i < j < |QualityOptions|
      ensures QualityOptions[i].key != QualityOptions[j].key
    {
      var a, b := QualityOptions[i].value, QualityOptions[j].value;
      assert (a + "p")[..|a|] == a;
      assert (b + "p")[..|b|] == b;
    }
  }

  /** `select_quality`, over the lines the user types: the first line whose stripped text is a
      key is returned, stripped; every line before it is refused. It returns None where the
      lines run out first (the model's stand-in for the loop going on asking). */
  method SelectQuality(script: seq<string>) returns (selected: Option<string>, used: nat)
    ensures used <= |script|
    ensures selected.Some? ==> 1 <= used && selected.value == Strip(script[used - 1])
    ensures selected.Some? ==> selected.value in GetAvailableQualities()
    ensures selected.Some? ==> forall j :: 0 <= j < used - 1 ==> Strip(script[j]) !in GetAvailableQualities()
    ensures selected.None? ==> used == |script|
    ensures selected.None? ==> forall j :: 0 <= j < |script| ==> Strip(script[j]) !in GetAvailableQualities()
  {
    selected, used := None, 0;
    while used < |script|
      invariant used <= |script|
      invariant forall j :: 0 <= j < used ==> Strip(script[j]) !in GetAvailableQualities()
    {
      var qualities := GetAvailableQualities();
      var line := Strip(script[used]);
      used := used + 1;
      if line in qualities {
        return Some(line), used;
      }
    }
  }

  const DefaultFormat := "bestvideo[ext=mp4]+bestaudio[ext=m4a]/mp4"
  const DefaultName := "%(title)s.%(ext)s"
  const PlaylistName := "%(playlist_index)s-%(title)s.%(ext)s"

  /** The dictionary `__init__` stores in `self.ydl_opts`. */
  const InitialOptions: Options := map[
    FormatKey := Text(DefaultFormat),
    OuttmplKey := Text(DefaultName),
    QuietKey := Flag(false),
    NoWarningsKey := Flag(false),
    IgnoreErrorsKey := Flag(true),
    ProgressHooksKey := Hooks([PlaylistProgressHook])
  ]

  /** What `self.ydl_opts` keeps across calls: the constructor's keys, its entries other than
      the format and the file name pattern, and text in those two. */
  predicate FixedOptionsKept(opts: Options) {
    && opts.Keys == InitialOptions.Keys
    && (forall k :: k in InitialOptions && k != FormatKey && k != OuttmplKey ==> opts[k] == InitialOptions[k])
    && opts[FormatKey].Text? && opts[OuttmplKey].Text?
  }

  /** `opts.update({'format': formatSpec, 'outtmpl': outtmpl})`: those two entries are written,
      and every other entry stays as it was. */
  function UpdateOptions(opts: Options, formatSpec: string, outtmpl: string): (r: Options)
    ensures r.Keys == opts.Keys + {FormatKey, OuttmplKey}
    ensures r[FormatKey] == Text(formatSpec) && r[OuttmplKey] == Text(outtmpl)
    ensures forall k :: k in opts && k != FormatKey && k != OuttmplKey ==> r[k] == opts[k]
  {
    opts[FormatKey := Text(formatSpec)][OuttmplKey := Text(outtmpl)]
  }

  /** The constructor's dictionary keeps its fixed entries, and so does every update. */
  lemma UpdateKeepsFixed(opts: Options, formatSpec: string, outtmpl: string)
    ensures FixedOptionsKept(InitialOptions)
    ensures FixedOptionsKept(opts) ==> FixedOptionsKept(UpdateOptions(opts, formatSpec, outtmpl))
  {
  }

  /** The parts of `extract_info`'s answer for a playlist that are read: the title (printed)
      and the entries, None where the `'entries'` key is missing. */
  datatype PlaylistInfo = PlaylistInfo(title: Option<string>, entries: Option<seq<Option<VideoInfo>>>)

  /** `len(playlist_info['entries']) if 'entries' in playlist_info else 0` */
  function VideoCount(info: PlaylistInfo): nat {
    if info.entries.Some? then |info.entries.value| else 0
  }

  /** What `download_playlist` did, for its caller: nothing past a KeyError; the count of a
      playlist whose information was read; the call of `download` that followed it. */
  datatype PlaylistRun = PlaylistRun(videoCount: Option<nat>, job: Option<DownloadJob>)

  class YouTubeDownloader {
    var ydlOpts: Options

    /** `self.ydl_opts` keeps its keys and every entry `download_playlist` does not write. */
    ghost predicate Valid()
      reads this
    {
      FixedOptionsKept(ydlOpts)
    }

    constructor ()
      ensures Valid()
      ensures ydlOpts == InitialOptions
    {
      ydlOpts := InitialOptions;
      UpdateKeepsFixed(InitialOptions, "", "");
    }

    /** `download_playlist(url, quality, download_path)`, with `extract_info`'s answer as a
        parameter (None where it raised). An unknown quality raises KeyError before the
        dictionary is touched; otherwise `update` replaces the format and the file name
        pattern in place, and the replacement stays even when reading the playlist then
        fails. Every exception is caught and printed. */
    method DownloadPlaylist(url: string, quality: string, downloadPath: string, info: Option<PlaylistInfo>)
      returns (run: PlaylistRun)
      requires Valid()
      modifies this
      ensures Valid()
      ensures LookupQuality(quality).None? ==>
        ydlOpts == old(ydlOpts) && run == PlaylistRun(None, None)
      ensures LookupQuality(quality).Some? ==>
        && ydlOpts == UpdateOptions(old(ydlOpts), PlaylistFormat(LookupQuality(quality).value),
                                    PathJoin(downloadPath, PlaylistName))
        && (info.None? ==> run == PlaylistRun(None, None))
        && (info.Some? ==> run == PlaylistRun(Some(VideoCount(info.value)), Some(DownloadJob(url, ydlOpts))))
    {
      var bound := LookupQuality(quality);
      if bound.None? {
        return PlaylistRun(None, None);
      }
      var formatSpec := PlaylistFormat(bound.value);
      UpdateKeepsFixed(ydlOpts, formatSpec, PathJoin(downloadPath, PlaylistName));
      ydlOpts := UpdateOptions(ydlOpts, formatSpec, PathJoin(downloadPath, PlaylistName));
      if info.None? {
        return PlaylistRun(None, None);
      }
      var videoCount := VideoCount(info.value);
      run := PlaylistRun(Some(videoCount), Some(DownloadJob(url, ydlOpts)));
    }
  }

  /** Whatever quality and path a download used, the dictionary still holds the constructor's
      `quiet`, `no_warnings`, `ignoreerrors` and `progress_hooks`, and its format bounds the
      height by the chosen row's bound. */
  lemma OtherOptionsKept(opts: Options, quality: string, downloadPath: string)
    requires FixedOptionsKept(opts)
    requires LookupQuality(quality).Some?
    ensures var v := LookupQuality(quality).value;
      var updated := UpdateOptions(opts, PlaylistFormat(v), PathJoin(downloadPath, PlaylistName));
      && updated[QuietKey] == Flag(false) && updated[NoWarningsKey] == Flag(false)
      && updated[IgnoreErrorsKey] == Flag(true) && updated[ProgressHooksKey] == Hooks([PlaylistProgressHook])
      && AllDigits(v) && ParsePlaylistBound(updated[FormatKey].s) == Some(DigitsValue(v))
  {
    var v := LookupQuality(quality).value;
    var o :| o in QualityOptions && o.key == quality && o.value == v;
    QualityRowsShape();
    PlaylistFormatBound(v);
    var updated := UpdateOptions(opts, PlaylistFormat(v), PathJoin(downloadPath, PlaylistName));
    UpdateKeepsFixed(opts, PlaylistFormat(v), PathJoin(downloadPath, PlaylistName));
    FixedFlags(updated);
  }

  lemma FixedFlags(opts: Options)
    requires FixedOptionsKept(opts)
    ensures opts[QuietKey] == Flag(false) && opts[NoWarningsKey] == Flag(false)
    ensures opts[IgnoreErrorsKey] == Flag(true) && opts[ProgressHooksKey] == Hooks([PlaylistProgressHook])
  {
    assert QuietKey in InitialOptions && NoWarningsKey in InitialOptions;
    assert IgnoreErrorsKey in InitialOptions && ProgressHooksKey in InitialOptions;
  }
}

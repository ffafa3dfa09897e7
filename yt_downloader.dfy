/** The interactive command-line downloader: height extraction, the filter that keeps the
    video formats with a usable height, the largest available height, the quality fallback,
    the request for one video, and the numbered quality menu of its main loop. */
module YtDownloader {
  import opened Wrappers
  import opened PyText
  import opened Formats
  import opened QualityPresets
  import opened YouTubeController

  /** `get_format_height(f)`: `int(height)`, or 0 when the height is missing or `None`, or when
      `int()` raises ValueError or TypeError; it never raises. */
  function FormatHeight(f: Format): (h: int)
    ensures f.height.None? ==> h == 0
    ensures f.height.Some? && PyInt(f.height.value).None? ==> h == 0
  {
    match f.height
    case None => 0
    case Some(v) => PyInt(v).GetOr(0)
  }

  /** An int height is taken as is; a height written as decimal text, with any whitespace
      after it, reads back as the number it spells. */
  lemma FormatHeightOfNumber(codec: Option<string>, n: nat, pad: string)
    requires forall i :: 0 <= i < |pad| ==> IsSpace(pad[i])
    ensures FormatHeight(Format(codec, Some(IntHeight(n)))) == n
    ensures FormatHeight(Format(codec, Some(TextHeight(ShowNat(n) + pad)))) == n
  {
    var s := ShowNat(n);
    assert IsDigit(s[0]) && IsDigit(s[|s| - 1]);
    StripTrailingSpace(s, pad);
    assert Strip(s) == s;
    ParseShowNat(n);
  }

  /** The test of `get_available_formats`: a video codec and a positive height. */
  predicate Keeps(f: Format) {
    IsVideo(f) && FormatHeight(f) > 0
  }

  /** The formats `get_available_formats` returns. */
  function VideoFormats(fs: seq<Format>): seq<Format>
    decreases |fs|
  {
    if fs == [] then []
    else
      var f := fs[|fs| - 1];
      VideoFormats(fs[..|fs| - 1]) + (if Keeps(f) then [f] else [])
  }

  /** `get_available_formats(formats)`: the loop that appends every kept format. */
  method GetAvailableFormats(formats: seq<Format>) returns (videoFormats: seq<Format>)
    ensures videoFormats == VideoFormats(formats)
  {
    videoFormats := [];
    var i := 0;
    while i < |formats|
      invariant 0 <= i <= |formats|
      invariant videoFormats == VideoFormats(formats[..i])
    {
      assert formats[..i + 1][..i] == formats[..i];
      var f := formats[i];
      if IsVideo(f) {
        var height := FormatHeight(f);
        if height > 0 {
          videoFormats := videoFormats + [f];
        }
      }
      i := i + 1;
    }
    assert formats[..i] == formats;
  }

  /** `idx` picks out positions of `fs`, in increasing order. */
  predicate Ascending(idx: seq<nat>, n: nat) {
    (forall j :: 0 <= j < |idx| ==> idx[j] < n)
    && forall j, k :: 0 <= j < k < |idx| ==> idx[j] < idx[k]
  }

  /** The positions of `fs` whose format passes the test, in increasing order. */
  function KeptPositions(fs: seq<Format>): seq<nat>
    decreases |fs|
  {
    if fs == [] then []
    else
      var n := |fs| - 1;
      KeptPositions(fs[..n]) + (if Keeps(fs[n]) then [n] else [])
  }

  lemma {:induction false} KeptPositionsSelect(fs: seq<Format>)
    ensures var idx := KeptPositions(fs);
      Ascending(idx, |fs|) && |idx| == |VideoFormats(fs)|
      && forall j :: 0 <= j < |idx| ==> VideoFormats(fs)[j] == fs[idx[j]]
    decreases |fs|
  {
    if fs != [] {
      var n := |fs| - 1;
      KeptPositionsSelect(fs[..n]);
      var front, vfront := KeptPositions(fs[..n]), VideoFormats(fs[..n]);
      var idx, vf := KeptPositions(fs), VideoFormats(fs);
      forall j | 0 <= j < |front| ensures idx[j] == front[j] && vf[j] == fs[idx[j]] {
        assert fs[..n][front[j]] == fs[front[j]];
      }
    }
  }

  lemma {:induction false} KeptPositionsMembers(fs: seq<Format>)
    ensures forall i :: 0 <= i < |fs| ==> (i in KeptPositions(fs) <==> Keeps(fs[i]))
    decreases |fs|
  {
    if fs != [] {
      var n := |fs| - 1;
      KeptPositionsMembers(fs[..n]);
      KeptPositionsSelect(fs[..n]);
      KeptPositionsGrow(fs, n);
      forall i | 0 <= i < n ensures i in KeptPositions(fs) <==> Keeps(fs[i]) {
        KeptPositionsGrow(fs, i);
        assert fs[..n][i] == fs[i];
      }
    }
  }

  /** Appending a format to the input does not change which earlier positions are kept, and
      the new position is kept exactly when its format passes the test. */
  lemma KeptPositionsGrow(fs: seq<Format>, i: nat)
    requires i < |fs| && Ascending(KeptPositions(fs[..|fs| - 1]), |fs| - 1)
    ensures i < |fs| - 1 ==> (i in KeptPositions(fs) <==> i in KeptPositions(fs[..|fs| - 1]))
    ensures i == |fs| - 1 ==> (i in KeptPositions(fs) <==> Keeps(fs[i]))
  {
  }

  /** The kept formats are the subsequence of the input at exactly the positions whose format
      passes the test, in input order. */
  lemma VideoFormatsPositions(fs: seq<Format>) returns (idx: seq<nat>)
    ensures Ascending(idx, |fs|) && |idx| == |VideoFormats(fs)|
    ensures forall j :: 0 <= j < |idx| ==> VideoFormats(fs)[j] == fs[idx[j]]
    ensures forall i :: 0 <= i < |fs| ==> (i in idx <==> Keeps(fs[i]))
  {
    idx := KeptPositions(fs);
    KeptPositionsSelect(fs);
    KeptPositionsMembers(fs);
  }

  /** A format is returned exactly when it occurs in the input and passes the test. */
  lemma VideoFormatsMembers(fs: seq<Format>, f: Format)
    ensures f in VideoFormats(fs) <==> f in fs && Keeps(f)
  {
    var idx := VideoFormatsPositions(fs);
    var vf := VideoFormats(fs);
    if f in vf {
      var j :| 0 <= j < |vf| && vf[j] == f;
      assert fs[idx[j]] == f;
    }
    if f in fs && Keeps(f) {
      var i :| 0 <= i < |fs| && fs[i] == f;
      assert i in idx;
      var j :| 0 <= j < |idx| && idx[j] == i;
      assert vf[j] == f;
    }
  }

  /** `max((get_format_height(f) for f in fs), default=0)` */
  function MaxHeight(fs: seq<Format>): (m: int)
    ensures fs == [] ==> m == 0
    ensures forall i :: 0 <= i < |fs| ==> FormatHeight(fs[i]) <= m
    ensures fs != [] ==> exists i :: 0 <= i < |fs| && FormatHeight(fs[i]) == m
    decreases |fs|
  {
    if fs == [] then 0
    else if |fs| == 1 then FormatHeight(fs[0])
    else
      var front := fs[..|fs| - 1];
      var m' := MaxHeight(front);
      var h := FormatHeight(fs[|fs| - 1]);
      assert forall i :: 0 <= i < |front| ==> front[i] == fs[i];
      if h > m' then h else m'
  }

  /** The largest kept height is positive exactly when some format is kept, and 0 otherwise. */
  lemma MaxKeptHeight(fs: seq<Format>)
    ensures MaxHeight(VideoFormats(fs)) >= 0
    ensures MaxHeight(VideoFormats(fs)) > 0 <==> exists i :: 0 <= i < |fs| && Keeps(fs[i])
  {
    var vf := VideoFormats(fs);
    if vf != [] {
      VideoFormatsMembers(fs, vf[0]);
      assert FormatHeight(vf[0]) > 0;
      var i :| 0 <= i < |fs| && fs[i] == vf[0];
      assert Keeps(fs[i]);
    } else {
      forall i | 0 <= i < |fs| ensures !Keeps(fs[i]) {
        VideoFormatsMembers(fs, fs[i]);
      }
    }
  }

  /** `list_available_formats(url)`, with yt-dlp's answer as a parameter (None where
      `extract_info` raised): the kept formats, and the preset rows printed as available. */
  method ListAvailableFormats(info: Option<VideoInfo>) returns (videoFormats: seq<Format>, listed: seq<Preset>)
    ensures info.None? ==> videoFormats == [] && listed == []
    ensures info.Some? ==> videoFormats == VideoFormats(FormatList(info.value))
    ensures info.Some? ==> listed == Offered(MaxHeight(videoFormats))
  {
    if info.None? {
      return [], [];
    }
    videoFormats := GetAvailableFormats(FormatList(info.value));
    var maxHeight := MaxHeight(videoFormats);
    listed := Offered(maxHeight);
  }

  /** Lines 117-119 of `download_youtube_video`: an unknown quality becomes `'1080p'`. */
  function NormalizeQuality(quality: string): (r: string)
    ensures Lookup(r).Some?
    ensures Lookup(quality).Some? ==> r == quality
    ensures Lookup(quality).None? ==> r == "1080p"
  {
    PresetKeys();
    LookupKey(Presets[3]);
    if Lookup(quality).Some? then quality else "1080p"
  }

  /** The options `download_youtube_video(url, output_path, quality)` hands to yt-dlp; `cwd`
      stands for `os.getcwd()`, and `dirReady` says whether the output directory exists or
      `os.makedirs` creates it. When it cannot be created the handler returns None before any
      options are built. */
  function DownloadRequest(outputPath: Option<string>, cwd: string, quality: string, dirReady: bool): (opts: Option<Options>)
    ensures opts.Some? <==> dirReady
    ensures opts.Some? ==>
      opts.value.Keys == SingleVideoKeys && opts.value[FormatKey].Text? && opts.value[OuttmplKey].Text?
    ensures opts.Some? && Lookup(quality).Some? ==>
      var h := Lookup(quality).value.height; ParseSelector(opts.value[FormatKey].s) == Some((h, h))
    ensures opts.Some? && Lookup(quality).None? ==> ParseSelector(opts.value[FormatKey].s) == Some((1080, 1080))
    ensures opts.Some? ==> StartsWith(opts.value[OuttmplKey].s, outputPath.GetOr(cwd))
    ensures opts.Some? ==> opts.value[ProgressHooksKey] == Hooks([CliProgressPrinter])
  {
    if !dirReady then None
    else
      var q := NormalizeQuality(quality);
      var path := outputPath.GetOr(cwd);
      PresetKeys();
      LookupKey(Presets[3]);
      DownloadOptionsBound(path, Lookup(q).value.height, CliProgressPrinter);
      Some(DownloadOptions(path, Lookup(q).value.height, CliProgressPrinter))
  }

  /** `input("...output directory...").strip() or "downloads"` */
  function OutputDir(line: string): (dir: string)
    ensures dir != []
    ensures Strip(line) != [] ==> dir == Strip(line)
    ensures Strip(line) == [] ==> dir == "downloads"
  {
    var t := Strip(line);
    if t != [] then t else "downloads"
  }

  // ---------------------------------------------------------------------------------------
  // The quality menu of `main`.
  // ---------------------------------------------------------------------------------------

  /** One tuple `(i, quality, specs)` of `available_qualities`: `i` is the row's position in
      the whole table, counted from 1 by `enumerate(..., 1)`. */
  datatype MenuEntry = MenuEntry(number: nat, preset: Preset)

  /** The comprehension over `enumerate(ps, 1)` that keeps the rows with height at most
      `maxHeight`. */
  function NumberedWithin(ps: seq<Preset>, maxHeight: int): seq<MenuEntry>
    decreases |ps|
  {
    if ps == [] then []
    else
      var n := |ps| - 1;
      NumberedWithin(ps[..n], maxHeight) + (if ps[n].height <= maxHeight then [MenuEntry(n + 1, ps[n])] else [])
  }

  /** `available_qualities` for the largest available height. */
  function MenuEntries(maxHeight: int): seq<MenuEntry> {
    NumberedWithin(Presets, maxHeight)
  }

  /** The menu holds the offered rows, in order, each numbered by its table position. */
  lemma {:induction false} NumberedRows(ps: seq<Preset>, maxHeight: int)
    ensures |NumberedWithin(ps, maxHeight)| == |Within(ps, maxHeight)|
    ensures forall j :: 0 <= j < |Within(ps, maxHeight)| ==>
      var e := NumberedWithin(ps, maxHeight)[j];
      e.preset == Within(ps, maxHeight)[j] && 1 <= e.number <= |ps| && ps[e.number - 1] == e.preset
    decreases |ps|
  {
    if ps != [] {
      var n := |ps| - 1;
      var front := ps[..n];
      NumberedRows(front, maxHeight);
      var es, ws := NumberedWithin(ps, maxHeight), Within(ps, maxHeight);
      var ef, wf := NumberedWithin(front, maxHeight), Within(front, maxHeight);
      assert es == ef + (if ps[n].height <= maxHeight then [MenuEntry(n + 1, ps[n])] else []);
      assert ws == wf + (if ps[n].height <= maxHeight then [ps[n]] else []);
      forall j | 0 <= j < |ws|
        ensures es[j].preset == ws[j] && 1 <= es[j].number <= |ps| && ps[es[j].number - 1] == es[j].preset
      {
        if j < |wf| {
          assert es[j] == ef[j] && ws[j] == wf[j];
          assert front[ef[j].number - 1] == ps[ef[j].number - 1];
        }
      }
    }
  }

  /** On the table, the entry at menu position `j` is row `k + j` of the table, where `k` rows
      were too high; so its number is `k + j + 1`. */
  lemma MenuNumbers(maxHeight: int) returns (k: nat)
    ensures k <= |Presets| && |MenuEntries(maxHeight)| == |Presets| - k
    ensures forall j :: 0 <= j < |MenuEntries(maxHeight)| ==>
      MenuEntries(maxHeight)[j].preset == Presets[k + j] && MenuEntries(maxHeight)[j].number == k + j + 1
  {
    PresetsShape();
    k := NumberedSuffix(Presets, maxHeight);
  }

  /** On a descending table with distinct rows, menu entry `j` is row `k + j`. */
  lemma NumberedSuffix(ps: seq<Preset>, maxHeight: int) returns (k: nat)
    requires Descending(ps)
    ensures k <= |ps| && |NumberedWithin(ps, maxHeight)| == |ps| - k
    ensures forall j :: 0 <= j < |NumberedWithin(ps, maxHeight)| ==>
      NumberedWithin(ps, maxHeight)[j].preset == ps[k + j] && NumberedWithin(ps, maxHeight)[j].number == k + j + 1
  {
    k := WithinIsSuffix(ps, maxHeight);
    NumberedRows(ps, maxHeight);
    var es := NumberedWithin(ps, maxHeight);
    forall j | 0 <= j < |es| ensures es[j].preset == ps[k + j] && es[j].number == k + j + 1 {
      var i := es[j].number - 1;
      assert ps[i] == ps[k + j];
    }
  }

  /** What line 177 prints beside an entry: `i-1`. */
  function PrintedNumberAsWritten(e: MenuEntry): int {
    e.number - 1
  }

  /** As written, the number printed beside the entry that choice `c` selects is `c + k - 1`,
      where `k` is the number of rows above the best height: right only when exactly one row
      was dropped. */
  lemma PrintedNumberShift(maxHeight: int, c: int) returns (k: nat)
    requires 1 <= c <= |MenuEntries(maxHeight)|
    ensures k == |Presets| - |MenuEntries(maxHeight)|
    ensures PrintedNumberAsWritten(MenuEntries(maxHeight)[c - 1]) == c + k - 1
  {
    k := MenuNumbers(maxHeight);
  }

  /** For a video available in 8K, `1080p` is printed as number 3, but typing 3 selects
      `1440p`. */
  lemma TypingThreeForFullHd()
    ensures |MenuEntries(4320)| == 8
    ensures PrintedNumberAsWritten(MenuEntries(4320)[3]) == 3 && MenuEntries(4320)[3].preset.key == "1080p"
    ensures MenuEntries(4320)[3 - 1].preset.key == "1440p"
    ensures AttemptAsWritten(|MenuEntries(4320)|, "3") == Picked(2)
  {
    var es := MenuEntries(4320);
    var k := MenuNumbers(4320);
    EveryRowOffered();
    assert es[3].preset == Presets[3] && es[2].preset == Presets[2];
    FullHdRows();
    ParseShowNat(3);
    assert ShowNat(3) == "3";
    assert Strip("3") == "3";
  }

  lemma EveryRowOffered()
    ensures |MenuEntries(4320)| == |Presets| == 8
  {
    PresetsShape();
    OfferedExtremes(4320);
    NumberedRows(Presets, 4320);
  }

  lemma FullHdRows()
    ensures Presets[2].key == "1440p" && Presets[3].key == "1080p"
  {
  }

  /** The corrected menu numbers each entry by its position in the menu, from 1. */
  function MenuNumber(entries: seq<MenuEntry>, j: nat): nat
    requires j < |entries|
  {
    j + 1
  }

  /** With positional numbering, the entry printed beside number `c` is the entry that typing
      `c` selects, and every number printed is one the menu accepts. */
  lemma MenuNumberSelects(entries: seq<MenuEntry>, c: int)
    requires 1 <= c <= |entries|
    ensures MenuAttempt(|entries|, ShowNat(MenuNumber(entries, c - 1))) == Picked(c - 1)
    ensures exists j :: 0 <= j < |entries| && MenuNumber(entries, j) == c && entries[j] == entries[c - 1]
    ensures forall j :: 0 <= j < |entries| && MenuNumber(entries, j) == c ==> j == c - 1
    ensures forall j :: 0 <= j < |entries| ==> 1 <= MenuNumber(entries, j) <= |entries|
  {
    assert MenuNumber(entries, c - 1) == c;
    var line := ShowNat(c);
    assert IsDigit(line[0]) && IsDigit(line[|line| - 1]);
    assert Strip(line) == line;
    ParseShowNat(c);
    assert ReadChoice(|entries|, line) == Some(c);
  }

  function Min(a: int, b: int): int {
    if a <= b then a else b
  }

  /** `int(input(...).strip() or str(default_choice))`, with `default_choice = min(2, n)`;
      None where `int()` raises ValueError. */
  function ReadChoice(n: nat, line: string): (r: Option<int>)
    ensures Strip(line) == [] ==> r == Some(Min(2, n))
  {
    var t := Strip(line);
    if t == [] then Some(Min(2, n)) else ParseInt(t)
  }

  /** The outcome of one pass through the inner loop of `main`. */
  datatype Attempt =
    | Picked(index: nat)             // `available_qualities[index]` is selected
    | Reprompt(readLine: bool)       // the loop goes round again; `readLine` says whether a line was read
    | NothingOffered                 // no quality fits: the menu gives up

  /** One pass as written: with an empty menu, `available_qualities[default_choice-1]` raises
      IndexError while the prompt is built, before `input()` is called; the handler catches it
      and the loop goes round again. */
  function AttemptAsWritten(n: nat, line: string): Attempt {
    if n == 0 then Reprompt(false)
    else
      match ReadChoice(n, line)
      case None => Reprompt(true)
      case Some(c) => if 1 <= c <= n then Picked(c - 1) else Reprompt(true)
  }

  /** As written, a menu with nothing in it never reads a line: every pass ends the same way,
      so the loop cannot end. */
  lemma EmptyMenuSpins(line: string)
    ensures AttemptAsWritten(0, line) == Reprompt(false)
    ensures forall other :: AttemptAsWritten(0, other) == AttemptAsWritten(0, line)
  {
  }

  /** The empty menu is reached: a video whose only format is 144 pixels high passes the
      `if not video_formats` check, and no preset fits it. */
  lemma EmptyMenuReachable()
    ensures var fs := [Format(None, Some(IntHeight(144)))];
      VideoFormats(fs) != [] && MenuEntries(MaxHeight(VideoFormats(fs))) == []
  {
    var fs := [Format(None, Some(IntHeight(144)))];
    assert fs[..0] == [];
    assert VideoFormats(fs) == fs;
    NumberedRows(Presets, 144);
    OfferedExtremes(144);
  }

  /** One pass, corrected: an empty menu is reported instead of retried. */
  function MenuAttempt(n: nat, line: string): (r: Attempt)
    ensures r == NothingOffered <==> n == 0
    ensures r.Picked? ==> r.index < n
    ensures n > 0 ==> (r.Picked? <==> ReadChoice(n, line).Some? && 1 <= ReadChoice(n, line).value <= n)
    ensures r.Picked? ==> ReadChoice(n, line) == Some(r.index + 1)
    ensures n > 0 && !r.Picked? ==> r == Reprompt(true)
    ensures n > 0 && ReadChoice(n, line) == Some(Min(2, n)) ==> r == Picked(Min(2, n) - 1)
    ensures n > 0 ==> r == AttemptAsWritten(n, line)
  {
    if n == 0 then NothingOffered else AttemptAsWritten(n, line)
  }

  /** The inner loop of `main`, over the lines the user types: the first line that parses to
      a number in range selects the entry before it; anything else is asked again. */
  method ChooseQuality(n: nat, script: seq<string>) returns (choice: Option<nat>, used: nat)
    ensures used <= |script|
    ensures choice.Some? ==> choice.value < n && 1 <= used
    ensures choice.Some? ==> MenuAttempt(n, script[used - 1]) == Picked(choice.value)
    ensures forall j :: 0 <= j < used - 1 ==> MenuAttempt(n, script[j]).Reprompt?
    ensures choice.None? ==> (n == 0 && used == 0) || (n > 0 && used == |script|)
    ensures choice.None? ==> forall j :: 0 <= j < used ==> MenuAttempt(n, script[j]).Reprompt?
  {
    choice, used := None, 0;
    if n == 0 {
      return;
    }
    while used < |script|
      invariant used <= |script|
      invariant forall j :: 0 <= j < used ==> MenuAttempt(n, script[j]).Reprompt?
    {
      var attempt := MenuAttempt(n, script[used]);
      if attempt.Picked? {
        choice, used := Some(attempt.index), used + 1;
        return;
      }
      assert attempt.Reprompt?;
      used := used + 1;
    }
  }

  /** Whatever the user picks from the menu, the request never asks for more than the best
      format offers: the key goes through the fallback unchanged, and both alternatives of the
      selector are bounded by the chosen row's height, which is at most the best height. */
  lemma ChosenRequestFits(fs: seq<Format>, i: nat, dir: string, cwd: string)
    requires var es := MenuEntries(MaxHeight(VideoFormats(fs))); i < |es|
    ensures var m := MaxHeight(VideoFormats(fs));
      var p := MenuEntries(m)[i].preset;
      var opts := DownloadRequest(Some(dir), cwd, p.key, true);
      p.height <= m && NormalizeQuality(p.key) == p.key
      && opts.Some? && ParseSelector(opts.value[FormatKey].s) == Some((p.height, p.height))
  {
    var m := MaxHeight(VideoFormats(fs));
    NumberedRows(Presets, m);
    var p := MenuEntries(m)[i].preset;
    assert p == Offered(m)[i];
    WithinMembers(Presets, m, p);
    LookupKey(p);
  }
}

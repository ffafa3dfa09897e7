/** `download_progress_hook`, which both desktop front ends pass to yt-dlp: a `'downloading'`
    event moves the progress bar to the event's percentage and writes a status line, a
    `'finished'` event writes the completion text, and anything that goes wrong while reading
    the percentage is swallowed by the bare `except`. */
module ProgressHook {
  import opened Wrappers
  import opened PyText

  /** `d['status']` */
  datatype Status = Downloading | Finished | OtherStatus

  /** The parts of yt-dlp's progress dictionary the hook reads. `percentStr` is
      `d['_percent_str']` (None where the key is missing, so that indexing raises KeyError);
      `percentValue` is `float(d['_percent_str'].replace('%', ''))`, None where `float()` raises
      ValueError; `totalBytesStr` is `d.get('_total_bytes_str')`. */
  datatype HookEvent = HookEvent(
    status: Status,
    percentStr: Option<string>,
    percentValue: Option<real>,
    totalBytesStr: Option<string>)

  /** What the hook changes: the value of the progress variable and the status label's text. */
  datatype Display = Display(progress: real, status: string)

  const CompletedText := "Download completed! Processing video..."

  /** The `try` block succeeds: the key is there and its text reads as a number. */
  predicate WellFormed(e: HookEvent) {
    e.percentStr.Some? && e.percentValue.Some?
  }

  /** `f"Downloading: {d['_percent_str']} of {d.get('_total_bytes_str', 'Unknown size')}"` */
  function DownloadingText(percentStr: string, totalBytesStr: Option<string>): (t: string)
    ensures StartsWith(t, "Downloading: ")
    ensures EndsWith(t, totalBytesStr.GetOr("Unknown size"))
  {
    var t := "Downloading: " + percentStr + " of " + totalBytesStr.GetOr("Unknown size");
    assert t[..13] == "Downloading: ";
    t
  }

  /** One call of the hook. The progress value moves only on a well-formed `'downloading'`
      event; a `'finished'` event changes the status text and nothing else. */
  function OnEvent(d: Display, e: HookEvent): (r: Display)
    ensures e.status == Downloading && WellFormed(e) ==>
      r.progress == e.percentValue.value && r.status == DownloadingText(e.percentStr.value, e.totalBytesStr)
    ensures !(e.status == Downloading && WellFormed(e)) ==> r.progress == d.progress
    ensures e.status == Downloading && !WellFormed(e) ==> r == d
    ensures e.status == Finished ==> r.status == CompletedText
    ensures e.status == OtherStatus ==> r == d
  {
    match e.status
    case Downloading =>
      if WellFormed(e) then Display(e.percentValue.value, DownloadingText(e.percentStr.value, e.totalBytesStr))
      else d
    case Finished => d.(status := CompletedText)
    case OtherStatus => d
  }

  /** The display after the hook has seen `es`, in order. */
  function Replay(d: Display, es: seq<HookEvent>): Display
    decreases |es|
  {
    if es == [] then d else OnEvent(Replay(d, es[..|es| - 1]), es[|es| - 1])
  }

  /** The percentage of the last well-formed `'downloading'` event, if any. */
  function LastPercent(es: seq<HookEvent>): (r: Option<real>)
    ensures r.Some? ==>
      exists i :: && 0 <= i < |es| && es[i].status == Downloading && WellFormed(es[i]) && es[i].percentValue.value == r.value
                  && forall j :: i < j < |es| ==> !(es[j].status == Downloading && WellFormed(es[j]))
    ensures r.None? ==> forall i :: 0 <= i < |es| ==> !(es[i].status == Downloading && WellFormed(es[i]))
    decreases |es|
  {
    if es == [] then None
    else
      var e := es[|es| - 1];
      if e.status == Downloading && WellFormed(e) then Some(e.percentValue.value)
      else
        var r := LastPercent(es[..|es| - 1]);
        assert forall i :: 0 <= i < |es| - 1 ==> es[..|es| - 1][i] == es[i];
        r
  }

  /** After any run of events the bar shows the percentage of the last well-formed
      `'downloading'` event, or what it showed before when there was none: malformed events
      and `'finished'` events never move it. */
  lemma {:induction false} ReplayProgress(d: Display, es: seq<HookEvent>)
    ensures Replay(d, es).progress == LastPercent(es).GetOr(d.progress)
    decreases |es|
  {
    if es != [] {
      ReplayProgress(d, es[..|es| - 1]);
    }
  }

  /** A malformed `'downloading'` event leaves the whole display as it was. */
  lemma MalformedIgnored(d: Display, es: seq<HookEvent>, e: HookEvent)
    requires e.status == Downloading && !WellFormed(e)
    ensures Replay(d, es + [e]) == Replay(d, es)
  {
    assert (es + [e])[..|es|] == es;
  }

  /** Once the last event is `'finished'`, the status reads the completion text, whatever came
      before, and the bar is where the last well-formed percentage left it. */
  lemma FinishedLast(d: Display, es: seq<HookEvent>, e: HookEvent)
    requires e.status == Finished
    ensures Replay(d, es + [e]).status == CompletedText
    ensures Replay(d, es + [e]).progress == LastPercent(es).GetOr(d.progress)
  {
    assert (es + [e])[..|es|] == es;
    ReplayProgress(d, es);
  }

  /** The hook copies the percentage as parsed: it neither clamps it to 0..100 nor keeps it from
      going down. */
  lemma NotClamped(d: Display)
    ensures var up := HookEvent(Downloading, Some("150.0%"), Some(150.0), None);
      var down := HookEvent(Downloading, Some("10.0%"), Some(10.0), None);
      OnEvent(d, up).progress == 150.0 && OnEvent(OnEvent(d, up), down).progress == 10.0
  {
  }
}

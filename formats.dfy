/** The format records that yt-dlp reports for a video, the Python conversions the downloaders
    apply to their `height` entries, and the set of heights that both desktop front ends
    gather before filtering the preset table. */
module Formats {
  import opened Wrappers
  import opened PyText

  /** What a format record may hold under `'height'` (a missing key or `None` is the `None` of
      `Format.height`): an int, a str, or some other value that `int()` refuses with TypeError
      and that is never equal to an int. `truthy` is its Python truth value. */
  datatype HeightVal =
    | IntHeight(n: int)
    | TextHeight(s: string)
    | OtherHeight(truthy: bool)

  /** One entry of `info['formats']`: its `'vcodec'` (None when the key is missing or holds
      `None`) and its `'height'`. */
  datatype Format = Format(vcodec: Option<string>, height: Option<HeightVal>)

  /** The parts of yt-dlp's info dictionary the front ends read. `otherKeys` records whether
      the dictionary holds any further key, which matters only for its truth value. */
  datatype VideoInfo = VideoInfo(
    title: Option<string>,
    channel: Option<string>,
    formats: Option<seq<Format>>,
    otherKeys: bool)

  /** `if self.video_info:` — a dictionary is true when it is not empty. */
  predicate InfoTruthy(info: VideoInfo) {
    info.title.Some? || info.channel.Some? || info.formats.Some? || info.otherKeys
  }

  /** `if self.video_info:` on the attribute, which holds None until a fetch has stored a
      dictionary. */
  predicate HasInfo(info: Option<VideoInfo>) {
    info.Some? && InfoTruthy(info.value)
  }

  /** `info.get('formats', [])` */
  function FormatList(info: VideoInfo): seq<Format> {
    info.formats.GetOr([])
  }

  /** `int(v)`; None where Python raises ValueError or TypeError. */
  function PyInt(v: HeightVal): Option<int> {
    match v
    case IntHeight(n) => Some(n)
    case TextHeight(s) => ParseInt(s)
    case OtherHeight(_) => None
  }

  /** Python truth value: a non-zero int, a non-empty str. */
  predicate Truthy(v: HeightVal) {
    match v
    case IntHeight(n) => n != 0
    case TextHeight(s) => s != []
    case OtherHeight(t) => t
  }

  /** `f.get('vcodec') != 'none'`: a missing codec counts as video. */
  predicate IsVideo(f: Format) {
    f.vcodec != Some("none")
  }

  /** `f.get('vcodec') != 'none' and f.get('height')`, the test of both desktop front ends. */
  predicate OffersHeight(f: Format) {
    IsVideo(f) && f.height.Some? && Truthy(f.height.value)
  }

  /** The `available_heights` set that the front ends' loop builds from a format list. */
  function HeightSet(fs: seq<Format>): set<HeightVal>
    decreases |fs|
  {
    if fs == [] then {}
    else
      var f := fs[|fs| - 1];
      HeightSet(fs[..|fs| - 1]) + (if OffersHeight(f) then {f.height.value} else {})
  }

  /** A height is in the set exactly when some format offering a height carries it. */
  lemma {:induction false} HeightSetMembers(fs: seq<Format>, v: HeightVal)
    ensures v in HeightSet(fs) <==> exists i :: 0 <= i < |fs| && OffersHeight(fs[i]) && fs[i].height.value == v
    decreases |fs|
  {
    if fs != [] {
      var n := |fs| - 1;
      HeightSetMembers(fs[..n], v);
      if v in HeightSet(fs[..n]) {
        var i :| 0 <= i < n && OffersHeight(fs[..n][i]) && fs[..n][i].height.value == v;
        assert fs[i] == fs[..n][i];
      }
      if exists i :: 0 <= i < |fs| && OffersHeight(fs[i]) && fs[i].height.value == v {
        var i :| 0 <= i < |fs| && OffersHeight(fs[i]) && fs[i].height.value == v;
        if i < n {
          assert fs[..n][i] == fs[i];
        }
      }
    }
  }

  /** The loop `for f in formats: if ...: available_heights.add(f.get('height'))`. */
  method CollectHeights(formats: seq<Format>) returns (heights: set<HeightVal>)
    ensures heights == HeightSet(formats)
  {
    heights := {};
    var i := 0;
    while i < |formats|
      invariant 0 <= i <= |formats|
      invariant heights == HeightSet(formats[..i])
    {
      assert formats[..i + 1][..i] == formats[..i];
      var f := formats[i];
      if OffersHeight(f) {
        heights := heights + {f.height.value};
      }
      i := i + 1;
    }
    assert formats[..i] == formats;
  }

  /** `b` is what `max(heights, default=0)` returns for a set of ints. */
  predicate IsMaxOrDefault(heights: set<HeightVal>, b: int) {
    && (heights == {} ==> b == 0)
    && (heights != {} ==> IntHeight(b) in heights)
    && forall v :: v in heights ==> v.IntHeight? && v.n <= b
  }

  /** The bound `max(available_heights, default=0)` against which every preset height is
      compared. None where Python raises TypeError: `max` comparing an int with a non-int, or
      `specs['height'] <= m` with a non-int `m`; either happens exactly when the set holds a
      value that is not an int. */
  method HeightBound(heights: set<HeightVal>) returns (bound: Option<int>)
    ensures bound.None? <==> exists v :: v in heights && !v.IntHeight?
    ensures bound.Some? ==> IsMaxOrDefault(heights, bound.value)
  {
    var rest := heights;
    var best: Option<int> := None;
    while rest != {}
      invariant rest <= heights
      invariant forall v :: v in heights - rest ==> v.IntHeight?
      invariant best.None? <==> heights - rest == {}
      invariant best.Some? ==> IntHeight(best.value) in heights
      invariant best.Some? ==> forall v :: v in heights - rest ==> v.n <= best.value
      decreases rest
    {
      var v :| v in rest;
      if !v.IntHeight? {
        return None;
      }
      if best.None? || best.value < v.n {
        best := Some(v.n);
      }
      rest := rest - {v};
    }
    bound := Some(best.GetOr(0));
  }

  /** The bound is the same however the heights arrive: only the set matters, so formats in a
      different order, or repeated, give the same bound. */
  lemma HeightSetOrderFree(fs: seq<Format>, gs: seq<Format>)
    requires forall f :: f in fs <==> f in gs
    ensures HeightSet(fs) == HeightSet(gs)
  {
    forall v ensures v in HeightSet(fs) <==> v in HeightSet(gs) {
      HeightSetMembers(fs, v);
      HeightSetMembers(gs, v);
      if v in HeightSet(fs) {
        var i :| 0 <= i < |fs| && OffersHeight(fs[i]) && fs[i].height.value == v;
        assert fs[i] in gs;
        var j :| 0 <= j < |gs| && gs[j] == fs[i];
      }
      if v in HeightSet(gs) {
        var j :| 0 <= j < |gs| && OffersHeight(gs[j]) && gs[j].height.value == v;
        assert gs[j] in fs;
        var i :| 0 <= i < |fs| && fs[i] == gs[j];
      }
    }
  }
}

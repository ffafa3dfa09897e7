/** `QUALITY_PRESETS`: the eight-row table that the command-line downloader and both desktop
    front ends hold, verbatim, in their own copies; the filtering of that table by the largest
    available height; the `"<key> - <description>"` option labels and their parsing back into
    a key. */
module QualityPresets {
  import opened Wrappers
  import opened PyText

  /** One row of the table: its key (`'1080p'`) and the `resolution`, `height`, `label` (here `tag`) and
      `description` entries of its specification dictionary. */
  datatype Preset = Preset(key: string, resolution: string, height: nat, tag: string, description: string)

  /** The table in insertion order, which is the order in which Python iterates it. */
  const Presets: seq<Preset> := [
    Preset("4320p", "7680x4320", 4320, "8K", "Ultra HD 8K"),
    Preset("2160p", "3840x2160", 2160, "4K", "Ultra HD 4K"),
    Preset("1440p", "2560x1440", 1440, "2K", "Quad HD"),
    Preset("1080p", "1920x1080", 1080, "HD", "Full HD"),
    Preset("720p", "1280x720", 720, "HD", "HD Ready"),
    Preset("480p", "854x480", 480, "SD", "Standard Definition"),
    Preset("360p", "640x360", 360, "SD", "Low Definition"),
    Preset("240p", "426x240", 240, "SD", "Very Low Definition")
  ]

  predicate Descending(ps: seq<Preset>) {
    forall i, j :: 0 <= i < j < |ps| ==> ps[i].height > ps[j].height
  }

  /** A key that both label parsers can recover: non-empty, no whitespace, no `-`. */
  predicate PlainKey(k: string) {
    k != [] && forall i :: 0 <= i < |k| ==> !IsSpace(k[i]) && k[i] != '-'
  }

  /** The table runs strictly downwards from 4320 to 240, its keys are plain and distinct. */
  lemma PresetsShape()
    ensures |Presets| == 8 && Presets[0].height == 4320 && Presets[7].height == 240
    ensures Descending(Presets)
    ensures forall p :: p in Presets ==> PlainKey(p.key)
    ensures forall i, j :: 0 <= i < |Presets| && 0 <= j < |Presets| && Presets[i].key == Presets[j].key ==> i == j
  {
    PresetsDescending();
    PresetKeys();
  }

  lemma PresetsDescending()
    ensures |Presets| == 8 && Presets[0].height == 4320 && Presets[7].height == 240
    ensures Descending(Presets)
  {
    assert forall i :: 0 <= i < 7 ==> Presets[i].height > Presets[i + 1].height;
    StepsDescending(Presets);
  }

  /** A table that decreases from each row to the next decreases throughout. */
  lemma {:induction false} StepsDescending(ps: seq<Preset>)
    requires forall i :: 0 <= i < |ps| - 1 ==> ps[i].height > ps[i + 1].height
    ensures Descending(ps)
    decreases |ps|
  {
    if |ps| > 1 {
      StepsDescending(ps[1..]);
      forall i, j | 0 <= i < j < |ps| ensures ps[i].height > ps[j].height {
        if 0 < i {
          assert ps[i].height == ps[1..][i - 1].height && ps[j].height == ps[1..][j - 1].height;
        } else if 1 < j {
          assert ps[1].height > ps[j].height by {
            assert ps[1].height == ps[1..][0].height && ps[j].height == ps[1..][j - 1].height;
          }
        }
      }
    }
  }

  /** A key spelt with digits and a trailing `p` only. */
  predicate DigitsAndP(k: string) {
    |k| >= 4 && forall m :: 0 <= m < |k| ==> IsDigit(k[m]) || k[m] == 'p'
  }

  lemma PresetKeys()
    ensures forall p :: p in Presets ==> PlainKey(p.key)
    ensures forall i, j :: 0 <= i < |Presets| && 0 <= j < |Presets| && Presets[i].key == Presets[j].key ==> i == j
  {
    KeysPlain();
    KeysDistinct();
  }

  lemma KeysPlain()
    ensures forall p :: p in Presets ==> PlainKey(p.key)
  {
    assert DigitsAndP("4320p") && DigitsAndP("2160p") && DigitsAndP("1440p") && DigitsAndP("1080p");
    assert DigitsAndP("720p") && DigitsAndP("480p") && DigitsAndP("360p") && DigitsAndP("240p");
    forall p | p in Presets ensures PlainKey(p.key) {
      assert DigitsAndP(p.key);
    }
  }

  lemma KeysDistinct()
    ensures forall i, j :: 0 <= i < |Presets| && 0 <= j < |Presets| && Presets[i].key == Presets[j].key ==> i == j
  {
    forall i, j | 0 <= i < |Presets| && 0 <= j < |Presets| && Presets[i].key == Presets[j].key
      ensures i == j
    {
      var a, b := Presets[i].key, Presets[j].key;
      assert |a| == |b| && a[0] == b[0] && a[1] == b[1];
    }
  }

  /** The rows of `ps` whose height is at most `maxHeight`, in table order: the
      `if specs['height'] <= max_height` filter of every front end. */
  function Within(ps: seq<Preset>, maxHeight: int): (r: seq<Preset>)
    ensures |r| <= |ps|
    decreases |ps|
  {
    if ps == [] then []
    else
      var last := ps[|ps| - 1];
      Within(ps[..|ps| - 1], maxHeight) + (if last.height <= maxHeight then [last] else [])
  }

  /** A row is offered exactly when it is in the table and fits under `maxHeight`. */
  lemma {:induction false} WithinMembers(ps: seq<Preset>, maxHeight: int, p: Preset)
    ensures p in Within(ps, maxHeight) <==> p in ps && p.height <= maxHeight
    decreases |ps|
  {
    if ps != [] {
      var n := |ps| - 1;
      WithinMembers(ps[..n], maxHeight, p);
      assert ps == ps[..n] + [ps[n]];
    }
  }

  /** The presets offered for a video whose best format is `maxHeight` pixels high. */
  function Offered(maxHeight: int): seq<Preset> {
    Within(Presets, maxHeight)
  }

  lemma DescendingFront(ps: seq<Preset>)
    requires Descending(ps) && ps != []
    ensures Descending(ps[..|ps| - 1])
  {
    var front := ps[..|ps| - 1];
    forall i, j | 0 <= i < j < |front| ensures front[i].height > front[j].height {
      assert front[i] == ps[i] && front[j] == ps[j];
    }
  }

  lemma AllAbove(ps: seq<Preset>, maxHeight: int)
    requires Descending(ps) && ps != [] && ps[|ps| - 1].height > maxHeight
    ensures Within(ps, maxHeight) == []
    ensures forall i :: 0 <= i < |ps| ==> ps[i].height > maxHeight
  {
    var r := Within(ps, maxHeight);
    forall p | p in r ensures false {
      WithinMembers(ps, maxHeight, p);
    }
  }

  /** On a descending table the offered rows are a suffix: every row before position `k` is
      too high, every row from `k` on fits. */
  lemma {:induction false} WithinIsSuffix(ps: seq<Preset>, maxHeight: int) returns (k: nat)
    requires Descending(ps)
    ensures k <= |ps| && Within(ps, maxHeight) == ps[k..]
    ensures forall i :: 0 <= i < k ==> ps[i].height > maxHeight
    ensures forall i :: k <= i < |ps| ==> ps[i].height <= maxHeight
    decreases |ps|
  {
    if ps == [] {
      k := 0;
    } else if ps[|ps| - 1].height > maxHeight {
      AllAbove(ps, maxHeight);
      k := |ps|;
    } else {
      var n := |ps| - 1;
      var front := ps[..n];
      DescendingFront(ps);
      k := WithinIsSuffix(front, maxHeight);
      assert Within(ps, maxHeight) == Within(front, maxHeight) + [ps[n]];
      assert ps[k..] == front[k..] + [ps[n]];
      forall i | 0 <= i < n ensures ps[i] == front[i] {
      }
    }
  }

  /** On a descending table, raising the bound only adds rows, at the front. */
  lemma WithinMonotone(ps: seq<Preset>, h1: int, h2: int) returns (d: nat)
    requires Descending(ps) && h1 <= h2
    ensures d <= |Within(ps, h2)| && Within(ps, h1) == Within(ps, h2)[d..]
  {
    var k1 := WithinIsSuffix(ps, h1);
    var k2 := WithinIsSuffix(ps, h2);
    assert k1 < |ps| ==> ps[k1].height <= h1;
    if k1 < k2 {
      assert false;
    }
    d := k1 - k2;
    assert ps[k1..] == ps[k2..][d..];
  }

  /** Raising the largest available height only adds options, at the front of the list: the
      options for `h1` are a suffix of those for any `h2 >= h1`. */
  lemma OfferedMonotone(h1: int, h2: int) returns (d: nat)
    requires h1 <= h2
    ensures d <= |Offered(h2)| && Offered(h1) == Offered(h2)[d..]
  {
    PresetsDescending();
    d := WithinMonotone(Presets, h1, h2);
  }

  /** Nothing is offered below 240 pixels; everything is offered from 4320 pixels up. */
  lemma OfferedExtremes(maxHeight: int)
    ensures maxHeight < 240 ==> Offered(maxHeight) == []
    ensures maxHeight >= 4320 ==> Offered(maxHeight) == Presets
  {
    PresetsDescending();
    var k := WithinIsSuffix(Presets, maxHeight);
    if maxHeight < 240 {
      if k < 8 {
        assert false;
      }
    }
    if maxHeight >= 4320 {
      if k > 0 {
        assert false;
      }
    }
  }

  /** `f"{quality} - {specs['description']}"` */
  function OptionLabel(p: Preset): string {
    p.key + " - " + p.description
  }

  function OptionLabels(ps: seq<Preset>): (r: seq<string>)
    ensures |r| == |ps| && forall i :: 0 <= i < |ps| ==> r[i] == OptionLabel(ps[i])
  {
    if ps == [] then [] else OptionLabels(ps[..|ps| - 1]) + [OptionLabel(ps[|ps| - 1])]
  }

  /** The combo box's list: the loop that appends one label per fitting row, in table order. */
  method BuildQualityOptions(maxHeight: int) returns (options: seq<string>)
    ensures options == OptionLabels(Offered(maxHeight))
  {
    options := [];
    var i := 0;
    while i < |Presets|
      invariant 0 <= i <= |Presets|
      invariant options == OptionLabels(Within(Presets[..i], maxHeight))
    {
      assert Presets[..i + 1][..i] == Presets[..i];
      if Presets[i].height <= maxHeight {
        options := options + [OptionLabel(Presets[i])];
      }
      i := i + 1;
    }
    assert Presets[..i] == Presets;
  }

  /** A string the combo box can hold: the label of some row of the table. */
  ghost predicate IsPresetLabel(s: string) {
    exists p :: p in Presets && s == OptionLabel(p)
  }

  /** A combo box filled from the table: every value is an option label, and the selection is
      empty or one of them. */
  ghost predicate ComboHoldsLabels(values: seq<string>, selection: string) {
    && (selection == "" || IsPresetLabel(selection))
    && forall v :: v in values ==> IsPresetLabel(v)
  }

  lemma OfferedLabels(maxHeight: int)
    ensures forall v :: v in OptionLabels(Offered(maxHeight)) ==> IsPresetLabel(v)
  {
    var ps := Offered(maxHeight);
    var ls := OptionLabels(ps);
    forall v | v in ls ensures IsPresetLabel(v) {
      var i :| 0 <= i < |ls| && ls[i] == v;
      WithinMembers(Presets, maxHeight, ps[i]);
    }
  }

  /** `QUALITY_PRESETS[key]`, `None` where Python raises KeyError. */
  function Lookup(key: string): (r: Option<Preset>)
    ensures r.Some? ==> r.value in Presets && r.value.key == key
    ensures r.None? ==> forall p :: p in Presets ==> p.key != key
  {
    LookupIn(Presets, key)
  }

  function LookupIn(ps: seq<Preset>, key: string): (r: Option<Preset>)
    ensures r.Some? ==> r.value in ps && r.value.key == key
    ensures r.None? ==> forall p :: p in ps ==> p.key != key
  {
    if ps == [] then None
    else if ps[0].key == key then Some(ps[0])
    else LookupIn(ps[1..], key)
  }

  /** Every row is found again under its own key, since the keys are distinct. */
  lemma LookupKey(p: Preset)
    requires p in Presets
    ensures Lookup(p.key) == Some(p)
  {
    PresetsShape();
    var r := Lookup(p.key);
    var i :| 0 <= i < |Presets| && Presets[i] == p;
    var j :| 0 <= j < |Presets| && Presets[j] == r.value;
  }

  /** `label.split(' - ')[0]` of a generated label is the row's key. */
  lemma SpacedSplitKey(p: Preset)
    requires p in Presets
    ensures SplitHead(OptionLabel(p), " - ") == p.key
  {
    PresetKeys();
    SpacedSplitPlain(p.key, p.description);
  }

  lemma SpacedSplitPlain(k: string, description: string)
    requires PlainKey(k)
    ensures SplitHead(k + " - " + description, " - ") == k
  {
    assert ' ' !in k by {
      forall i | 0 <= i < |k| ensures k[i] != ' ' {
        assert !IsSpace(k[i]);
      }
    }
    SplitHeadOfJoined(k, " - ", description);
  }

  /** `label.split('-')[0].strip()` of a generated label is the row's key as well. */
  lemma DashSplitKey(p: Preset)
    requires p in Presets
    ensures Strip(SplitHead(OptionLabel(p), "-")) == p.key
  {
    PresetKeys();
    DashSplitPlain(p.key, p.description);
  }

  lemma DashSplitPlain(k: string, description: string)
    requires PlainKey(k)
    ensures Strip(SplitHead(k + " - " + description, "-")) == k
  {
    assert '-' !in k + " " by {
      forall i | 0 <= i < |k + " "| ensures (k + " ")[i] != '-' {
        if i < |k| {
          assert (k + " ")[i] == k[i];
        }
      }
    }
    assert k + " - " + description == (k + " ") + "-" + (" " + description);
    SplitHeadOfJoined(k + " ", "-", " " + description);
    StripTrailingSpace(k, " ");
  }

  /** The key the tkinter window parses from a generated label finds that label's row. */
  lemma SpacedLookup(p: Preset)
    requires p in Presets
    ensures Lookup(SplitHead(OptionLabel(p), " - ")) == Some(p)
  {
    SpacedSplitKey(p);
    LookupKey(p);
  }

  /** The key the customtkinter frame parses from a generated label finds that label's row. */
  lemma DashLookup(p: Preset)
    requires p in Presets
    ensures Lookup(Strip(SplitHead(OptionLabel(p), "-"))) == Some(p)
  {
    DashSplitKey(p);
    LookupKey(p);
  }

  /** Whatever row a combo-box label names, the key parsed from it finds that row again. */
  lemma LabelLookup(s: string) returns (p: Preset)
    requires IsPresetLabel(s)
    ensures p in Presets && s == OptionLabel(p)
    ensures Lookup(SplitHead(s, " - ")) == Some(p)
    ensures Lookup(Strip(SplitHead(s, "-"))) == Some(p)
  {
    p :| p in Presets && s == OptionLabel(p);
    SpacedSplitKey(p);
    DashSplitKey(p);
    LookupKey(p);
  }

  /** Every row's key finds that row. */
  lemma KeysLookUp()
    ensures forall p :: p in Presets ==> Lookup(p.key) == Some(p)
  {
    forall p | p in Presets ensures Lookup(p.key) == Some(p) {
      LookupKey(p);
    }
  }

  /** Every row's label, split on `' - '`, finds that row. */
  lemma LabelsLookUp()
    ensures forall p :: p in Presets ==> Lookup(SplitHead(OptionLabel(p), " - ")) == Some(p)
  {
    forall p | p in Presets ensures Lookup(SplitHead(OptionLabel(p), " - ")) == Some(p) {
      SpacedLookup(p);
    }
  }
}

/** The YouTube URL check that the command-line downloader, the Tk window and the controller
    each carry: `bool(re.match(youtube_regex, url))` with the pattern

      (https?://)?(www\.)?(youtube|youtu|youtube-nocookie)\.(com|be)/(watch\?v=|embed/|v/|.+\?v=)?([^&=%\?]{11})

    `re.match` anchors at the start and ignores whatever follows the match. The module gives a
    hand-written backtracking matcher (IsValidUrl), a group-by-group description of the
    pattern's language (PatternWord), and the proof that the matcher accepts exactly the
    strings that begin with a word of that language. */
module UrlValidator {
  import opened PyText

  // ---------------------------------------------------------------------------------------
  // The matcher: one predicate per group, each trying the group's alternatives in turn on
  // what is left of the input.
  // ---------------------------------------------------------------------------------------

  /** `[^&=%\?]`: any character but these four; a newline is allowed. */
  predicate IsIdChar(c: char) {
    c != '&' && c != '=' && c != '%' && c != '?'
  }

  /** `[^&=%\?]{11}` at the front of `t`. */
  predicate IdAhead(t: string) {
    |t| >= 11 && forall i :: 0 <= i < 11 ==> IsIdChar(t[i])
  }

  /** The `.+\?v=` alternative followed by the identifier, `.+` having taken `t[..k]` so far:
      either `?v=` and the identifier follow at `k`, or `.` takes one more character. Python's
      `.` matches anything but a newline. */
  predicate LooseQueryFrom(t: string, k: nat)
    requires k <= |t|
    decreases |t| - k
  {
    (StartsWith(t[k..], "?v=") && IdAhead(t[k + 3..]))
    || (k < |t| && t[k] != '\n' && LooseQueryFrom(t, k + 1))
  }

  /** `(watch\?v=|embed/|v/|.+\?v=)?([^&=%\?]{11})` at the front of `t`. */
  predicate MatchPath(t: string) {
    IdAhead(t)
    || (StartsWith(t, "watch?v=") && IdAhead(t[8..]))
    || (StartsWith(t, "embed/") && IdAhead(t[6..]))
    || (StartsWith(t, "v/") && IdAhead(t[2..]))
    || (t != [] && t[0] != '\n' && LooseQueryFrom(t, 1))
  }

  /** `\.(com|be)/` and the rest of the pattern. */
  predicate MatchDomain(t: string) {
    (StartsWith(t, ".com/") && MatchPath(t[5..]))
    || (StartsWith(t, ".be/") && MatchPath(t[4..]))
  }

  /** `(youtube|youtu|youtube-nocookie)` and the rest of the pattern. */
  predicate MatchHost(t: string) {
    (StartsWith(t, "youtube") && MatchDomain(t[7..]))
    || (StartsWith(t, "youtu") && MatchDomain(t[5..]))
    || (StartsWith(t, "youtube-nocookie") && MatchDomain(t[16..]))
  }

  /** `(www\.)?` and the rest of the pattern. */
  predicate MatchWww(t: string) {
    MatchHost(t) || (StartsWith(t, "www.") && MatchHost(t[4..]))
  }

  /** `bool(re.match(youtube_regex, url))`: `(https?://)?` and the rest of the pattern,
      at the start of `url`. */
  predicate IsValidUrl(url: string) {
    MatchWww(url)
    || (StartsWith(url, "http://") && MatchWww(url[7..]))
    || (StartsWith(url, "https://") && MatchWww(url[8..]))
  }

  // ---------------------------------------------------------------------------------------
  // The language of the pattern, group by group.
  // ---------------------------------------------------------------------------------------

  /** A word of `(watch\?v=|embed/|v/|.+\?v=)?`. */
  ghost predicate IsPathGroup(p: string) {
    || p == ""
    || p == "watch?v="
    || p == "embed/"
    || p == "v/"
    || (|p| >= 4 && p[|p| - 3..] == "?v=" && '\n' !in p[..|p| - 3])
  }

  /** A word of `[^&=%\?]{11}`. */
  ghost predicate IsVideoId(x: string) {
    |x| == 11 && forall i :: 0 <= i < 11 ==> IsIdChar(x[i])
  }

  /** A word of `(watch\?v=|embed/|v/|.+\?v=)?([^&=%\?]{11})`. */
  ghost predicate PathWord(x: string) {
    exists p, id :: IsPathGroup(p) && IsVideoId(id) && x == p + id
  }

  /** A word of `\.(com|be)/` followed by a PathWord. */
  ghost predicate DomainWord(x: string) {
    exists y :: PathWord(y) && (x == ".com/" + y || x == ".be/" + y)
  }

  /** A word of `(youtube|youtu|youtube-nocookie)` followed by a DomainWord. */
  ghost predicate HostWord(x: string) {
    exists y :: DomainWord(y) && (x == "youtube" + y || x == "youtu" + y || x == "youtube-nocookie" + y)
  }

  /** A word of `(www\.)?` followed by a HostWord. */
  ghost predicate WwwWord(x: string) {
    exists y :: HostWord(y) && (x == y || x == "www." + y)
  }

  /** A word of the whole pattern: `(https?://)?` followed by a WwwWord. */
  ghost predicate PatternWord(x: string) {
    exists y :: WwwWord(y) && (x == y || x == "http://" + y || x == "https://" + y)
  }

  /** What `re.match` decides: some prefix of `s` is a word of the pattern. */
  ghost predicate MatchesAtStart(s: string) {
    exists x :: StartsWith(s, x) && PatternWord(x)
  }

  // ---------------------------------------------------------------------------------------
  // Prefix bookkeeping.
  // ---------------------------------------------------------------------------------------

  lemma Glue(t: string, w: string, y: string)
    requires StartsWith(t, w) && StartsWith(t[|w|..], y)
    ensures StartsWith(t, w + y)
  {
    assert t[..|w| + |y|] == t[..|w|] + t[|w|..][..|y|];
  }

  lemma Unglue(t: string, w: string, y: string)
    requires StartsWith(t, w + y)
    ensures StartsWith(t, w) && StartsWith(t[|w|..], y)
  {
    assert t[..|w|] == (w + y)[..|w|] == w;
    assert t[|w|..][..|y|] == t[..|w| + |y|][|w|..] == y;
  }

  // ---------------------------------------------------------------------------------------
  // The identifier and the path group.
  // ---------------------------------------------------------------------------------------

  lemma {:induction false} LooseScanSound(t: string, k: nat) returns (m: nat)
    requires k <= |t| && LooseQueryFrom(t, k)
    ensures k <= m && m + 3 <= |t| && '\n' !in t[k..m]
    ensures t[m..m + 3] == "?v=" && IdAhead(t[m + 3..])
    decreases |t| - k
  {
    if StartsWith(t[k..], "?v=") && IdAhead(t[k + 3..]) {
      m := k;
      assert t[k..k + 3] == t[k..][..3];
    } else {
      m := LooseScanSound(t, k + 1);
      assert t[k..m] == [t[k]] + t[k + 1..m];
    }
  }

  lemma {:induction false} LooseScanComplete(t: string, k: nat, m: nat)
    requires k <= m && m + 3 <= |t| && '\n' !in t[k..m]
    requires t[m..m + 3] == "?v=" && IdAhead(t[m + 3..])
    ensures LooseQueryFrom(t, k)
    decreases m - k
  {
    if m == k {
      assert t[k..][..3] == t[k..k + 3];
    } else {
      assert t[k] == t[k..m][0];
      assert t[k + 1..m] == t[k..m][1..];
      LooseScanComplete(t, k + 1, m);
    }
  }

  lemma LiteralThenId(t: string, w: string) returns (x: string)
    requires IsPathGroup(w) && StartsWith(t, w) && IdAhead(t[|w|..])
    ensures StartsWith(t, x) && PathWord(x)
  {
    var id := t[|w|..|w| + 11];
    assert IsVideoId(id) by {
      forall i | 0 <= i < 11 ensures IsIdChar(id[i]) {
        assert id[i] == t[|w|..][i];
      }
    }
    x := t[..|w| + 11];
    assert x == w + id;
  }

  lemma PathSound(t: string) returns (x: string)
    requires MatchPath(t)
    ensures StartsWith(t, x) && PathWord(x)
  {
    if IdAhead(t) {
      x := LiteralThenId(t, "");
    } else if StartsWith(t, "watch?v=") && IdAhead(t[8..]) {
      x := LiteralThenId(t, "watch?v=");
    } else if StartsWith(t, "embed/") && IdAhead(t[6..]) {
      x := LiteralThenId(t, "embed/");
    } else if StartsWith(t, "v/") && IdAhead(t[2..]) {
      x := LiteralThenId(t, "v/");
    } else {
      x := LoosePathSound(t);
    }
  }

  /** The `.+\?v=` alternative of the path group. */
  lemma LoosePathSound(t: string) returns (x: string)
    requires t != [] && t[0] != '\n' && LooseQueryFrom(t, 1)
    ensures StartsWith(t, x) && PathWord(x)
  {
    var m := LooseScanSound(t, 1);
    var p := t[..m + 3];
    assert p[..m] == [t[0]] + t[1..m];
    assert p[|p| - 3..] == t[m..m + 3];
    assert IsPathGroup(p);
    x := LiteralThenId(t, p);
  }

  lemma PathComplete(t: string, x: string)
    requires StartsWith(t, x) && PathWord(x)
    ensures MatchPath(t)
  {
    var p, id :| IsPathGroup(p) && IsVideoId(id) && x == p + id;
    Unglue(t, p, id);
    assert IdAhead(t[|p|..]) by {
      forall i | 0 <= i < 11 ensures IsIdChar(t[|p|..][i]) {
        assert t[|p|..][i] == id[i];
      }
    }
    if p == "" {
      assert t[|p|..] == t;
    } else if p != "watch?v=" && p != "embed/" && p != "v/" {
      var m := |p| - 3;
      assert t[..m] == p[..m];
      assert t[0] == p[..m][0];
      assert t[1..m] == p[..m][1..];
      assert t[m..m + 3] == p[m..];
      assert t[m + 3..] == t[|p|..];
      LooseScanComplete(t, 1, m);
    }
  }

  // ---------------------------------------------------------------------------------------
  // The literal groups, one stage at a time.
  // ---------------------------------------------------------------------------------------

  lemma DomainSound(t: string) returns (x: string)
    requires MatchDomain(t)
    ensures StartsWith(t, x) && DomainWord(x)
  {
    var w := if StartsWith(t, ".com/") && MatchPath(t[5..]) then ".com/" else ".be/";
    var y := PathSound(t[|w|..]);
    Glue(t, w, y);
    x := w + y;
  }

  lemma DomainComplete(t: string, x: string)
    requires StartsWith(t, x) && DomainWord(x)
    ensures MatchDomain(t)
  {
    var y :| PathWord(y) && (x == ".com/" + y || x == ".be/" + y);
    var w := if x == ".com/" + y then ".com/" else ".be/";
    Unglue(t, w, y);
    PathComplete(t[|w|..], y);
  }

  lemma HostSound(t: string) returns (x: string)
    requires MatchHost(t)
    ensures StartsWith(t, x) && HostWord(x)
  {
    var w :=
      if StartsWith(t, "youtube") && MatchDomain(t[7..]) then "youtube"
      else if StartsWith(t, "youtu") && MatchDomain(t[5..]) then "youtu"
      else "youtube-nocookie";
    var y := DomainSound(t[|w|..]);
    Glue(t, w, y);
    x := w + y;
  }

  lemma HostComplete(t: string, x: string)
    requires StartsWith(t, x) && HostWord(x)
    ensures MatchHost(t)
  {
    var w, y := HostRest(x);
    Unglue(t, w, y);
    DomainComplete(t[|w|..], y);
    HostMatchStep(t, w);
  }

  /** Splits off the host name. */
  lemma HostRest(x: string) returns (w: string, y: string)
    requires HostWord(x)
    ensures (w == "youtube" || w == "youtu" || w == "youtube-nocookie") && x == w + y && DomainWord(y)
  {
    y :| DomainWord(y) && (x == "youtube" + y || x == "youtu" + y || x == "youtube-nocookie" + y);
    w := if x == "youtube" + y then "youtube" else if x == "youtu" + y then "youtu" else "youtube-nocookie";
  }

  lemma HostMatchStep(t: string, w: string)
    requires w == "youtube" || w == "youtu" || w == "youtube-nocookie"
    requires StartsWith(t, w) && MatchDomain(t[|w|..])
    ensures MatchHost(t)
  {
  }

  lemma WwwSound(t: string) returns (x: string)
    requires MatchWww(t)
    ensures StartsWith(t, x) && WwwWord(x)
  {
    var w := if MatchHost(t) then "" else "www.";
    var y := HostSound(t[|w|..]);
    Glue(t, w, y);
    x := w + y;
    assert x == y || x == "www." + y;
  }

  lemma WwwComplete(t: string, x: string)
    requires StartsWith(t, x) && WwwWord(x)
    ensures MatchWww(t)
  {
    var y :| HostWord(y) && (x == y || x == "www." + y);
    var w := if x == y then "" else "www.";
    assert x == w + y;
    Unglue(t, w, y);
    HostComplete(t[|w|..], y);
    if w == "" {
      assert t[|w|..] == t;
    }
  }

  lemma PatternSound(t: string) returns (x: string)
    requires IsValidUrl(t)
    ensures StartsWith(t, x) && PatternWord(x)
  {
    var w :=
      if MatchWww(t) then ""
      else if StartsWith(t, "http://") && MatchWww(t[7..]) then "http://"
      else "https://";
    var y := WwwSound(t[|w|..]);
    Glue(t, w, y);
    x := w + y;
    assert x == y || x == "http://" + y || x == "https://" + y;
  }

  lemma PatternComplete(t: string, x: string)
    requires StartsWith(t, x) && PatternWord(x)
    ensures IsValidUrl(t)
  {
    var w, y := SchemeRest(x);
    Unglue(t, w, y);
    WwwComplete(t[|w|..], y);
    SchemeMatchStep(t, w);
  }

  lemma SchemeMatchStep(t: string, w: string)
    requires w == "" || w == "http://" || w == "https://"
    requires StartsWith(t, w) && MatchWww(t[|w|..])
    ensures IsValidUrl(t)
  {
    if w == "" {
      assert t[|w|..] == t;
      assert MatchWww(t);
    } else if w == "http://" {
      assert StartsWith(t, "http://") && MatchWww(t[7..]);
    } else {
      assert StartsWith(t, "https://") && MatchWww(t[8..]);
    }
  }

  // ---------------------------------------------------------------------------------------
  // What the check promises.
  // ---------------------------------------------------------------------------------------

  /** The matcher accepts a URL exactly when some prefix of it is a word of the pattern:
      what `re.match` decides, backtracking over every alternative. */
  lemma ValidUrlIffPatternPrefix(url: string)
    ensures IsValidUrl(url) <==> MatchesAtStart(url)
  {
    if IsValidUrl(url) {
      var x := PatternSound(url);
    }
    if MatchesAtStart(url) {
      var x :| StartsWith(url, x) && PatternWord(x);
      PatternComplete(url, x);
    }
  }

  /** The match is anchored only at the start: text after an accepted URL is ignored. */
  lemma ValidUrlPrefixClosed(url: string, rest: string)
    requires IsValidUrl(url)
    ensures IsValidUrl(url + rest)
  {
    var x := PatternSound(url);
    assert (url + rest)[..|x|] == url[..|x|];
    PatternComplete(url + rest, x);
  }

  lemma PathWordLength(x: string)
    requires PathWord(x)
    ensures |x| >= 11
  {
    var p, id :| IsPathGroup(p) && IsVideoId(id) && x == p + id;
  }

  lemma HostWordShape(x: string)
    requires HostWord(x)
    ensures |x| >= 20 && StartsWith(x, "youtu")
  {
    var y :| DomainWord(y) && (x == "youtube" + y || x == "youtu" + y || x == "youtube-nocookie" + y);
    var z :| PathWord(z) && (y == ".com/" + z || y == ".be/" + z);
    PathWordLength(z);
  }

  /** Every accepted URL is at least 20 characters long (so the empty string is rejected) and
      names a youtube/youtu/youtube-nocookie host right after the optional scheme and `www.`. */
  lemma ValidUrlShape(url: string)
    requires IsValidUrl(url)
    ensures |url| >= 20 && exists i :: 0 <= i <= 12 && StartsWith(url[i..], "youtu")
  {
    var x := PatternSound(url);
    var i := PatternHostAt(x);
    assert url[..|x|] == x;
    assert url[i..][..5] == x[i..i + 5];
  }

  /** A word of the pattern names the host at most 12 characters in. */
  lemma PatternHostAt(x: string) returns (i: nat)
    requires PatternWord(x)
    ensures i <= 12 && i + 20 <= |x| && x[i..i + 5] == "youtu"
  {
    var scheme, y := SchemeRest(x);
    var www, h := WwwRest(y);
    i := |scheme| + |www|;
    assert x[i..] == h by {
      assert x[|scheme|..] == y;
      assert y[|www|..] == h;
    }
    assert x[i..i + 5] == h[..5];
  }

  /** Splits off the `(https?://)?` group. */
  lemma SchemeRest(x: string) returns (scheme: string, y: string)
    requires PatternWord(x)
    ensures scheme == "" || scheme == "http://" || scheme == "https://"
    ensures x == scheme + y && WwwWord(y)
  {
    y :| WwwWord(y) && (x == y || x == "http://" + y || x == "https://" + y);
    if x == y {
      scheme := "";
    } else if x == "http://" + y {
      scheme := "http://";
    } else {
      scheme := "https://";
    }
  }

  /** Splits off the `(www\.)?` group; what is left starts with the host. */
  lemma WwwRest(y: string) returns (www: string, h: string)
    requires WwwWord(y)
    ensures |www| <= 4 && y == www + h && |h| >= 20 && h[..5] == "youtu"
  {
    h :| HostWord(h) && (y == h || y == "www." + h);
    www := if y == h then "" else "www.";
    HostWordShape(h);
  }

  lemma DomainStep(domain: string, y: string)
    requires (domain == ".com/" || domain == ".be/") && PathWord(y)
    ensures DomainWord(domain + y)
  {
    assert domain + y == ".com/" + y || domain + y == ".be/" + y;
  }

  lemma HostStep(host: string, y: string)
    requires (host == "youtube" || host == "youtu" || host == "youtube-nocookie") && DomainWord(y)
    ensures HostWord(host + y)
  {
    assert host + y == "youtube" + y || host + y == "youtu" + y || host + y == "youtube-nocookie" + y;
  }

  lemma WwwStep(www: string, y: string)
    requires (www == "" || www == "www.") && HostWord(y)
    ensures WwwWord(www + y)
  {
    assert www + y == y || www + y == "www." + y;
  }

  lemma SchemeStep(scheme: string, y: string)
    requires (scheme == "" || scheme == "http://" || scheme == "https://") && WwwWord(y)
    ensures PatternWord(scheme + y)
  {
    assert scheme + y == y || scheme + y == "http://" + y || scheme + y == "https://" + y;
  }

  /** One word per group, put together, is a word of the whole pattern. */
  lemma ChoiceWord(scheme: string, www: string, host: string, domain: string, y: string)
    requires scheme == "" || scheme == "http://" || scheme == "https://"
    requires www == "" || www == "www."
    requires host == "youtube" || host == "youtu" || host == "youtube-nocookie"
    requires domain == ".com/" || domain == ".be/"
    requires PathWord(y)
    ensures PatternWord(scheme + (www + (host + (domain + y))))
  {
    DomainStep(domain, y);
    HostStep(host, domain + y);
    WwwStep(www, host + (domain + y));
    SchemeStep(scheme, www + (host + (domain + y)));
  }

  lemma ChoiceAssoc(scheme: string, www: string, host: string, domain: string,
                    path: string, id: string, rest: string)
    ensures scheme + www + host + domain + path + id + rest
         == scheme + (www + (host + (domain + (path + id)))) + rest
  {
  }

  /** Every choice of one word per group, followed by anything at all, is accepted. */
  lemma AcceptsEveryChoice(scheme: string, www: string, host: string, domain: string,
                           path: string, id: string, rest: string)
    requires scheme == "" || scheme == "http://" || scheme == "https://"
    requires www == "" || www == "www."
    requires host == "youtube" || host == "youtu" || host == "youtube-nocookie"
    requires domain == ".com/" || domain == ".be/"
    requires IsPathGroup(path) && IsVideoId(id)
    ensures IsValidUrl(scheme + www + host + domain + path + id + rest)
  {
    assert PathWord(path + id);
    ChoiceWord(scheme, www, host, domain, path + id);
    PrefixAccepted(scheme + (www + (host + (domain + (path + id)))), rest);
    ChoiceAssoc(scheme, www, host, domain, path, id, rest);
  }

  lemma PrefixAccepted(x: string, rest: string)
    requires PatternWord(x)
    ensures IsValidUrl(x + rest)
  {
    assert (x + rest)[..|x|] == x;
    PatternComplete(x + rest, x);
  }

  /** The short-link form with a scheme. */
  lemma ShortLinkAccepted()
    ensures IsValidUrl("https://youtu.be/abcdefghijk")
  {
    assert IsVideoId("abcdefghijk");
    AcceptsEveryChoice("https://", "", "youtu", ".be/", "", "abcdefghijk", "");
    assert "https://" + "" + "youtu" + ".be/" + "" + "abcdefghijk" + "" == "https://youtu.be/abcdefghijk";
  }

  /** The watch form with scheme and `www.`. */
  lemma WatchAccepted()
    ensures IsValidUrl("https://www.youtube.com/watch?v=dQw4w9WgXcQ")
  {
    SampleId();
    AcceptsEveryChoice("https://", "www.", "youtube", ".com/", "watch?v=", "dQw4w9WgXcQ", "");
    WatchSpelling();
  }

  lemma WatchSpelling()
    ensures "https://" + "www." + "youtube" + ".com/" + "watch?v=" + "dQw4w9WgXcQ" + ""
      == "https://www.youtube.com/watch?v=dQw4w9WgXcQ"
  {
  }

  /** The embed form with no scheme, followed by further query text. */
  lemma EmbedAccepted()
    ensures IsValidUrl("youtube.com/embed/dQw4w9WgXcQ&t=1")
  {
    SampleId();
    AcceptsEveryChoice("", "", "youtube", ".com/", "embed/", "dQw4w9WgXcQ", "&t=1");
    EmbedSpelling();
  }

  lemma EmbedSpelling()
    ensures "" + "" + "youtube" + ".com/" + "embed/" + "dQw4w9WgXcQ" + "&t=1"
      == "youtube.com/embed/dQw4w9WgXcQ&t=1"
  {
  }

  /** Any non-empty line followed by `?v=` is a word of the path group. */
  lemma LoosePathGroup(pre: string)
    requires pre != [] && '\n' !in pre
    ensures IsPathGroup(pre + "?v=")
  {
    var p := pre + "?v=";
    assert p[|p| - 3..] == "?v=" && p[..|p| - 3] == pre;
  }

  lemma SampleId()
    ensures IsVideoId("dQw4w9WgXcQ")
  {
  }

  lemma SampleLoosePath()
    ensures IsPathGroup("x?v=")
  {
    LoosePathGroup("x");
    assert "x" + "?v=" == "x?v=";
  }

  /** The loose `.+?v=` form on the no-cookie host, whatever follows. */
  lemma LooseQueryAccepted(rest: string)
    ensures IsValidUrl("youtube-nocookie.com/x?v=dQw4w9WgXcQ" + rest)
  {
    SampleId();
    SampleLoosePath();
    AcceptsEveryChoice("", "", "youtube-nocookie", ".com/", "x?v=", "dQw4w9WgXcQ", "");
    SampleLooseSpelling();
    ValidUrlPrefixClosed("youtube-nocookie.com/x?v=dQw4w9WgXcQ", rest);
  }

  lemma SampleLooseSpelling()
    ensures "" + "" + "youtube-nocookie" + ".com/" + "x?v=" + "dQw4w9WgXcQ" + ""
         == "youtube-nocookie.com/x?v=dQw4w9WgXcQ"
  {
  }

  /** The empty string, and anything too short to hold host, domain and id, is rejected. */
  lemma ShortRejected(url: string)
    requires |url| < 20
    ensures !IsValidUrl(url)
  {
    if IsValidUrl(url) {
      ValidUrlShape(url);
    }
  }
}

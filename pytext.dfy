/** The handful of Python `str` built-ins the downloaders rely on: `strip()`, `split(sep)[0]`,
    `str(n)`, `int(s)`, `startswith` and POSIX `os.path.join`. */
module PyText {
  import opened Wrappers

  /** The characters for which `str.isspace()` holds, which `strip()` and `int()` drop: the
      ASCII controls 9-13 and 28-31, the space, and the Unicode separators and spaces. */
  predicate IsSpace(c: char) {
    || c == ' ' || '\t' <= c <= '\r' || '\U{1C}' <= c <= '\U{1F}'
    || c == '\U{85}' || c == '\U{A0}' || c == '\U{1680}'
    || '\U{2000}' <= c <= '\U{200A}' || c == '\U{2028}' || c == '\U{2029}'
    || c == '\U{202F}' || c == '\U{205F}' || c == '\U{3000}'
  }

  predicate StartsWith(s: string, prefix: string) {
    |prefix| <= |s| && s[..|prefix|] == prefix
  }

  /** `s.lstrip()` */
  function StripLeft(s: string): (r: string)
    ensures |r| <= |s|
    ensures forall i :: 0 <= i < |s| - |r| ==> IsSpace(s[i])
    ensures r != [] ==> !IsSpace(r[0])
  {
    if s != [] && IsSpace(s[0]) then StripLeft(s[1..]) else s
  }

  /** `s.rstrip()` */
  function StripRight(s: string): (r: string)
    ensures |r| <= |s| && r == s[..|r|]
    ensures forall i :: |r| <= i < |s| ==> IsSpace(s[i])
    ensures r != [] ==> !IsSpace(r[|r| - 1])
  {
    if s != [] && IsSpace(s[|s| - 1]) then StripRight(s[..|s| - 1]) else s
  }

  /** `s.strip()`: the result has no whitespace at either end, and a string that has none
      there is returned unchanged. */
  function Strip(s: string): (r: string)
    ensures |r| <= |s|
    ensures r != [] ==> !IsSpace(r[0]) && !IsSpace(r[|r| - 1])
    ensures s != [] && !IsSpace(s[0]) && !IsSpace(s[|s| - 1]) ==> r == s
  {
    StripRight(StripLeft(s))
  }

  /** `lstrip()` removes a prefix: what is left is a suffix of the input. */
  lemma {:induction false} StripLeftIsSuffix(s: string)
    ensures StripLeft(s) == s[|s| - |StripLeft(s)|..]
  {
    if s != [] && IsSpace(s[0]) {
      StripLeftIsSuffix(s[1..]);
      assert s[1..][|s| - 1 - |StripLeft(s)|..] == s[|s| - |StripLeft(s)|..];
    }
  }

  /** `strip()` only removes whitespace: its result is a slice of the input with nothing but
      whitespace before and after it. */
  lemma StripIsTrim(s: string)
    ensures exists i :: 0 <= i <= |s| - |Strip(s)| && SurroundedBy(s, Strip(s), i)
  {
    var left := StripLeft(s);
    var r := Strip(s);
    var i := |s| - |left|;
    StripLeftIsSuffix(s);
    assert r == s[i..i + |r|];
    assert forall j :: i + |r| <= j < |s| ==> s[j] == left[j - i];
    assert SurroundedBy(s, r, i);
  }

  /** `r` is the slice of `s` that starts at `i`, and everything around it is whitespace. */
  predicate SurroundedBy(s: string, r: string, i: nat)
    requires i + |r| <= |s|
  {
    && r == s[i..i + |r|]
    && (forall j :: 0 <= j < i ==> IsSpace(s[j]))
    && (forall j :: i + |r| <= j < |s| ==> IsSpace(s[j]))
  }

  /** Whitespace appended after a word is removed again by `strip()`. */
  lemma {:induction false} StripTrailingSpace(w: string, pad: string)
    requires w != [] && !IsSpace(w[0]) && !IsSpace(w[|w| - 1])
    requires forall i :: 0 <= i < |pad| ==> IsSpace(pad[i])
    ensures Strip(w + pad) == w
  {
    assert StripLeft(w + pad) == w + pad by {
      assert (w + pad)[0] == w[0];
    }
    StripRightOfPadded(w, pad);
  }

  lemma {:induction false} StripRightOfPadded(w: string, pad: string)
    requires w != [] && !IsSpace(w[|w| - 1])
    requires forall i :: 0 <= i < |pad| ==> IsSpace(pad[i])
    ensures StripRight(w + pad) == w
    decreases |pad|
  {
    if pad == [] {
      assert w + pad == w;
    } else {
      var s := w + pad;
      assert s[|s| - 1] == pad[|pad| - 1];
      assert s[..|s| - 1] == w + pad[..|pad| - 1];
      StripRightOfPadded(w, pad[..|pad| - 1]);
    }
  }

  /** `sep` occurs in `s` starting at index `i`. */
  predicate OccursAt(s: string, sep: string, i: int) {
    0 <= i && i + |sep| <= |s| && s[i..i + |sep|] == sep
  }

  /** `s.split(sep)[0]`: the text before the first occurrence of `sep`, or all of `s`
      when `sep` does not occur (Python refuses an empty separator). */
  function SplitHead(s: string, sep: string): (r: string)
    requires sep != []
    ensures StartsWith(s, r)
    ensures forall i :: 0 <= i < |r| ==> !OccursAt(s, sep, i)
    ensures |r| < |s| ==> OccursAt(s, sep, |r|)
    decreases |s|
  {
    if |s| < |sep| then s
    else if s[..|sep|] == sep then []
    else
      var rest := SplitHead(s[1..], sep);
      assert forall i :: 1 <= i < |rest| + 1 ==> OccursAt(s, sep, i) == OccursAt(s[1..], sep, i - 1);
      [s[0]] + rest
  }

  /** When the separator's first character does not occur in `a`, splitting `a + sep + b`
      gives back `a`. */
  lemma SplitHeadOfJoined(a: string, sep: string, b: string)
    requires sep != [] && sep[0] !in a
    ensures SplitHead(a + sep + b, sep) == a
  {
    var s := a + sep + b;
    var r := SplitHead(s, sep);
    assert s[|a|..|a| + |sep|] == sep;
    assert OccursAt(s, sep, |a|);
    assert |r| <= |a|;
    if |r| < |a| {
      assert false;
    }
    assert r == s[..|a|];
  }

  predicate IsDigit(c: char) {
    '0' as int <= c as int <= '9' as int
  }

  predicate AllDigits(s: string) {
    forall i :: 0 <= i < |s| ==> IsDigit(s[i])
  }

  function DigitChar(d: nat): (c: char)
    requires d < 10
    ensures IsDigit(c)
  {
    ('0' as int + d) as char
  }

  function DigitValue(c: char): (d: nat)
    requires IsDigit(c)
    ensures d < 10
  {
    c as int - '0' as int
  }

  /** `str(n)` for a non-negative int: its decimal digits, most significant first. */
  function ShowNat(n: nat): (r: string)
    ensures r != [] && AllDigits(r)
    decreases n
  {
    if n < 10 then [DigitChar(n)] else ShowNat(n / 10) + [DigitChar(n % 10)]
  }

  /** The value of a string of decimal digits; leading zeros are allowed, as `int()` allows them. */
  function DigitsValue(s: string): nat
    requires AllDigits(s)
    decreases |s|
  {
    if s == [] then 0 else DigitsValue(s[..|s| - 1]) * 10 + DigitValue(s[|s| - 1])
  }

  /** Reading back the digits `str(n)` prints gives `n`. */
  lemma {:induction false} ShowNatValue(n: nat)
    ensures DigitsValue(ShowNat(n)) == n
    decreases n
  {
    var s := ShowNat(n);
    if n < 10 {
      assert s[..|s| - 1] == [];
    } else {
      ShowNatValue(n / 10);
      assert s[..|s| - 1] == ShowNat(n / 10);
      assert DigitValue(DigitChar(n % 10)) == n % 10;
    }
  }

  /** `int(s)` for a str: optional surrounding whitespace, an optional sign, then at least one
      decimal digit; None where Python raises ValueError. */
  function ParseInt(s: string): Option<int> {
    var t := Strip(s);
    if t != [] && (t[0] == '+' || t[0] == '-') then
      var ds := t[1..];
      if ds != [] && AllDigits(ds) then
        var v: int := DigitsValue(ds);
        Some(if t[0] == '-' then -v else v)
      else None
    else if t != [] && AllDigits(t) then Some(DigitsValue(t))
    else None
  }

  /** `int(str(n)) == n` for every non-negative `n`. */
  lemma ParseShowNat(n: nat)
    ensures ParseInt(ShowNat(n)) == Some(n)
  {
    var s := ShowNat(n);
    assert IsDigit(s[0]) && IsDigit(s[|s| - 1]);
    assert Strip(s) == s;
    ShowNatValue(n);
  }

  /** The longest run of digits at the front of `s`, and what follows it. */
  function SpanDigits(s: string): (r: (string, string))
    ensures r.0 + r.1 == s && AllDigits(r.0)
    ensures r.1 == [] || !IsDigit(r.1[0])
    decreases |s|
  {
    if s != [] && IsDigit(s[0]) then
      var (ds, rest) := SpanDigits(s[1..]);
      assert s == [s[0]] + (ds + rest);
      ([s[0]] + ds, rest)
    else ([], s)
  }

  /** A digit run followed by a non-digit is split exactly there. */
  lemma {:induction false} SpanDigitsOf(ds: string, rest: string)
    requires AllDigits(ds)
    requires rest == [] || !IsDigit(rest[0])
    ensures SpanDigits(ds + rest) == (ds, rest)
    decreases |ds|
  {
    if ds == [] {
      assert ds + rest == rest;
    } else {
      var s := ds + rest;
      assert s[0] == ds[0] && s[1..] == ds[1..] + rest;
      SpanDigitsOf(ds[1..], rest);
      assert [ds[0]] + ds[1..] == ds;
    }
  }

  /** The number spelled by the digits right after `head`, and what follows them; None where
      `s` does not start with `head` or no digit follows it. */
  function ReadNumberAfter(s: string, head: string): Option<(nat, string)> {
    if !StartsWith(s, head) then None
    else
      var (ds, rest) := SpanDigits(s[|head|..]);
      if ds == [] then None else Some((DigitsValue(ds), rest))
  }

  /** A digit run written after `head` and before a non-digit is read back. */
  lemma ReadNumberAfterOf(head: string, ds: string, rest: string)
    requires ds != [] && AllDigits(ds)
    requires rest == [] || !IsDigit(rest[0])
    ensures ReadNumberAfter(head + ds + rest, head) == Some((DigitsValue(ds), rest))
  {
    var s := head + ds + rest;
    assert s[..|head|] == head;
    assert s[|head|..] == ds + rest;
    SpanDigitsOf(ds, rest);
  }

  lemma Regroup(a: string, b: string, c: string, d: string, e: string)
    ensures a + b + c + d + e == a + b + (c + d + e)
  {
  }

  predicate EndsWith(s: string, suffix: string) {
    |suffix| <= |s| && s[|s| - |suffix|..] == suffix
  }

  /** `os.path.join(a, b)` on POSIX, for two components: an absolute `b` replaces `a`;
      otherwise `b` is appended under `a`, with one `/` between them when `a` needs it. */
  function PathJoin(a: string, b: string): (r: string)
    ensures StartsWith(b, "/") ==> r == b
    ensures !StartsWith(b, "/") ==> StartsWith(r, a) && EndsWith(r, b) && |r| <= |a| + 1 + |b|
  {
    if StartsWith(b, "/") then b
    else if a == [] || a[|a| - 1] == '/' then a + b
    else a + "/" + b
  }
}

/** Link-card construction from Open Graph metadata (send_with_card.py).
    The two regular expressions of that file are written out as recursive
    functions with the exact matching behaviour of Python's `re`:
      _META_PATTERN     `<meta property="og:.*?>`      used with `findall`
      _CONTENT_PATTERN  `<meta[^>]+content="([^"]+)"`  used with `match`
    Network access (the page fetch, the image download, the blob upload and
    the post itself) is given as outcomes. */
module OgTags {
  import opened Outcomes
  import opened Text

  /** The literal part of `_META_PATTERN`. */
  const META_OPEN := "<meta property=\"og:"
  /** The literal start of `_CONTENT_PATTERN`. */
  const META_LEAD := "<meta"
  /** The literal `content="` of `_CONTENT_PATTERN`. */
  const CONTENT_ATTR := "content=\""

  // ---------------------------------------------------------------------------
  // _META_PATTERN.findall(text)

  /** `s[lo..hi]` holds neither `>` nor a newline, so the lazy `.*?` (whose `.`
      does not match a newline) can cover it before meeting the closing `>`. */
  predicate Unbroken(s: string, lo: nat, hi: nat)
    requires lo <= hi <= |s|
  {
    forall k :: lo <= k < hi ==> s[k] != '>' && s[k] != '\n'
  }

  /** The `>` that ends `.*?>` when the lazy part starts at `j`: the first `>`
      at or after `j`, provided no newline comes first. */
  function TagClose(s: string, j: nat): (r: Option<nat>)
    requires j <= |s|
    ensures r.Some? ==> j <= r.value < |s|
    decreases |s| - j
  {
    if j == |s| then None
    else if s[j] == '>' then Some(j)
    else if s[j] == '\n' then None
    else TagClose(s, j + 1)
  }

  /** TagClose finds the first `>` at or after `j` with no newline before it,
      and finds nothing exactly when a newline or the end of the text comes
      before any `>`. */
  lemma {:induction false} TagCloseExact(s: string, j: nat)
    requires j <= |s|
    ensures TagClose(s, j).Some? ==> s[TagClose(s, j).value] == '>' && Unbroken(s, j, TagClose(s, j).value)
    ensures TagClose(s, j).None? ==> forall k :: j <= k < |s| && Unbroken(s, j, k) ==> s[k] != '>'
    decreases |s| - j
  {
    if j < |s| && s[j] != '>' && s[j] != '\n' {
      TagCloseExact(s, j + 1);
      if TagClose(s, j).None? {
        forall k | j <= k < |s| && Unbroken(s, j, k) ensures s[k] != '>' {
          if k > j {
            assert Unbroken(s, j + 1, k);
          }
        }
      }
    }
  }

  /** The end of the match of `_META_PATTERN` that starts at index `i`, if any. */
  function MatchAt(s: string, i: nat): (r: Option<nat>)
    requires i <= |s|
    ensures r.Some? ==> i + |META_OPEN| < r.value <= |s|
  {
    if i + |META_OPEN| <= |s| && s[i..i + |META_OPEN|] == META_OPEN then
      match TagClose(s, i + |META_OPEN|)
      case Some(k) => Some(k + 1)
      case None => None
    else None
  }

  /** Reference definition of one match of `_META_PATTERN`: it starts with
      `<meta property="og:`, ends with `>`, and has neither `>` nor a newline
      in between. */
  ghost predicate IsOgTag(t: string) {
    && |META_OPEN| < |t|
    && t[..|META_OPEN|] == META_OPEN
    && t[|t| - 1] == '>'
    && Unbroken(t, |META_OPEN|, |t| - 1)
  }

  /** A match starts at `i` and ends at `e` exactly when `s[i..e]` is an Open
      Graph meta tag in the sense of IsOgTag: the match ends at the first `>`
      after `<meta property="og:`, and nowhere else. */
  lemma MatchAtExact(s: string, i: nat, e: nat)
    requires i <= e <= |s|
    ensures MatchAt(s, i) == Some(e) <==> IsOgTag(s[i..e])
  {
    if MatchAt(s, i) == Some(e) {
      MatchIsOgTag(s, i, e);
    }
    if IsOgTag(s[i..e]) {
      OgTagIsMatch(s, i, e);
    }
  }

  /** A match covers an Open Graph meta tag. */
  lemma MatchIsOgTag(s: string, i: nat, e: nat)
    requires i <= e <= |s| && MatchAt(s, i) == Some(e)
    ensures IsOgTag(s[i..e])
  {
    var n := |META_OPEN|;
    var t := s[i..e];
    TagCloseExact(s, i + n);
    assert t[..n] == s[i..i + n];
    forall k | n <= k < |t| - 1 ensures t[k] != '>' && t[k] != '\n' {
      assert t[k] == s[i + k];
    }
  }

  /** An Open Graph meta tag is matched where it stands. */
  lemma OgTagIsMatch(s: string, i: nat, e: nat)
    requires i <= e <= |s| && IsOgTag(s[i..e])
    ensures MatchAt(s, i) == Some(e)
  {
    var n := |META_OPEN|;
    var t := s[i..e];
    assert s[i..i + n] == t[..n] by {
      forall k | 0 <= k < n ensures s[i..i + n][k] == t[..n][k] {
        assert s[i + k] == t[k];
      }
    }
    assert s[e - 1] == t[|t| - 1];
    forall k | i + n <= k < e - 1 ensures s[k] != '>' && s[k] != '\n' {
      assert s[k] == t[k - i];
    }
    assert Unbroken(s, i + n, e - 1);
    TagCloseExact(s, i + n);
    var c := TagClose(s, i + n);
    if c.None? {
      assert false;
    } else if c.value < e - 1 {
      assert false;
    } else if c.value > e - 1 {
      assert false;
    }
  }

  /** The span `[start, stop)` of one match in the scanned text. */
  datatype Span = Span(start: nat, stop: nat)

  /** `findall` from index `i`: try a match at every index in turn; after a
      match, carry on at its end (matches never overlap). */
  function Scan(s: string, i: nat): seq<Span>
    requires i <= |s|
    decreases |s| - i
  {
    if i == |s| then []
    else
      match MatchAt(s, i)
      case Some(e) => [Span(i, e)] + Scan(s, e)
      case None => Scan(s, i + 1)
  }

  /** Every span of the scan from `i` is a match of the pattern inside
      `[i, |s|)`, and the spans come in order without overlapping. */
  lemma {:induction false} ScanSpans(s: string, i: nat)
    requires i <= |s|
    ensures forall k :: 0 <= k < |Scan(s, i)| ==>
              i <= Scan(s, i)[k].start < Scan(s, i)[k].stop <= |s| && MatchAt(s, Scan(s, i)[k].start) == Some(Scan(s, i)[k].stop)
    ensures forall k :: 0 <= k < |Scan(s, i)| - 1 ==> Scan(s, i)[k].stop <= Scan(s, i)[k + 1].start
    decreases |s| - i
  {
    if i < |s| {
      match MatchAt(s, i)
      case Some(e) =>
        ScanSpans(s, e);
        var r := Scan(s, i);
        var tail := Scan(s, e);
        assert r == [Span(i, e)] + tail;
        forall k | 1 <= k < |r| ensures r[k] == tail[k - 1] && e <= r[k].start {
        }
      case None =>
        ScanSpans(s, i + 1);
        assert Scan(s, i) == Scan(s, i + 1);
    }
  }

  /** `_META_PATTERN.findall(text)`: the matched substrings, in document order. */
  function Tags(text: string): seq<string> {
    var spans := Scan(text, 0);
    ScanSpans(text, 0);
    seq(|spans|, k requires 0 <= k < |spans| => text[spans[k].start..spans[k].stop])
  }

  /** No match is missed: every index where a match could start lies inside a
      reported match, so the scan reports the leftmost matches. */
  lemma {:induction false} ScanComplete(s: string, i: nat, p: nat)
    requires i <= p < |s| && MatchAt(s, p).Some?
    ensures exists k :: 0 <= k < |Scan(s, i)| && Scan(s, i)[k].start <= p < Scan(s, i)[k].stop
    decreases |s| - i
  {
    var r := Scan(s, i);
    match MatchAt(s, i)
    case Some(e) =>
      if p < e {
        assert r[0] == Span(i, e);
      } else {
        ScanComplete(s, e, p);
        var k :| 0 <= k < |Scan(s, e)| && Scan(s, e)[k].start <= p < Scan(s, e)[k].stop;
        assert r[k + 1] == Scan(s, e)[k];
      }
    case None =>
      if p == i {
        assert false;
      } else {
        ScanComplete(s, i + 1, p);
      }
  }

  /** Every string `findall` returns is an Open Graph meta tag: it starts with
      `<meta property="og:`, ends at the first `>` after it, and holds no
      newline. */
  lemma TagsAreOgTags(text: string)
    ensures forall t :: t in Tags(text) ==> IsOgTag(t)
  {
    var spans := Scan(text, 0);
    ScanSpans(text, 0);
    forall t | t in Tags(text) ensures IsOgTag(t) {
      var k :| 0 <= k < |spans| && t == text[spans[k].start..spans[k].stop];
      MatchAtExact(text, spans[k].start, spans[k].stop);
    }
  }

  // ---------------------------------------------------------------------------
  // findall over a concatenation

  /** From `j`, a `>` or a newline comes before the end of `s`: the lazy `.*?`
      started at `j` is decided inside `s`, whatever text follows. */
  predicate Stops(s: string, j: nat)
    decreases |s| - j
  {
    j < |s| && (s[j] == '>' || s[j] == '\n' || Stops(s, j + 1))
  }

  /** Every `<meta property="og:` in `s` is followed, inside `s`, by a `>` or a
      newline: no match begun in `s` runs on into the text after it. */
  predicate Settled(s: string) {
    forall p: nat :: p < |s| && OccursAt(s, META_OPEN, p) ==> Stops(s, p + |META_OPEN|)
  }

  /** The spans of a text moved `d` characters to the right. */
  function Shift(spans: seq<Span>, d: nat): seq<Span> {
    if spans == [] then [] else [Span(spans[0].start + d, spans[0].stop + d)] + Shift(spans[1..], d)
  }

  lemma {:induction false} ShiftAt(spans: seq<Span>, d: nat, m: nat)
    requires m < |spans|
    ensures |Shift(spans, d)| == |spans| && Shift(spans, d)[m] == Span(spans[m].start + d, spans[m].stop + d)
  {
    if m > 0 {
      ShiftAt(spans[1..], d, m - 1);
    } else {
      ShiftLength(spans, d);
    }
  }

  lemma {:induction false} ShiftLength(spans: seq<Span>, d: nat)
    ensures |Shift(spans, d)| == |spans|
  {
    if spans != [] {
      ShiftLength(spans[1..], d);
    }
  }

  /** `s` holds `rest` from index `d` to its end. */
  ghost predicate EndsWith(s: string, rest: string, d: nat) {
    d + |rest| == |s| && forall k :: 0 <= k < |rest| ==> s[d + k] == rest[k]
  }

  /** The lazy part only looks forward, so text in front of `rest` moves its
      result without changing it. */
  lemma {:induction false} TagCloseShift(s: string, rest: string, d: nat, j: nat)
    requires EndsWith(s, rest, d) && j <= |rest|
    ensures TagClose(rest, j).None? ==> TagClose(s, d + j).None?
    ensures TagClose(rest, j).Some? ==> TagClose(s, d + j) == Some(d + TagClose(rest, j).value)
    decreases |rest| - j
  {
    if j < |rest| {
      assert s[d + j] == rest[j];
      TagCloseShift(s, rest, d, j + 1);
    }
  }

  lemma MatchAtShift(s: string, rest: string, d: nat, q: nat)
    requires EndsWith(s, rest, d) && q <= |rest|
    ensures MatchAt(rest, q).None? ==> MatchAt(s, d + q).None?
    ensures MatchAt(rest, q).Some? ==> MatchAt(s, d + q) == Some(d + MatchAt(rest, q).value)
  {
    var n := |META_OPEN|;
    if q + n <= |rest| {
      assert s[d + q..d + q + n] == rest[q..q + n] by {
        forall k | q <= k < q + n ensures s[d + k] == rest[k] {
        }
      }
      TagCloseShift(s, rest, d, q + n);
    }
  }

  /** The scan of the text after the first `d` characters is the scan of
      that text alone, moved. */
  lemma {:induction false} ScanShift(s: string, rest: string, d: nat, q: nat)
    requires EndsWith(s, rest, d) && q <= |rest|
    ensures Scan(s, d + q) == Shift(Scan(rest, q), d)
    decreases |rest| - q
  {
    if q == |rest| {
      assert Scan(s, d + q) == [];
    } else {
      MatchAtShift(s, rest, d, q);
      match MatchAt(rest, q)
      case Some(e) =>
        ScanShift(s, rest, d, e);
        ScanMatchStep(rest, q, e);
        ScanMatchStep(s, d + q, d + e);
        ShiftStep(Scan(rest, q), Scan(rest, e), Scan(s, d + q), Scan(s, d + e), Span(q, e), d);
      case None =>
        ScanShift(s, rest, d, q + 1);
        ScanShiftSkip(s, rest, d, q);
    }
  }

  /** Moving a list that starts with `x` moves `x` and the rest. */
  lemma ShiftStep(a: seq<Span>, b: seq<Span>, c: seq<Span>, t: seq<Span>, x: Span, d: nat)
    requires a == [x] + b && c == [Span(x.start + d, x.stop + d)] + t && t == Shift(b, d)
    ensures c == Shift(a, d)
  {
    ShiftCons(x, b, d);
  }

  /** The step of ScanShift where neither text has a match. */
  lemma ScanShiftSkip(s: string, rest: string, d: nat, q: nat)
    requires q < |rest| && d + q < |s|
    requires MatchAt(rest, q).None? && MatchAt(s, d + q).None?
    requires Scan(s, d + q + 1) == Shift(Scan(rest, q + 1), d)
    ensures Scan(s, d + q) == Shift(Scan(rest, q), d)
  {
    ScanStep(rest, q);
    ScanStep(s, d + q);
  }

  /** The scan at a match: the match, then the scan from its end. */
  lemma ScanMatchStep(s: string, i: nat, e: nat)
    requires i < |s| && MatchAt(s, i) == Some(e)
    ensures Scan(s, i) == [Span(i, e)] + Scan(s, e)
  {
  }

  /** One step of the scan. */
  lemma ScanStep(s: string, i: nat)
    requires i < |s|
    ensures MatchAt(s, i).Some? ==> Scan(s, i) == [Span(i, MatchAt(s, i).value)] + Scan(s, MatchAt(s, i).value)
    ensures MatchAt(s, i).None? ==> Scan(s, i) == Scan(s, i + 1)
  {
  }

  lemma ShiftCons(x: Span, tail: seq<Span>, d: nat)
    ensures Shift([x] + tail, d) == [Span(x.start + d, x.stop + d)] + Shift(tail, d)
  {
    assert ([x] + tail)[1..] == tail;
  }

  lemma {:induction false} StopsPrefix(pre: string, rest: string, j: nat)
    requires Stops(pre, j)
    ensures TagClose(pre + rest, j) == TagClose(pre, j)
    decreases |pre| - j
  {
    assert (pre + rest)[j] == pre[j];
    if pre[j] != '>' && pre[j] != '\n' {
      StopsPrefix(pre, rest, j + 1);
    }
  }

  /** A match that starts in a settled prefix is the same match whatever
      follows, as long as what follows starts with `<`: `<meta property="og:`
      holds no other `<`, so it cannot start in the prefix and end after it. */
  lemma MatchAtPrefix(pre: string, rest: string, p: nat)
    requires Settled(pre) && (rest == [] || rest[0] == '<')
    requires p < |pre|
    ensures MatchAt(pre + rest, p) == MatchAt(pre, p)
  {
    var s := pre + rest;
    var n := |META_OPEN|;
    if p + n <= |pre| {
      assert s[p..p + n] == pre[p..p + n];
      if OccursAt(pre, META_OPEN, p) {
        StopsPrefix(pre, rest, p + n);
      }
    } else if p + n <= |s| {
      var d := |pre| - p;
      assert s[|pre|] == rest[0] == '<';
      assert META_OPEN[d] != '<';
      assert s[p..p + n][d] == s[|pre|];
    }
  }

  lemma {:induction false} ScanPrefix(pre: string, rest: string, i: nat)
    requires Settled(pre) && (rest == [] || rest[0] == '<')
    requires i <= |pre|
    ensures Scan(pre + rest, i) == Scan(pre, i) + Shift(Scan(rest, 0), |pre|)
    decreases |pre| - i
  {
    var s := pre + rest;
    if i == |pre| {
      assert EndsWith(s, rest, |pre|);
      ScanShift(s, rest, |pre|, 0);
      assert Scan(pre, i) == [];
    } else {
      MatchAtPrefix(pre, rest, i);
      match MatchAt(pre, i)
      case Some(e) =>
        ScanPrefix(pre, rest, e);
        ScanMatchStep(pre, i, e);
        ScanMatchStep(s, i, e);
        ConsAppend(Scan(s, i), Scan(pre, i), Scan(s, e), Scan(pre, e), Shift(Scan(rest, 0), |pre|), Span(i, e));
      case None =>
        ScanPrefix(pre, rest, i + 1);
        ScanStep(pre, i);
        ScanStep(s, i);
    }
  }

  /** `[x] + a` followed by `t` is `[x]` followed by `a + t`. */
  lemma ConsAppend(c: seq<Span>, p: seq<Span>, ct: seq<Span>, pt: seq<Span>, t: seq<Span>, x: Span)
    requires c == [x] + ct && p == [x] + pt && ct == pt + t
    ensures c == p + t
  {
  }

  /** `findall` over a settled text followed by text that starts with `<` (or
      by nothing) returns the tags of the first part followed by the tags of
      the second. */
  lemma TagsConcat(pre: string, rest: string)
    requires Settled(pre) && (rest == [] || rest[0] == '<')
    ensures Tags(pre + rest) == Tags(pre) + Tags(rest)
  {
    var a := Scan(pre, 0);
    ScanPrefix(pre, rest, 0);
    ShiftLength(Scan(rest, 0), |pre|);
    var l := Tags(pre + rest);
    var r := Tags(pre) + Tags(rest);
    TagsLength(pre + rest);
    TagsLength(pre);
    TagsLength(rest);
    assert |l| == |r|;
    forall k | 0 <= k < |l| ensures l[k] == r[k] {
      if k < |a| {
        TagInPrefix(pre, rest, k);
      } else {
        TagInSuffix(pre, rest, k - |a|);
      }
    }
  }

  /** `findall` returns one string per span of the scan. */
  lemma TagsLength(text: string)
    ensures |Tags(text)| == |Scan(text, 0)|
  {
  }

  /** The `k`-th string `findall` returns is the text under the `k`-th span. */
  lemma TagAt(text: string, k: nat)
    requires k < |Scan(text, 0)|
    ensures Scan(text, 0)[k].start <= Scan(text, 0)[k].stop <= |text|
    ensures k < |Tags(text)| && Tags(text)[k] == text[Scan(text, 0)[k].start..Scan(text, 0)[k].stop]
  {
    ScanSpans(text, 0);
  }

  /** A tag of the settled part keeps its place in the list of the whole. */
  lemma TagInPrefix(pre: string, rest: string, k: nat)
    requires Scan(pre + rest, 0) == Scan(pre, 0) + Shift(Scan(rest, 0), |pre|)
    requires k < |Scan(pre, 0)|
    ensures k < |Tags(pre + rest)| && k < |Tags(pre)| && Tags(pre + rest)[k] == Tags(pre)[k]
  {
    var x := Scan(pre, 0)[k];
    TagAt(pre, k);
    assert Scan(pre + rest, 0)[k] == x;
    TagAt(pre + rest, k);
    SpanInPrefix(pre, rest, x);
  }

  /** The `m`-th tag of the second part comes after the settled part's tags in
      the list of the whole. */
  lemma TagInSuffix(pre: string, rest: string, m: nat)
    requires Scan(pre + rest, 0) == Scan(pre, 0) + Shift(Scan(rest, 0), |pre|)
    requires m < |Scan(rest, 0)|
    ensures var k := |Scan(pre, 0)| + m;
            k < |Tags(pre + rest)| && m < |Tags(rest)| && Tags(pre + rest)[k] == Tags(rest)[m]
  {
    var b := Scan(rest, 0);
    var k := |Scan(pre, 0)| + m;
    ShiftAt(b, |pre|, m);
    assert Scan(pre + rest, 0)[k] == Shift(b, |pre|)[m];
    TagAt(rest, m);
    TagAt(pre + rest, k);
    SpanInSuffix(pre, rest, b[m]);
  }

  lemma SpanInPrefix(pre: string, rest: string, x: Span)
    requires x.start <= x.stop <= |pre|
    ensures (pre + rest)[x.start..x.stop] == pre[x.start..x.stop]
  {
  }

  lemma SpanInSuffix(pre: string, rest: string, x: Span)
    requires x.start <= x.stop <= |rest|
    ensures (pre + rest)[|pre| + x.start..|pre| + x.stop] == rest[x.start..x.stop]
  {
  }

  lemma {:induction false} StopsBeforeClose(s: string, j: nat)
    requires j < |s| && s[|s| - 1] == '>'
    ensures Stops(s, j)
    decreases |s| - j
  {
    if s[j] != '>' && s[j] != '\n' {
      StopsBeforeClose(s, j + 1);
    }
  }

  /** A whole Open Graph tag is settled: it ends with its own `>`. */
  lemma OgTagSettled(t: string)
    requires IsOgTag(t)
    ensures Settled(t)
  {
    var n := |META_OPEN|;
    forall p: nat | p < |t| && OccursAt(t, META_OPEN, p) ensures Stops(t, p + n) {
      assert t[p + n - 1] == t[p..p + n][n - 1] == ':';
      StopsBeforeClose(t, p + n);
    }
  }

  /** A text that starts with an Open Graph tag has that tag first in its
      `findall` list. */
  lemma TagStarts(t: string, post: string)
    requires IsOgTag(t)
    ensures |Tags(t + post)| > 0 && Tags(t + post)[0] == t
  {
    var s := t + post;
    assert s[0..|t|] == t;
    MatchAtExact(s, 0, |t|);
  }

  /** An Open Graph tag followed by text that starts with `<` contributes
      exactly itself to the `findall` list. */
  lemma TagThen(t: string, rest: string)
    requires IsOgTag(t) && (rest == [] || rest[0] == '<')
    ensures Tags(t + rest) == [t] + Tags(rest)
  {
    OgTagSettled(t);
    TagsConcat(t, rest);
    assert t[0..|t|] == t;
    MatchAtExact(t, 0, |t|);
    ScanMatchStep(t, 0, |t|);
    assert Scan(t, 0) == [Span(0, |t|)];
  }

  // ---------------------------------------------------------------------------
  // _find_tag, _get_tag_content, _get_og_tag_value, get_og_tags

  /** `_find_tag`: the first tag, in list order, that contains `search` as a
      substring. */
  function FindTag(tags: seq<string>, search: string): (r: Option<string>)
    ensures r.None? <==> forall k :: 0 <= k < |tags| ==> !Contains(tags[k], search)
    ensures r.Some? ==> exists k :: 0 <= k < |tags| && tags[k] == r.value && Contains(tags[k], search)
                                    && forall j :: 0 <= j < k ==> !Contains(tags[j], search)
  {
    if tags == [] then None
    else if Contains(tags[0], search) then Some(tags[0])
    else
      var r := FindTag(tags[1..], search);
      assert forall k :: 1 <= k < |tags| ==> tags[k] == tags[1..][k - 1];
      r
  }

  /** The end of the stretch `[^>]+` may cover: the first `>` after `<meta`. */
  function AttrLimit(tag: string): (r: nat)
    requires META_LEAD <= tag
    ensures |META_LEAD| <= r <= |tag|
  {
    IndexFrom(tag, '>', |META_LEAD|)
  }

  /** With `[^>]+` ending at index `j`, the rest `content="([^"]+)"` of the
      pattern: `content="` at `j`, then the longest run of non-quote
      characters, which must be non-empty and followed by a quote. */
  function ValueAt(tag: string, j: nat): Option<string>
    requires j <= |tag|
  {
    if OccursAt(tag, CONTENT_ATTR, j) then
      var e := IndexFrom(tag, '"', j + |CONTENT_ATTR|);
      if j + |CONTENT_ATTR| < e < |tag| then Some(tag[j + |CONTENT_ATTR|..e]) else None
    else None
  }

  /** The greedy `[^>]+` backtracks from its longest extent `j` down to one
      character: the first (rightmost) end at which the rest matches wins. */
  function LastContent(tag: string, j: nat): Option<string>
    requires j <= |tag|
    decreases j
  {
    if j <= |META_LEAD| then None
    else
      match ValueAt(tag, j)
      case Some(v) => Some(v)
      case None => LastContent(tag, j - 1)
  }

  /** `_get_tag_content`: group 1 of `_CONTENT_PATTERN.match(tag)`. */
  function TagContent(tag: string): Option<string> {
    if META_LEAD <= tag then LastContent(tag, AttrLimit(tag)) else None
  }

  /** Reference definition: the attribute `content="v"` stands at index `j`,
      with `v` non-empty and free of quotes. */
  ghost predicate ContentAttrAt(tag: string, j: nat, v: string) {
    |v| > 0 && '"' !in v && OccursAt(tag, CONTENT_ATTR + v + "\"", j)
  }

  lemma ValueAtExact(tag: string, j: nat, v: string)
    requires j <= |tag|
    ensures ValueAt(tag, j) == Some(v) <==> ContentAttrAt(tag, j, v)
  {
    if ValueAt(tag, j) == Some(v) {
      ValueAtSound(tag, j, v);
    }
    if ContentAttrAt(tag, j, v) {
      ValueAtComplete(tag, j, v);
    }
  }

  /** What ValueAt returns is a `content="v"` attribute at `j`. */
  lemma ValueAtSound(tag: string, j: nat, v: string)
    requires j <= |tag| && ValueAt(tag, j) == Some(v)
    ensures ContentAttrAt(tag, j, v)
  {
    var a := j + |CONTENT_ATTR|;
    var lit := CONTENT_ATTR + v + "\"";
    var e := IndexFrom(tag, '"', a);
    assert v == tag[a..e];
    assert tag[j..j + |lit|] == lit by {
      assert tag[j..j + |lit|] == tag[j..a] + tag[a..e] + tag[e..e + 1];
    }
  }

  /** A `content="v"` attribute at `j` is what ValueAt returns. */
  lemma ValueAtComplete(tag: string, j: nat, v: string)
    requires j <= |tag| && ContentAttrAt(tag, j, v)
    ensures ValueAt(tag, j) == Some(v)
  {
    var a := j + |CONTENT_ATTR|;
    var lit := CONTENT_ATTR + v + "\"";
    var w := tag[j..j + |lit|];
    assert w == lit;
    assert tag[j..a] == CONTENT_ATTR by {
      assert tag[j..a] == w[..|CONTENT_ATTR|];
    }
    forall k | a <= k < a + |v| ensures tag[k] != '"' {
      assert tag[k] == w[k - j] == v[k - a];
    }
    assert tag[a + |v|] == w[|lit| - 1];
    var e := IndexFrom(tag, '"', a);
    assert e == a + |v|;
    assert tag[a..e] == v by {
      forall k | 0 <= k < |v| ensures tag[a..e][k] == v[k] {
        assert tag[a + k] == w[|CONTENT_ATTR| + k];
      }
    }
  }

  /** Exact meaning of `LastContent`: the value of the rightmost `content="v"`
      attribute whose match starts in `(5, j]`; the quoted value may extend
      beyond `j`. */
  lemma {:induction false} LastContentExact(tag: string, j: nat, v: string)
    requires j <= |tag|
    ensures LastContent(tag, j) == Some(v) <==>
            exists i :: |META_LEAD| < i <= j && ContentAttrAt(tag, i, v)
                        && forall i', w :: i < i' <= j ==> !ContentAttrAt(tag, i', w)
    decreases j
  {
    if j > |META_LEAD| {
      match ValueAt(tag, j)
      case Some(u) =>
        ValueAtExact(tag, j, u);
        ValueAtExact(tag, j, v);
        if exists i :: |META_LEAD| < i <= j && ContentAttrAt(tag, i, v)
                       && forall i', w :: i < i' <= j ==> !ContentAttrAt(tag, i', w) {
          var i :| |META_LEAD| < i <= j && ContentAttrAt(tag, i, v)
                   && forall i', w :: i < i' <= j ==> !ContentAttrAt(tag, i', w);
          if i < j {
            assert false;
          }
        }
      case None =>
        LastContentExact(tag, j - 1, v);
        forall w ensures !ContentAttrAt(tag, j, w) {
          ValueAtExact(tag, j, w);
        }
        if LastContent(tag, j) == Some(v) {
          var i :| |META_LEAD| < i <= j - 1 && ContentAttrAt(tag, i, v)
                   && forall i', w :: i < i' <= j - 1 ==> !ContentAttrAt(tag, i', w);
          assert forall i', w :: i < i' <= j ==> !ContentAttrAt(tag, i', w);
        }
        if exists i :: |META_LEAD| < i <= j && ContentAttrAt(tag, i, v)
                       && forall i', w :: i < i' <= j ==> !ContentAttrAt(tag, i', w) {
          var i :| |META_LEAD| < i <= j && ContentAttrAt(tag, i, v)
                   && forall i', w :: i < i' <= j ==> !ContentAttrAt(tag, i', w);
          assert i != j;
        }
    }
  }

  /** `_get_tag_content` returns `v` exactly when the tag starts with `<meta`
      and holds an attribute `content="v"`, with `v` non-empty and
      quote-free, that starts before the tag's first `>` (the quoted value
      itself may run past that `>`), and no such attribute starts further
      right. */
  lemma TagContentExact(tag: string, v: string)
    ensures TagContent(tag) == Some(v) <==>
            META_LEAD <= tag &&
            exists i :: |META_LEAD| < i <= AttrLimit(tag) && ContentAttrAt(tag, i, v)
                        && forall i', w :: i < i' <= AttrLimit(tag) ==> !ContentAttrAt(tag, i', w)
  {
    if META_LEAD <= tag {
      LastContentExact(tag, AttrLimit(tag), v);
    }
  }

  /** `_get_og_tag_value`: the content of the first tag that mentions
      `tagName` (Python's `if tag:` treats an empty tag as absent). */
  function OgValue(tags: seq<string>, tagName: string): Option<string> {
    match FindTag(tags, tagName)
    case Some(tag) => if tag != "" then TagContent(tag) else None
    case None => None
  }

  /** The first tag that mentions `tagName` alone decides the value: when it
      has no usable content the value is None, whatever later tags hold. */
  lemma FirstMentionDecides(tags: seq<string>, tagName: string, k: nat)
    requires k < |tags| && Contains(tags[k], tagName)
    requires forall j :: 0 <= j < k ==> !Contains(tags[j], tagName)
    ensures OgValue(tags, tagName) == TagContent(tags[k])
  {
    var r := FindTag(tags, tagName);
    var m :| 0 <= m < |tags| && tags[m] == r.value && Contains(tags[m], tagName)
             && forall j :: 0 <= j < m ==> !Contains(tags[j], tagName);
    assert m == k;
    if tags[k] == "" {
      assert TagContent(tags[k]) == None;
    }
  }

  /** The three values `get_og_tags` returns, in its order. */
  datatype OgTriple = OgTriple(image: Option<string>, title: Option<string>, description: Option<string>)

  /** `get_og_tags` on the text of the fetched page: the three values are read
      independently from one and the same tag list. */
  function GetOgTags(text: string): OgTriple {
    var tags := Tags(text);
    OgTriple(OgValue(tags, "og:image"), OgValue(tags, "og:title"), OgValue(tags, "og:description"))
  }

  // ---------------------------------------------------------------------------
  // Round trips

  /** The tag `<meta property="og:NAME" content="V">`. */
  function OgMeta(name: string, v: string): string {
    META_OPEN + name + "\" content=\"" + v + "\">"
  }

  /** Where `content="` stands in OgMeta(name, v). */
  function OgMetaAttr(name: string): nat {
    |META_OPEN| + |name| + 2
  }

  lemma OgMetaLayout(name: string, v: string)
    ensures var t := OgMeta(name, v);
      && |t| == OgMetaAttr(name) + |CONTENT_ATTR| + |v| + 2
      && t[..|META_OPEN|] == META_OPEN
      && t[|META_OPEN|..|META_OPEN| + |name|] == name
      && t[OgMetaAttr(name) - 2] == '"' && t[OgMetaAttr(name) - 1] == ' '
      && t[OgMetaAttr(name)..OgMetaAttr(name) + |CONTENT_ATTR|] == CONTENT_ATTR
      && t[OgMetaAttr(name) + |CONTENT_ATTR|..|t| - 2] == v
      && t[|t| - 2] == '"' && t[|t| - 1] == '>'
  {
  }

  /** Every quote of OgMeta(name, v) at or after the value stands at |t| - 2. */
  lemma OgMetaQuotes(name: string, v: string, k: nat)
    requires '"' !in v
    requires OgMetaAttr(name) + |CONTENT_ATTR| <= k < |OgMeta(name, v)|
    requires OgMeta(name, v)[k] == '"'
    ensures k == |OgMeta(name, v)| - 2
  {
    OgMetaLayout(name, v);
  }

  /** A character of `<meta property="og:NAME" content="V">` between `<meta`
      and the closing `>` is `>` or a newline only if NAME or V holds one. */
  lemma OgMetaChar(name: string, v: string, k: nat)
    requires |META_LEAD| <= k < |OgMeta(name, v)| - 1
    ensures var c := OgMeta(name, v)[k];
            && (c == '>' ==> '>' in name || '>' in v)
            && (c == '\n' ==> '\n' in name || '\n' in v)
  {
    var t := OgMeta(name, v);
    var n := |META_OPEN|;
    var j0 := OgMetaAttr(name);
    var a := j0 + |CONTENT_ATTR|;
    OgMetaLayout(name, v);
    if k < n {
      assert t[k] == t[..n][k] == META_OPEN[k];
    } else if k < n + |name| {
      assert t[k] == t[n..n + |name|][k - n];
    } else if k < j0 {
    } else if k < a {
      assert t[k] == t[j0..a][k - j0] == CONTENT_ATTR[k - j0];
    } else if k < |t| - 2 {
      assert t[k] == t[a..|t| - 2][k - a];
    }
  }

  /** The quote that opens the value of a `content="v"` attribute at `j`. */
  lemma ContentAttrQuote(tag: string, j: nat, v: string)
    ensures ContentAttrAt(tag, j, v) ==> j + |CONTENT_ATTR| + |v| + 1 <= |tag| && tag[j + |CONTENT_ATTR| - 1] == '"'
  {
    if ContentAttrAt(tag, j, v) {
      var lit := CONTENT_ATTR + v + "\"";
      assert tag[j + |CONTENT_ATTR| - 1] == tag[j..j + |lit|][|CONTENT_ATTR| - 1];
    }
  }

  /** `_get_tag_content` reads back the value written into
      `<meta property="og:NAME" content="V">` when neither the name nor the
      value holds a quote or `>`, and the value is non-empty. */
  lemma TagContentRoundTrip(name: string, v: string)
    requires |v| > 0 && '"' !in v && '>' !in v
    requires '"' !in name && '>' !in name
    ensures TagContent(OgMeta(name, v)) == Some(v)
  {
    var t := OgMeta(name, v);
    OgMetaLimit(name, v);
    OgMetaContent(name, v);
    OgMetaLastContent(name, v);
    TagContentExact(t, v);
  }

  /** OgMeta(name, v) starts with `<meta`, and the first `>` after it is the
      closing one. */
  lemma OgMetaLimit(name: string, v: string)
    requires '>' !in v && '>' !in name
    ensures META_LEAD <= OgMeta(name, v) && AttrLimit(OgMeta(name, v)) == |OgMeta(name, v)| - 1
  {
    var t := OgMeta(name, v);
    OgMetaLayout(name, v);
    assert META_LEAD <= t by {
      assert t[..|META_LEAD|] == t[..|META_OPEN|][..|META_LEAD|];
    }
    forall k | |META_LEAD| <= k < |t| - 1 ensures t[k] != '>' {
      OgMetaChar(name, v, k);
    }
  }

  /** The attribute written into OgMeta(name, v) carries `v`. */
  lemma OgMetaContent(name: string, v: string)
    requires |v| > 0 && '"' !in v
    ensures ContentAttrAt(OgMeta(name, v), OgMetaAttr(name), v)
  {
    var t := OgMeta(name, v);
    var j0 := OgMetaAttr(name);
    var a := j0 + |CONTENT_ATTR|;
    OgMetaLayout(name, v);
    assert t[j0..j0 + |CONTENT_ATTR + v + "\""|] == t[j0..a] + t[a..|t| - 2] + t[|t| - 2..|t| - 1];
  }

  /** No `content="…"` attribute of OgMeta(name, v) starts after the written
      one: its opening quote would lie inside the value. */
  lemma OgMetaLastContent(name: string, v: string)
    requires '"' !in v
    ensures forall i', w :: OgMetaAttr(name) < i' <= |OgMeta(name, v)| - 1 ==> !ContentAttrAt(OgMeta(name, v), i', w)
  {
    var t := OgMeta(name, v);
    var j0 := OgMetaAttr(name);
    var a := j0 + |CONTENT_ATTR|;
    OgMetaLayout(name, v);
    forall k | a <= k < |t| - 2 ensures t[k] != '"' {
      assert t[k] == t[a..|t| - 2][k - a];
    }
    forall i', w | j0 < i' <= |t| - 1 ensures !ContentAttrAt(t, i', w) {
      ContentAttrQuote(t, i', w);
    }
  }

  /** `<meta property="og:NAME" content="V">` is one match of `_META_PATTERN`
      when neither NAME nor V holds `>` or a newline. */
  lemma OgMetaIsOgTag(name: string, v: string)
    requires '>' !in v && '\n' !in v && '>' !in name && '\n' !in name
    ensures IsOgTag(OgMeta(name, v))
  {
    var t := OgMeta(name, v);
    var n := |META_OPEN|;
    var a := OgMetaAttr(name) + |CONTENT_ATTR|;
    OgMetaLayout(name, v);
    forall k | n <= k < |t| - 1 ensures t[k] != '>' && t[k] != '\n' {
      OgMetaChar(name, v, k);
    }
  }

  /** `<meta property="og:NAME" ...` mentions `og:NAME`. */
  lemma OgMetaMentions(name: string, v: string)
    ensures Contains(OgMeta(name, v), "og:" + name)
  {
    var t := OgMeta(name, v);
    var n := |META_OPEN|;
    OgMetaLayout(name, v);
    assert OccursAt(t, "og:" + name, n - 3) by {
      assert t[n - 3..n] == t[..n][n - 3..] == "og:";
      assert t[n - 3..n + |name|] == t[n - 3..n] + t[n..n + |name|];
    }
  }

  /** An Open Graph tag after a settled prefix follows the prefix's own tags
      in the `findall` list, whatever comes after it. */
  lemma FirstTag(pre: string, t: string, post: string)
    requires Settled(pre) && IsOgTag(t)
    ensures Tags(pre + t + post) == Tags(pre) + Tags(t + post)
    ensures |Tags(t + post)| > 0 && Tags(t + post)[0] == t
  {
    assert pre + t + post == pre + (t + post);
    assert (t + post)[0] == t[..|META_OPEN|][0] == '<';
    TagsConcat(pre, t + post);
    TagStarts(t, post);
  }

  /** A value `<meta ... content="V">` can carry and give back unchanged:
      non-empty, with no quote, `>` or newline. */
  predicate PlainValue(v: string) {
    |v| > 0 && '"' !in v && '>' !in v && '\n' !in v
  }

  /** Round trip through the whole scan: when `<meta property="og:NAME"
      content="V">` follows a settled prefix none of whose tags mentions
      `og:NAME`, the value for `og:NAME` is V, provided neither NAME nor V
      holds a quote, `>` or a newline and V is non-empty. */
  lemma PageRoundTrip(pre: string, name: string, v: string, post: string)
    requires Settled(pre)
    requires forall u :: u in Tags(pre) ==> !Contains(u, "og:" + name)
    requires PlainValue(v)
    requires '"' !in name && '>' !in name && '\n' !in name
    ensures OgValue(Tags(pre + OgMeta(name, v) + post), "og:" + name) == Some(v)
  {
    var t := OgMeta(name, v);
    OgMetaIsOgTag(name, v);
    FirstTag(pre, t, post);
    var tags := Tags(pre + t + post);
    var m := |Tags(pre)|;
    forall j | 0 <= j < m ensures !Contains(tags[j], "og:" + name) {
      assert tags[j] == Tags(pre)[j];
    }
    ValueFromTagAt(tags, m, name, v);
  }

  /** In a tag list whose first tag mentioning `og:NAME` is
      `<meta property="og:NAME" content="V">`, the value for `og:NAME` is V. */
  lemma ValueFromTagAt(tags: seq<string>, k: nat, name: string, v: string)
    requires k < |tags| && tags[k] == OgMeta(name, v)
    requires forall j :: 0 <= j < k ==> !Contains(tags[j], "og:" + name)
    requires PlainValue(v) && '"' !in name && '>' !in name
    ensures OgValue(tags, "og:" + name) == Some(v)
  {
    OgMetaMentions(name, v);
    FirstMentionDecides(tags, "og:" + name, k);
    TagContentRoundTrip(name, v);
  }

  /** The title of a page whose first tag mentioning `og:title` is
      `<meta property="og:title" content="T">` is `T`. */
  lemma TitleRoundTrip(pre: string, title: string, post: string)
    requires Settled(pre)
    requires forall u :: u in Tags(pre) ==> !Contains(u, "og:title")
    requires PlainValue(title)
    ensures GetOgTags(pre + OgMeta("title", title) + post).title == Some(title)
  {
    assert "og:" + "title" == "og:title";
    PageRoundTrip(pre, "title", title, post);
  }

  /** The title, description and image tags in a row after a settled prefix
      make up the next three entries of the `findall` list. */
  lemma ThreeTagsLayout(pre: string, tT: string, tD: string, tI: string, post: string)
    requires Settled(pre) && IsOgTag(tT) && IsOgTag(tD) && IsOgTag(tI)
    ensures var tags := Tags(pre + tT + tD + tI + post);
            && |tags| > |Tags(pre)| + 2
            && tags[..|Tags(pre)|] == Tags(pre)
            && tags[|Tags(pre)|] == tT && tags[|Tags(pre)| + 1] == tD && tags[|Tags(pre)| + 2] == tI
  {
    var rest := tD + (tI + post);
    assert pre + tT + tD + tI + post == pre + tT + rest;
    FirstTag(pre, tT, rest);
    OgTagOpens(tD, tI + post);
    TagThen(tT, rest);
    OgTagOpens(tI, post);
    TagThen(tD, tI + post);
    TagStarts(tI, post);
    ListLayout(Tags(pre + tT + tD + tI + post), Tags(pre), Tags(tI + post), tT, tD, tI);
  }

  /** A text that starts with an Open Graph tag starts with `<`. */
  lemma OgTagOpens(t: string, post: string)
    requires IsOgTag(t)
    ensures (t + post)[0] == '<'
  {
    assert (t + post)[0] == t[..|META_OPEN|][0];
  }

  /** Where `a`, `b` and `c` stand in `p + [a, b] + t` when `t` starts with `c`. */
  lemma ListLayout(l: seq<string>, p: seq<string>, t: seq<string>, a: string, b: string, c: string)
    requires l == p + ([a] + ([b] + t)) && |t| > 0 && t[0] == c
    ensures |l| > |p| + 2 && l[..|p|] == p && l[|p|] == a && l[|p| + 1] == b && l[|p| + 2] == c
  {
  }

  /** The conditions under which a page with the title, description and image
      tags in a row after `pre` gives all three back: the prefix is settled
      and none of its tags mentions any of the three names, the values are
      plain, and no earlier tag of the three mentions a later one's name
      (`_find_tag` matches substrings). */
  ghost predicate ThreeTagPage(pre: string, title: string, description: string, image: string) {
    && Settled(pre)
    && (forall u :: u in Tags(pre) ==>
          !Contains(u, "og:title") && !Contains(u, "og:description") && !Contains(u, "og:image"))
    && PlainValue(title) && PlainValue(description) && PlainValue(image)
    && !Contains(OgMeta("title", title), "og:description") && !Contains(OgMeta("title", title), "og:image")
    && !Contains(OgMeta("description", description), "og:image")
  }

  /** The page of ThreeTagPage with its `findall` list. */
  function ThreeTagText(pre: string, title: string, description: string, image: string, post: string): string {
    pre + OgMeta("title", title) + OgMeta("description", description) + OgMeta("image", image) + post
  }

  /** The three names `get_og_tags` looks up. */
  lemma OgNames()
    ensures "og:" + "title" == "og:title" && "og:" + "description" == "og:description"
    ensures "og:" + "image" == "og:image"
  {
  }

  /** Where the three tags of ThreeTagText stand in its `findall` list. */
  lemma ThreeTagPositions(pre: string, title: string, description: string, image: string, post: string)
    requires Settled(pre) && PlainValue(title) && PlainValue(description) && PlainValue(image)
    ensures var tags := Tags(ThreeTagText(pre, title, description, image, post));
            var m := |Tags(pre)|;
            && |tags| > m + 2 && tags[..m] == Tags(pre)
            && tags[m] == OgMeta("title", title)
            && tags[m + 1] == OgMeta("description", description)
            && tags[m + 2] == OgMeta("image", image)
  {
    OgMetaIsOgTag("title", title);
    OgMetaIsOgTag("description", description);
    OgMetaIsOgTag("image", image);
    ThreeTagsLayout(pre, OgMeta("title", title), OgMeta("description", description), OgMeta("image", image), post);
  }

  lemma ThreeTagsTitle(pre: string, title: string, description: string, image: string, post: string)
    requires Settled(pre) && PlainValue(title) && PlainValue(description) && PlainValue(image)
    requires forall u :: u in Tags(pre) ==> !Contains(u, "og:title")
    ensures OgValue(Tags(ThreeTagText(pre, title, description, image, post)), "og:title") == Some(title)
  {
    ThreeTagPositions(pre, title, description, image, post);
    OgNames();
    var tags := Tags(ThreeTagText(pre, title, description, image, post));
    LaterTagValue(tags, Tags(pre), |Tags(pre)|, "title", title);
  }

  lemma ThreeTagsDescription(pre: string, title: string, description: string, image: string, post: string)
    requires Settled(pre) && PlainValue(title) && PlainValue(description) && PlainValue(image)
    requires forall u :: u in Tags(pre) ==> !Contains(u, "og:description")
    requires !Contains(OgMeta("title", title), "og:description")
    ensures OgValue(Tags(ThreeTagText(pre, title, description, image, post)), "og:description") == Some(description)
  {
    ThreeTagPositions(pre, title, description, image, post);
    OgNames();
    var tags := Tags(ThreeTagText(pre, title, description, image, post));
    var m := |Tags(pre)|;
    forall j | m <= j < m + 1 ensures !Contains(tags[j], "og:" + "description") {
      assert tags[j] == OgMeta("title", title);
    }
    LaterTagValue(tags, Tags(pre), m + 1, "description", description);
  }

  lemma ThreeTagsImage(pre: string, title: string, description: string, image: string, post: string)
    requires Settled(pre) && PlainValue(title) && PlainValue(description) && PlainValue(image)
    requires forall u :: u in Tags(pre) ==> !Contains(u, "og:image")
    requires !Contains(OgMeta("title", title), "og:image") && !Contains(OgMeta("description", description), "og:image")
    ensures OgValue(Tags(ThreeTagText(pre, title, description, image, post)), "og:image") == Some(image)
  {
    ThreeTagPositions(pre, title, description, image, post);
    OgNames();
    var tags := Tags(ThreeTagText(pre, title, description, image, post));
    var m := |Tags(pre)|;
    forall j | m <= j < m + 2 ensures !Contains(tags[j], "og:" + "image") {
      if j == m {
        assert tags[j] == OgMeta("title", title);
      } else {
        assert tags[j] == OgMeta("description", description);
      }
    }
    LaterTagValue(tags, Tags(pre), m + 2, "image", image);
  }

  /** A page carrying `og:title`, `og:description` and `og:image` tags in a
      row reads back all three. */
  lemma ThreeTagRoundTrip(pre: string, title: string, description: string, image: string, post: string)
    requires ThreeTagPage(pre, title, description, image)
    ensures GetOgTags(ThreeTagText(pre, title, description, image, post))
            == OgTriple(Some(image), Some(title), Some(description))
  {
    ThreeTagsTitle(pre, title, description, image, post);
    ThreeTagsDescription(pre, title, description, image, post);
    ThreeTagsImage(pre, title, description, image, post);
  }

  /** The tag for `og:NAME` at index `k`, after a known prefix list of tags
      none of which mentions `og:NAME` and with no tag between them that
      mentions it, decides the value. */
  lemma LaterTagValue(tags: seq<string>, preTags: seq<string>, k: nat, name: string, v: string)
    requires |preTags| <= k < |tags| && tags[..|preTags|] == preTags && tags[k] == OgMeta(name, v)
    requires forall u :: u in preTags ==> !Contains(u, "og:" + name)
    requires forall j :: |preTags| <= j < k ==> !Contains(tags[j], "og:" + name)
    requires PlainValue(v) && '"' !in name && '>' !in name
    ensures OgValue(tags, "og:" + name) == Some(v)
  {
    forall j | 0 <= j < |preTags| ensures !Contains(tags[j], "og:" + name) {
      assert tags[j] == preTags[j];
    }
    ValueFromTagAt(tags, k, name, v);
  }

  /** Substring matching: looking for `og:image` finds an earlier
      `og:image:width` tag and returns its content. */
  lemma ImageWidthShadowsImage()
    ensures OgValue([OgMeta("image:width", "640"), OgMeta("image", "https://x/y.png")], "og:image")
            == Some("640")
  {
    var w := OgMeta("image:width", "640");
    OgMetaLayout("image:width", "640");
    assert OccursAt(w, "og:image", |META_OPEN| - 3) by {
      assert w[|META_OPEN| - 3..|META_OPEN| + 5] == "og:image";
    }
    FirstMentionDecides([w, OgMeta("image", "https://x/y.png")], "og:image", 0);
    TagContentRoundTrip("image:width", "640");
  }

  // ---------------------------------------------------------------------------
  // send_rich_post

  /** The `AppBskyEmbedExternal.External` link card. */
  datatype Card = Card(title: string, description: string, uri: string, thumb: Option<string>)

  /** The network calls `send_rich_post` makes, in order. */
  datatype CardCall =
    | FetchPage(url: string)
    | FetchImage(url: string)
    | UploadBlob(data: Bytes)
    | SendPost(text: string, card: Card)

  datatype RichPost = RichPost(outcome: Outcome<Fields>, calls: seq<CardCall>)

  const OGP_MISSING := "Required Open Graph Protocol (OGP) tags not found"

  /** The part of `send_rich_post` after the page has been read: with the
      three Open Graph values `og`, check title and description, fetch and
      upload the thumbnail when there is an image URL, and send the post. */
  function PostCard(url: string, text: string, og: OgTriple, image: Outcome<Bytes>,
                    blob: Outcome<string>, send: Outcome<Fields>): (r: RichPost)
    ensures og.title.None? || og.description.None? ==> r == RichPost(Raise(OGP_MISSING), [FetchPage(url)])
    ensures og.title.Some? && og.description.Some? && (og.image.None? || og.image == Some("")) ==>
              r == RichPost(send, [FetchPage(url), SendPost(text, Card(og.title.value, og.description.value, url, None))])
    ensures og.title.Some? && og.description.Some? && og.image.Some? && og.image.value != "" ==>
              && |r.calls| >= 2 && r.calls[..2] == [FetchPage(url), FetchImage(og.image.value)]
              && (image.Raise? ==> r == RichPost(Raise(image.msg), r.calls[..2]))
              && (image.Ok? && blob.Raise? ==> r == RichPost(Raise(blob.msg), r.calls[..2] + [UploadBlob(image.value)]))
              && (image.Ok? && blob.Ok? ==>
                    r == RichPost(send, r.calls[..2] + [UploadBlob(image.value),
                                  SendPost(text, Card(og.title.value, og.description.value, url, Some(blob.value)))]))
  {
    if og.title.None? || og.description.None? then
      RichPost(Raise(OGP_MISSING), [FetchPage(url)])
    else if og.image.Some? && og.image.value != "" then
      var fetch := [FetchPage(url), FetchImage(og.image.value)];
      match image
      case Raise(msg) => RichPost(Raise(msg), fetch)
      case Ok(data) =>
        match blob
        case Raise(msg) => RichPost(Raise(msg), fetch + [UploadBlob(data)])
        case Ok(ref) =>
          var card := Card(og.title.value, og.description.value, url, Some(ref));
          RichPost(send, fetch + [UploadBlob(data), SendPost(text, card)])
    else
      RichPost(send, [FetchPage(url), SendPost(text, Card(og.title.value, og.description.value, url, None))])
  }

  /** A post is sent only with the page's own title and description, the
      requested URL and the given text, and its outcome is the outcome of
      the send; nothing else in the call sequence is a post. */
  lemma PostCardSendsPageValues(url: string, text: string, og: OgTriple, image: Outcome<Bytes>,
                                blob: Outcome<string>, send: Outcome<Fields>, k: nat)
    requires k < |PostCard(url, text, og, image, blob, send).calls|
    requires PostCard(url, text, og, image, blob, send).calls[k].SendPost?
    ensures var r := PostCard(url, text, og, image, blob, send);
            && k == |r.calls| - 1 && r.outcome == send
            && og.title == Some(r.calls[k].card.title) && og.description == Some(r.calls[k].card.description)
            && r.calls[k].card.uri == url && r.calls[k].text == text
  {
  }

  /** `send_rich_post(client, url, text)`. The outcomes of the page fetch
      (`httpx.get` and `raise_for_status`), of the image download, of the blob
      upload (its blob reference) and of `send_post` are given. */
  function SendRichPost(url: string, text: string, page: Outcome<string>, image: Outcome<Bytes>,
                        blob: Outcome<string>, send: Outcome<Fields>): (r: RichPost)
    ensures |r.calls| > 0 && r.calls[0] == FetchPage(url)
    ensures page.Raise? ==> r == RichPost(Raise(page.msg), [FetchPage(url)])
    ensures page.Ok? ==> r == PostCard(url, text, GetOgTags(page.value), image, blob, send)
  {
    match page
    case Raise(msg) => RichPost(Raise(msg), [FetchPage(url)])
    case Ok(body) => PostCard(url, text, GetOgTags(body), image, blob, send)
  }
}

/** `extract_video_id`: the video identifier inside a watch URL or a short
    link, taken with Python's `split` exactly as the application does. */
module VideoUrl {
  import opened Wrappers
  import opened PyStrings

  /** The text that selects the watch branch. */
  const WatchMarker: string := "youtube.com/watch?v="
  /** The watch marker up to its query parameter. */
  const WatchHead: string := "youtube.com/watch?"
  /** The separator the watch branch splits on. */
  const WatchParam: string := "v="
  /** The text that selects the short-link branch, and its separator. */
  const ShortMarker: string := "youtu.be/"

  /** Python's `youtube_video_url.split("v=")[1].split("&")[0]` or
      `youtube_video_url.split("youtu.be/")[1].split("?")[0]`, by branch. */
  function ExtractVideoId(url: string): (r: Option<string>)
    ensures r.Some? <==> Contains(url, WatchMarker) || Contains(url, ShortMarker)
  {
    if Contains(url, WatchMarker) then
      WatchMarkerHasParam(url);
      SecondPiece(url, WatchParam);
      Some(FirstPiece(SplitPiece(url, WatchParam, 1), "&"))
    else if Contains(url, ShortMarker) then
      SecondPiece(url, ShortMarker);
      Some(FirstPiece(SplitPiece(url, ShortMarker, 1), "?"))
    else
      None
  }

  /** Where the watch marker occurs, its `v=` occurs 18 places further on. */
  lemma WatchMarkerHasParam(url: string)
    requires Contains(url, WatchMarker)
    ensures Contains(url, WatchParam)
    ensures forall m | OccursAt(url, WatchMarker, m) :: OccursAt(url, WatchParam, m + |WatchHead|)
  {
    forall m | OccursAt(url, WatchMarker, m)
      ensures OccursAt(url, WatchParam, m + |WatchHead|)
    {
      assert url[m + 18..m + 20] == url[m..m + 20][18..20];
    }
    var m :| 0 <= m <= |url| - |WatchMarker| && OccursAt(url, WatchMarker, m);
    assert OccursAt(url, WatchParam, m + 18);
  }

  /** `id` is the text at the start of `rest` up to, not including, the
      first `cut` character or the first occurrence of `stop`, whichever
      comes first, or all of `rest` when neither occurs. */
  ghost predicate IdAfter(rest: string, stop: string, cut: char, id: string) {
    && id <= rest
    && (forall j | 0 <= j < |id| :: rest[j] != cut && !OccursAt(rest, stop, j))
    && (|id| == |rest| || rest[|id|] == cut || OccursAt(rest, stop, |id|))
  }

  /** `IdAfter` picks out at most one identifier. */
  lemma IdAfterUnique(rest: string, stop: string, cut: char, a: string, b: string)
    requires IdAfter(rest, stop, cut, a) && IdAfter(rest, stop, cut, b)
    ensures a == b
  {
    if |a| < |b| {
    } else if |b| < |a| {
    }
  }

  /** An identifier by `IdAfter` holds neither the cut character nor the
      stop text. */
  lemma IdAfterLacks(rest: string, stop: string, cut: char, id: string)
    requires |stop| > 0 && IdAfter(rest, stop, cut, id)
    ensures cut !in id
    ensures !Contains(id, stop)
  {
    if Contains(id, stop) {
      var j :| 0 <= j <= |id| - |stop| && OccursAt(id, stop, j);
      assert rest[j..j + |stop|] == id[j..j + |stop|];
      assert OccursAt(rest, stop, j);
    }
  }

  /** Cutting `rest` at the first `stop`, then at the first `cut`, gives
      the `IdAfter` identifier of `rest`, which holds neither. */
  lemma {:induction false} CutTwice(rest: string, stop: string, cut: char)
    requires |stop| > 0
    ensures var id := FirstPiece(FirstPiece(rest, stop), [cut]);
            IdAfter(rest, stop, cut, id) && cut !in id && !Contains(id, stop)
  {
    var piece := FirstPiece(rest, stop);
    var id := FirstPiece(piece, [cut]);
    forall j | 0 <= j < |id|
      ensures rest[j] != cut
    {
      assert !OccursAt(piece, [cut], j);
      assert piece[j..j + 1] == [piece[j]];
    }
    if |id| < |piece| {
      assert OccursAt(piece, [cut], |id|);
      assert piece[|id|..|id| + 1] == [piece[|id|]];
    }
    IdAfterLacks(rest, stop, cut, id);
  }

  /** A prefix of `s[k..]` is the stretch of `s` from `k` on. */
  lemma PrefixOfSuffix(s: string, k: nat, id: string)
    requires k <= |s| && id <= s[k..]
    ensures id == s[k..k + |id|]
  {
  }

  /** The value the watch branch computes: `split("v=")[1]` is the first
      piece of the text after the first `v=`. */
  lemma WatchValue(url: string)
    requires Contains(url, WatchMarker)
    ensures IndexOf(url, WatchParam).Some?
    ensures ExtractVideoId(url)
         == Some(FirstPiece(FirstPiece(url[IndexOf(url, WatchParam).value + 2..], WatchParam), ['&']))
  {
    WatchMarkerHasParam(url);
    SecondPiece(url, WatchParam);
    assert "&" == ['&'];
  }

  /** The value the short-link branch computes: `split("youtu.be/")[1]` is
      the first piece of the text after the first `youtu.be/`. */
  lemma ShortValue(url: string)
    requires !Contains(url, WatchMarker) && Contains(url, ShortMarker)
    ensures IndexOf(url, ShortMarker).Some?
    ensures ExtractVideoId(url)
         == Some(FirstPiece(FirstPiece(url[IndexOf(url, ShortMarker).value + 9..], ShortMarker), ['?']))
  {
    SecondPiece(url, ShortMarker);
    assert "?" == ['?'];
  }

  /** The first `v=` of a URL with a watch marker is no later than the
      marker's own. */
  lemma FirstParamNoLaterThanMarker(url: string)
    requires Contains(url, WatchMarker)
    ensures IndexOf(url, WatchParam).Some?
    ensures forall m | OccursAt(url, WatchMarker, m) :: IndexOf(url, WatchParam).value <= m + |WatchHead|
  {
    WatchMarkerHasParam(url);
    ContainsIffFound(url, WatchParam);
  }

  /** The watch branch: the identifier starts right after the first `v=` of
      the URL (which is no later than the marker's own `v=`), runs to the
      next `&` or `v=`, and holds neither. */
  lemma WatchBranch(url: string)
    requires Contains(url, WatchMarker)
    ensures IndexOf(url, WatchParam).Some? && ExtractVideoId(url).Some?
    ensures var i := IndexOf(url, WatchParam).value;
            var id := ExtractVideoId(url).value;
            && (forall m | OccursAt(url, WatchMarker, m) :: i <= m + |WatchHead|)
            && IdAfter(url[i + |WatchParam|..], WatchParam, '&', id)
            && id == url[i + |WatchParam|..i + |WatchParam| + |id|]
            && '&' !in id && !Contains(id, WatchParam)
  {
    WatchValue(url);
    FirstParamNoLaterThanMarker(url);
    var i := IndexOf(url, WatchParam).value;
    CutTwice(url[i + 2..], WatchParam, '&');
    PrefixOfSuffix(url, i + 2, ExtractVideoId(url).value);
  }

  /** The short-link branch, taken only without a watch marker: the
      identifier starts right after the first `youtu.be/`, runs to the next
      `?` or `youtu.be/`, and holds neither. */
  lemma ShortBranch(url: string)
    requires !Contains(url, WatchMarker) && Contains(url, ShortMarker)
    ensures IndexOf(url, ShortMarker).Some? && ExtractVideoId(url).Some?
    ensures var i := IndexOf(url, ShortMarker).value;
            var id := ExtractVideoId(url).value;
            && IdAfter(url[i + |ShortMarker|..], ShortMarker, '?', id)
            && id == url[i + |ShortMarker|..i + |ShortMarker| + |id|]
            && '?' !in id && !Contains(id, ShortMarker)
  {
    ShortValue(url);
    var i := IndexOf(url, ShortMarker).value;
    CutTwice(url[i + 9..], ShortMarker, '?');
    PrefixOfSuffix(url, i + 9, ExtractVideoId(url).value);
  }

  /** A URL holding neither marker has no identifier. */
  lemma NoMarker(url: string)
    requires !Contains(url, WatchMarker) && !Contains(url, ShortMarker)
    ensures ExtractVideoId(url) == None
  {
  }

  /** `id + tail` starts with the identifier `id` when `id` holds neither
      terminator and `tail` is empty or starts with the cut character. */
  lemma IdAfterOfShape(id: string, tail: string, stop: string, cut: char)
    requires |stop| > 0 && cut !in stop
    requires cut !in id && !Contains(id, stop)
    requires tail == [] || tail[0] == cut
    ensures IdAfter(id + tail, stop, cut, id)
  {
    var rest := id + tail;
    forall j | 0 <= j < |id|
      ensures !OccursAt(rest, stop, j)
    {
      CharOfOccurrence(rest, stop, j, |id| - j);
      if OccursAt(rest, stop, j) {
        if j + |stop| <= |id| {
          assert id[j..j + |stop|] == rest[j..j + |stop|];
          assert OccursAt(id, stop, j);
          assert false;
        } else {
          assert false;
        }
      }
    }
  }

  /** The first `sep` of `a + sep + b` is the one after `a` when none
      starts earlier. */
  lemma IndexAfterPrefix(a: string, sep: string, b: string)
    requires |sep| > 0
    requires forall j | 0 <= j < |a| :: !OccursAt(a + sep + b, sep, j)
    ensures IndexOf(a + sep + b, sep) == Some(|a|)
  {
    var s := a + sep + b;
    assert s[|a|..|a| + |sep|] == sep;
    assert OccursAt(s, sep, |a|);
  }

  /** The first `v=` of `<pre>youtube.com/watch?v=<rest>` is the marker's
      when `pre` holds none. */
  lemma FirstParamOfWatchUrl(pre: string, rest: string)
    requires !Contains(pre, WatchParam)
    ensures IndexOf(pre + WatchMarker + rest, WatchParam) == Some(|pre| + |WatchHead|)
  {
    var url := pre + WatchMarker + rest;
    var a := pre + WatchHead;
    assert WatchMarker == WatchHead + WatchParam;
    assert url == a + WatchParam + rest;
    forall j | 0 <= j < |a|
      ensures !OccursAt(url, WatchParam, j)
    {
      if OccursAt(url, WatchParam, j) {
        assert url[j] == 'v' && url[j + 1] == '=';
        if j + 2 <= |pre| {
          assert pre[j..j + 2] == url[j..j + 2];
          assert OccursAt(pre, WatchParam, j);
          assert false;
        } else if j + 1 == |pre| {
          assert false;
        } else {
          assert false;
        }
      }
    }
    IndexAfterPrefix(a, WatchParam, rest);
  }

  /** The first `youtu.be/` of `<pre>youtu.be/<rest>` is the one after
      `pre` when `pre` holds none. */
  lemma FirstShortMarkerOf(pre: string, rest: string)
    requires !Contains(pre, ShortMarker)
    ensures IndexOf(pre + ShortMarker + rest, ShortMarker) == Some(|pre|)
  {
    var url := pre + ShortMarker + rest;
    forall j | 0 <= j < |pre|
      ensures !OccursAt(url, ShortMarker, j)
    {
      CharOfOccurrence(url, ShortMarker, j, |pre| - j);
      if OccursAt(url, ShortMarker, j) {
        if j + 9 <= |pre| {
          assert pre[j..j + 9] == url[j..j + 9];
          assert OccursAt(pre, ShortMarker, j);
          assert false;
        } else {
          assert false;
        }
      }
    }
    IndexAfterPrefix(pre, ShortMarker, rest);
  }

  /** In `<pre>youtube.com/watch?v=<rest>`, where `pre` holds no `v=`, the
      identifier is read from `rest`. */
  lemma WatchUrlRest(pre: string, rest: string)
    requires !Contains(pre, WatchParam)
    ensures ExtractVideoId(pre + WatchMarker + rest).Some?
    ensures IdAfter(rest, WatchParam, '&', ExtractVideoId(pre + WatchMarker + rest).value)
  {
    var url := pre + WatchMarker + rest;
    assert url[|pre|..|pre| + |WatchMarker|] == WatchMarker;
    assert OccursAt(url, WatchMarker, |pre|);
    FirstParamOfWatchUrl(pre, rest);
    WatchBranch(url);
    assert url[|pre| + 20..] == rest;
  }

  /** In `<pre>youtu.be/<rest>` without a watch marker, where `pre` holds no
      `youtu.be/`, the identifier is read from `rest`. */
  lemma ShortUrlRest(pre: string, rest: string)
    requires !Contains(pre + ShortMarker + rest, WatchMarker)
    requires !Contains(pre, ShortMarker)
    ensures ExtractVideoId(pre + ShortMarker + rest).Some?
    ensures IdAfter(rest, ShortMarker, '?', ExtractVideoId(pre + ShortMarker + rest).value)
  {
    var url := pre + ShortMarker + rest;
    assert url[|pre|..|pre| + |ShortMarker|] == ShortMarker;
    assert OccursAt(url, ShortMarker, |pre|);
    FirstShortMarkerOf(pre, rest);
    ShortBranch(url);
    assert url[|pre| + 9..] == rest;
  }

  /** A watch URL `<pre>youtube.com/watch?v=<id>` or
      `<pre>youtube.com/watch?v=<id>&<more>` yields `id`, when `pre` holds
      no `v=` and `id` holds no `&` and no `v=`. */
  lemma WatchUrlShape(pre: string, id: string, tail: string)
    requires !Contains(pre, WatchParam)
    requires '&' !in id && !Contains(id, WatchParam)
    requires tail == [] || tail[0] == '&'
    ensures ExtractVideoId(pre + WatchMarker + id + tail) == Some(id)
  {
    assert pre + WatchMarker + id + tail == pre + WatchMarker + (id + tail);
    WatchUrlRest(pre, id + tail);
    IdAfterOfShape(id, tail, WatchParam, '&');
    IdAfterUnique(id + tail, WatchParam, '&', id,
                  ExtractVideoId(pre + WatchMarker + (id + tail)).value);
  }

  /** A short link `<pre>youtu.be/<id>` or `<pre>youtu.be/<id>?<more>`
      without a watch marker yields `id`, when `pre` holds no `youtu.be/` and
      `id` holds no `?` and no `youtu.be/`. */
  lemma ShortUrlShape(pre: string, id: string, tail: string)
    requires !Contains(pre + ShortMarker + id + tail, WatchMarker)
    requires !Contains(pre, ShortMarker)
    requires '?' !in id && !Contains(id, ShortMarker)
    requires tail == [] || tail[0] == '?'
    ensures ExtractVideoId(pre + ShortMarker + id + tail) == Some(id)
  {
    assert pre + ShortMarker + id + tail == pre + ShortMarker + (id + tail);
    ShortUrlRest(pre, id + tail);
    IdAfterOfShape(id, tail, ShortMarker, '?');
    IdAfterUnique(id + tail, ShortMarker, '?', id,
                  ExtractVideoId(pre + ShortMarker + (id + tail)).value);
  }

  /** `https://www.youtube.com/watch?v=abc123&t=5s` yields `abc123`. */
  lemma WatchExample()
    ensures ExtractVideoId("https://www.youtube.com/watch?v=abc123&t=5s") == Some("abc123")
  {
    WatchExampleParts();
    WatchUrlShape("https://www.", "abc123", "&t=5s");
  }

  /** The sample watch URL taken apart. */
  lemma WatchExampleParts()
    ensures "https://www." + WatchMarker + "abc123" + "&t=5s"
         == "https://www.youtube.com/watch?v=abc123&t=5s"
    ensures !Contains("https://www.", WatchParam) && !Contains("abc123", WatchParam)
  {
    assert "https://www." + WatchMarker == "https://www.youtube.com/watch?v=";
    assert "abc123" + "&t=5s" == "abc123&t=5s";
    MissingCharNotContained("https://www.", WatchParam, 0);
    MissingCharNotContained("abc123", WatchParam, 0);
  }

  /** `https://youtu.be/xyz789?si=1` yields `xyz789`. */
  lemma ShortExample()
    ensures ExtractVideoId("https://youtu.be/xyz789?si=1") == Some("xyz789")
  {
    ShortExampleParts();
    ShortExampleNoWatch();
    ShortUrlShape("https://", "xyz789", "?si=1");
  }

  /** The sample short link taken apart. */
  lemma ShortExampleParts()
    ensures "https://" + ShortMarker + "xyz789" + "?si=1" == "https://youtu.be/xyz789?si=1"
    ensures !Contains("https://", ShortMarker) && !Contains("xyz789", ShortMarker)
  {
    assert "https://" + ShortMarker == "https://youtu.be/";
    assert "xyz789" + "?si=1" == "xyz789?si=1";
    MissingCharNotContained("https://", ShortMarker, 6);
    MissingCharNotContained("xyz789", ShortMarker, 5);
  }

  /** The sample short link holds no watch marker. */
  lemma ShortExampleNoWatch()
    ensures !Contains("https://youtu.be/xyz789?si=1", WatchMarker)
  {
    MissingCharNotContained("https://youtu.be/xyz789?si=1", WatchMarker, 15);
  }

  /** `https://vimeo.com/12345` yields no identifier. */
  lemma NoMarkerExample()
    ensures ExtractVideoId("https://vimeo.com/12345") == None
  {
    var url := "https://vimeo.com/12345";
    MissingCharNotContained(url, WatchMarker, 19);
    MissingCharNotContained(url, ShortMarker, 6);
  }
}

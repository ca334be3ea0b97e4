/** The course-submission page (src/app/courses/create/page.tsx): recognising
    YouTube links, deriving a thumbnail from them, filling the form from a
    video's details, and validating the form into the record handed to
    `addCourse`. */
module CreateCourse {
  import opened Values
  import opened Strings

  /* ---------- isYouTubeUrl ---------- */

  /** The five path alternatives of the regular expression. */
  const Paths: seq<string> :=
    ["youtube.com/watch?v=", "youtu.be/", "youtube.com/embed/", "youtube.com/v/", "youtube.com/shorts/"]

  /** `url` starts with `head` and goes on with at least one character that
      `.` accepts (anything but a line terminator). */
  predicate HeadThenChar(url: string, head: string)
  {
    StartsWith(url, head) && |head| < |url| && !IsLineTerminator(url[|head|])
  }

  /** The language of the regular expression, written out: an optional
      scheme, an optional "www.", one of the paths, then one more character. */
  ghost predicate YouTubeShape(url: string)
  {
    exists a, b, c :: 0 <= a < |Schemes| && 0 <= b < |Hosts| && 0 <= c < |Paths|
                      && HeadThenChar(url, Schemes[a] + Hosts[b] + Paths[c])
  }

  function AfterScheme(url: string): string
  {
    if StartsWith(url, "https://") then url[8..]
    else if StartsWith(url, "http://") then url[7..]
    else url
  }

  function AfterHost(s: string): string
  {
    if StartsWith(s, "www.") then s[4..] else s
  }

  /** `isYouTubeUrl`, computed by consuming the optional parts greedily and
      then trying each path alternative. */
  predicate IsYouTubeUrl(url: string)
  {
    var rest := AfterHost(AfterScheme(url));
    exists c :: 0 <= c < |Paths| && HeadThenChar(rest, Paths[c])
  }

  /** Consuming the optional parts greedily loses no match: the scheme and the
      host prefix cannot be confused with what may follow them. */
  lemma {:induction false} GreedyPrefix(url: string, a: nat, b: nat, c: nat)
    requires a < |Schemes| && b < |Hosts| && c < |Paths|
    requires StartsWith(url, Schemes[a] + Hosts[b] + Paths[c])
    ensures AfterHost(AfterScheme(url)) == url[|Schemes[a] + Hosts[b]|..]
  {
    var s, h, p := Schemes[a], Hosts[b], Paths[c];
    PrefixSplit(url, s + h, p);
    PrefixSplit(url, s, h);
    var rest := url[|s|..];
    assert url[|s + h|..][0] == 'y';
    assert rest[|h|] == 'y';
    SchemeConsumed(url, a, rest);
    if b == 1 {
      assert rest[0] == 'y';
    }
  }

  /** The greedy scheme step removes exactly the scheme the match used. */
  lemma {:induction false} SchemeConsumed(url: string, a: nat, rest: string)
    requires a < |Schemes| && |Schemes[a]| <= |url| && url[..|Schemes[a]|] == Schemes[a]
    requires rest == url[|Schemes[a]|..] && rest != [] && (rest[0] == 'w' || rest[0] == 'y')
    ensures AfterScheme(url) == rest
  {
    if a == 1 {
      assert url[4] == ':';
    } else if a == 2 {
      assert url[0] == rest[0];
    }
  }

  lemma {:induction false} GreedyFindsShape(url: string)
    requires YouTubeShape(url)
    ensures IsYouTubeUrl(url)
  {
    var a, b, c :| 0 <= a < |Schemes| && 0 <= b < |Hosts| && 0 <= c < |Paths|
                   && HeadThenChar(url, Schemes[a] + Hosts[b] + Paths[c]);
    GreedyPrefix(url, a, b, c);
    var sh, p := Schemes[a] + Hosts[b], Paths[c];
    PrefixSplit(url, sh, p);
    assert url[|sh|..][|p|] == url[|sh + p|];
    assert HeadThenChar(url[|sh|..], p);
  }

  /** The greedy scheme step removes one of the schemes. */
  lemma {:induction false} SchemeSplit(url: string) returns (a: nat)
    ensures a < |Schemes| && url == Schemes[a] + AfterScheme(url)
  {
    if StartsWith(url, "https://") {
      a := 0;
      assert url == url[..8] + url[8..];
    } else if StartsWith(url, "http://") {
      a := 1;
      assert url == url[..7] + url[7..];
    } else {
      a := 2;
      assert url == "" + url;
    }
  }

  /** The greedy host step removes one of the host prefixes. */
  lemma {:induction false} HostSplit(mid: string) returns (b: nat)
    ensures b < |Hosts| && mid == Hosts[b] + AfterHost(mid)
  {
    if StartsWith(mid, "www.") {
      b := 0;
      assert mid == mid[..4] + mid[4..];
    } else {
      b := 1;
      assert mid == "" + mid;
    }
  }

  lemma {:induction false} ShapeOfGreedy(url: string)
    requires IsYouTubeUrl(url)
    ensures YouTubeShape(url)
  {
    var mid := AfterScheme(url);
    var rest := AfterHost(mid);
    var c :| 0 <= c < |Paths| && HeadThenChar(rest, Paths[c]);
    var a := SchemeSplit(url);
    var b := HostSplit(mid);
    Regroup(url, Schemes[a], mid, Hosts[b], rest);
    HeadAfterPrefix(url, Schemes[a] + Hosts[b], rest, Paths[c]);
    ShapeWitness(url, a, b, c);
  }

  lemma {:induction false} Regroup(url: string, s: string, mid: string, h: string, rest: string)
    requires url == s + mid && mid == h + rest
    ensures url == (s + h) + rest
  {
  }

  lemma {:induction false} ShapeWitness(url: string, a: nat, b: nat, c: nat)
    requires a < |Schemes| && b < |Hosts| && c < |Paths|
    requires HeadThenChar(url, Schemes[a] + Hosts[b] + Paths[c])
    ensures YouTubeShape(url)
  {
  }

  /** A head found after a prefix, with the prefix put back in front. */
  lemma {:induction false} HeadAfterPrefix(url: string, sh: string, rest: string, p: string)
    requires url == sh + rest && HeadThenChar(rest, p)
    ensures HeadThenChar(url, sh + p)
  {
    assert url[..|sh + p|] == sh + rest[..|p|];
    assert url[|sh + p|] == rest[|p|];
  }

  /** The greedy computation accepts exactly the regular expression's language. */
  lemma IsYouTubeUrlIff(url: string)
    ensures IsYouTubeUrl(url) <==> YouTubeShape(url)
  {
    if IsYouTubeUrl(url) {
      ShapeOfGreedy(url);
    }
    if YouTubeShape(url) {
      GreedyFindsShape(url);
    }
  }

  /** Every scheme and host choice is accepted before any of the paths. */
  lemma {:induction false} AcceptsEveryForm(a: nat, b: nat, c: nat, rest: string)
    requires a < |Schemes| && b < |Hosts| && c < |Paths|
    requires rest != [] && !IsLineTerminator(rest[0])
    ensures IsYouTubeUrl(Schemes[a] + Hosts[b] + Paths[c] + rest)
  {
    var url := Schemes[a] + Hosts[b] + Paths[c] + rest;
    var head := Schemes[a] + Hosts[b] + Paths[c];
    assert url[..|head|] == head;
    assert url[|head|] == rest[0];
    assert HeadThenChar(url, head);
    IsYouTubeUrlIff(url);
  }

  /** Nothing is accepted without one of the path markers right after the
      optional prefixes. */
  lemma {:induction false} RejectsWithoutPath(url: string)
    requires forall c :: 0 <= c < |Paths| ==> !StartsWith(AfterHost(AfterScheme(url)), Paths[c])
    ensures !IsYouTubeUrl(url)
  {
  }

  /* ---------- getYouTubeThumbnail ---------- */

  const ThumbnailPrefix: string := "https://img.youtube.com/vi/"
  const ThumbnailSuffix: string := "/hqdefault.jpg"

  /** `s.split(sep)[1]`: the text after the first occurrence of `sep` up to
      its next occurrence; `None` (the `undefined` that makes the next call
      throw) when `sep` does not occur. */
  function SplitSecond(s: string, sep: string): (r: Option<string>)
    requires sep != ""
    ensures r.None? <==> !Contains(s, sep)
    ensures r.Some? ==> |r.value| <= |s|
    // The piece starts right after the first occurrence, holds no occurrence
    // of its own, and ends at the end of `s` or where the next one starts.
    ensures r.Some? ==>
              var e := IndexOf(s, sep).value + |sep|;
              e + |r.value| <= |s| && s[e..e + |r.value|] == r.value
              && (forall k :: e <= k < e + |r.value| ==> !OccursAt(s, sep, k))
              && (e + |r.value| == |s| || OccursAt(s, sep, e + |r.value|))
  {
    match IndexOf(s, sep)
    case None => None
    case Some(i) =>
      var rest := s[i + |sep|..];
      OccursInSuffix(s, i + |sep|, sep);
      match IndexOf(rest, sep)
      case None => Some(rest)
      case Some(j) => Some(rest[..j])
  }

  /** An occurrence in a suffix is an occurrence in the whole string, shifted. */
  lemma OccursInSuffix(s: string, e: nat, t: string)
    requires e <= |s|
    ensures forall k :: e <= k ==> (OccursAt(s[e..], t, k - e) <==> OccursAt(s, t, k))
  {
    forall k | e <= k
      ensures OccursAt(s[e..], t, k - e) <==> OccursAt(s, t, k)
    {
      if k + |t| <= |s| {
        assert s[e..][k - e..k - e + |t|] == s[k..k + |t|];
      }
    }
  }

  predicate IsQueryMark(c: char)
  {
    c == '?' || c == '#'
  }

  /** `s.split(/[?#]/)[0]`: the longest prefix without '?' or '#'. */
  function CutQuery(s: string): (r: string)
    ensures |r| <= |s| && r == s[..|r|]
    ensures forall k :: 0 <= k < |r| ==> !IsQueryMark(r[k])
    ensures |r| < |s| ==> IsQueryMark(s[|r|])
  {
    if s == [] || IsQueryMark(s[0]) then []
    else [s[0]] + CutQuery(s[1..])
  }

  /** The id in one of the path forms, "" when parsing throws. */
  function PathVideoId(url: string, sep: string): (id: string)
    requires sep != ""
    ensures forall k :: 0 <= k < |id| ==> !IsQueryMark(id[k])
    ensures !Contains(url, sep) ==> id == ""
    // Otherwise: the longest prefix of the second piece without a query mark.
    ensures Contains(url, sep) ==>
              var piece := SplitSecond(url, sep).value;
              |id| <= |piece| && id == piece[..|id|] && (|id| < |piece| ==> IsQueryMark(piece[|id|]))
  {
    match SplitSecond(url, sep)
    case None => ""
    case Some(part) => CutQuery(part)
  }

  /** The video id `getYouTubeThumbnail` settles on: the first marker present
      decides the form. `watchV` is what the URL parser reads as the `v`
      query parameter of the whole URL (`None` when it is absent or the URL
      does not parse). */
  function VideoId(url: string, watchV: Option<string>): (id: string)
    ensures (Contains(url, "youtu.be/") || Contains(url, "youtube.com/shorts/") || Contains(url, "youtube.com/embed/")
             || Contains(url, "youtube.com/v/")) ==> forall k :: 0 <= k < |id| ==> !IsQueryMark(id[k])
    ensures Contains(url, "youtu.be/") ==> id == PathVideoId(url, "youtu.be/")
    ensures !Contains(url, "youtu.be/") && Contains(url, "youtube.com/shorts/") ==> id == PathVideoId(url, "shorts/")
    ensures !Contains(url, "youtu.be/") && !Contains(url, "youtube.com/shorts/") && Contains(url, "youtube.com/embed/")
            ==> id == PathVideoId(url, "embed/")
    ensures !Contains(url, "youtu.be/") && !Contains(url, "youtube.com/shorts/") && !Contains(url, "youtube.com/embed/")
            && Contains(url, "youtube.com/v/")
            ==> id == PathVideoId(url, "v/")
    ensures !Contains(url, "youtu.be/") && !Contains(url, "youtube.com/shorts/") && !Contains(url, "youtube.com/embed/")
            && !Contains(url, "youtube.com/v/") ==>
              id == if Contains(url, "youtube.com/watch") && watchV.Some? then watchV.value else ""
  {
    if Contains(url, "youtu.be/") then PathVideoId(url, "youtu.be/")
    else if Contains(url, "youtube.com/shorts/") then PathVideoId(url, "shorts/")
    else if Contains(url, "youtube.com/embed/") then PathVideoId(url, "embed/")
    else if Contains(url, "youtube.com/v/") then PathVideoId(url, "v/")
    else if Contains(url, "youtube.com/watch") then watchV.GetOr("")
    else ""
  }

  /** `getYouTubeThumbnail` */
  function GetYouTubeThumbnail(url: string, watchV: Option<string>): (r: string)
    ensures r == "" <==> VideoId(url, watchV) == ""
    ensures r != "" ==> r == ThumbnailPrefix + VideoId(url, watchV) + ThumbnailSuffix
  {
    var id := VideoId(url, watchV);
    if id == "" then "" else ThumbnailPrefix + id + ThumbnailSuffix
  }

  /** `t` occurs first right after `p` when `p` does not hold its first character. */
  lemma {:induction false} FirstOccurrenceAfter(p: string, t: string, x: string)
    requires t != [] && forall k :: 0 <= k < |p| ==> p[k] != t[0]
    ensures IndexOf(p + t + x, t) == Some(|p|)
  {
    var s := p + t + x;
    assert s[|p|..|p| + |t|] == t;
    assert OccursAt(s, t, |p|);
    forall j | 0 <= j < |p|
      ensures !OccursAt(s, t, j)
    {
      assert s[j] == p[j];
    }
  }

  /** Cutting `id + x` at the query marks gives `id` back when `id` has none
      and `x` is empty or starts with one. */
  lemma {:induction false} CutQueryAfterId(id: string, x: string)
    requires forall k :: 0 <= k < |id| ==> !IsQueryMark(id[k])
    requires x == [] || IsQueryMark(x[0])
    ensures CutQuery(id + x) == id
  {
    var r := CutQuery(id + x);
    assert r == (id + x)[..|r|];
    assert (id + x)[..|id|] == id;
  }

  /** `split` after a prefix that cannot start the separator: the second
      piece is the rest up to the separator's next occurrence. */
  lemma {:induction false} SplitAfterPrefix(p: string, sep: string, tail: string)
    requires sep != [] && IndexOf(p + sep + tail, sep) == Some(|p|)
    ensures SplitSecond(p + sep + tail, sep)
            == Some(if IndexOf(tail, sep).Some? then tail[..IndexOf(tail, sep).value] else tail)
  {
    assert (p + sep + tail)[|p| + |sep|..] == tail;
  }

  /** A separator ending in '/' cannot occur inside a video id followed by
      nothing or by a query mark. */
  lemma {:induction false} NoSeparatorInId(id: string, x: string, sep: string)
    requires sep != [] && sep[|sep| - 1] == '/' && forall k :: 0 <= k < |sep| ==> !IsQueryMark(sep[k])
    requires forall k :: 0 <= k < |id| ==> IsVideoIdChar(id[k])
    requires x == [] || IsQueryMark(x[0])
    ensures forall j :: 0 <= j < |id| ==> !OccursAt(id + x, sep, j)
  {
    var t := id + x;
    forall j | 0 <= j < |id|
      ensures !OccursAt(t, sep, j)
    {
      if j + |sep| <= |id| {
        assert t[j + |sep| - 1] == id[j + |sep| - 1];
      } else if j + |sep| <= |t| {
        assert t[j..j + |sep|][|id| - j] == x[0];
      }
    }
  }

  /** The piece `split` keeps after a separator, when it starts with a video
      id followed by nothing or a query mark, is cut back to that id. */
  lemma {:induction false} IdBeforeSeparator(id: string, x: string, sep: string)
    requires sep != [] && sep[|sep| - 1] == '/' && forall k :: 0 <= k < |sep| ==> !IsQueryMark(sep[k])
    requires forall k :: 0 <= k < |id| ==> IsVideoIdChar(id[k])
    requires x == [] || IsQueryMark(x[0])
    ensures CutQuery(if IndexOf(id + x, sep).Some? then (id + x)[..IndexOf(id + x, sep).value] else id + x) == id
  {
    var t := id + x;
    NoSeparatorInId(id, x, sep);
    var part := if IndexOf(t, sep).Some? then t[..IndexOf(t, sep).value] else t;
    assert |part| >= |id| && part == t[..|part|];
    assert part == id + part[|id|..];
    assert part[|id|..] == [] || part[|id|..][0] == x[0];
    CutQueryAfterId(id, part[|id|..]);
  }

  /** After a prefix without a 'y', "youtu.be/" followed by a video id and
      nothing or a query mark yields that id. */
  lemma {:induction false} ShortLinkPathId(p: string, id: string, x: string)
    requires forall k :: 0 <= k < |p| ==> p[k] != 'y'
    requires forall k :: 0 <= k < |id| ==> IsVideoIdChar(id[k])
    requires x == [] || IsQueryMark(x[0])
    ensures Contains(p + "youtu.be/" + (id + x), "youtu.be/")
    ensures PathVideoId(p + "youtu.be/" + (id + x), "youtu.be/") == id
  {
    var sep := "youtu.be/";
    assert sep[0] == 'y' && sep[|sep| - 1] == '/';
    assert forall k :: 0 <= k < |sep| ==> !IsQueryMark(sep[k]);
    FirstOccurrenceAfter(p, sep, id + x);
    SplitAfterPrefix(p, sep, id + x);
    IdBeforeSeparator(id, x, sep);
  }

  /** No scheme or host prefix contains a 'y'. */
  lemma {:induction false} PrefixWithoutY(a: nat, b: nat)
    requires a < |Schemes| && b < |Hosts|
    ensures forall k :: 0 <= k < |Schemes[a] + Hosts[b]| ==> (Schemes[a] + Hosts[b])[k] != 'y'
  {
  }

  /** A short link to a video id, with or without a query or fragment after
      it, gives that video's thumbnail, under any scheme and host prefix. */
  lemma {:induction false} ShortLinkThumbnail(a: nat, b: nat, id: string, x: string, watchV: Option<string>)
    requires a < |Schemes| && b < |Hosts|
    requires id != [] && forall k :: 0 <= k < |id| ==> IsVideoIdChar(id[k])
    requires x == [] || IsQueryMark(x[0])
    ensures GetYouTubeThumbnail(Schemes[a] + Hosts[b] + "youtu.be/" + id + x, watchV)
            == ThumbnailPrefix + id + ThumbnailSuffix
  {
    var p := Schemes[a] + Hosts[b];
    assert Schemes[a] + Hosts[b] + "youtu.be/" + id + x == p + "youtu.be/" + (id + x);
    PrefixWithoutY(a, b);
    ShortLinkPathId(p, id, x);
  }

  /** No character `c0` in `s` is directly followed by `c1`. */
  predicate NoPair(s: string, c0: char, c1: char)
  {
    forall k :: 0 <= k && k + 1 < |s| ==> !(s[k] == c0 && s[k + 1] == c1)
  }

  /** A string lacking two adjacent characters of `t` does not contain `t`. */
  lemma {:induction false} AbsentWithoutPair(s: string, t: string, i: nat)
    requires i + 1 < |t| && NoPair(s, t[i], t[i + 1])
    ensures !Contains(s, t)
  {
    forall j | 0 <= j
      ensures !OccursAt(s, t, j)
    {
      if j + |t| <= |s| {
        assert s[j..j + |t|][i] == s[j + i] && s[j..j + |t|][i + 1] == s[j + i + 1];
      }
    }
  }

  /** A marker ending in '/' that is absent from `head` stays absent when a
      tail without '/' is appended. */
  lemma {:induction false} AbsentBeforeSlashFreeTail(head: string, tail: string, t: string)
    requires t != [] && t[|t| - 1] == '/' && !Contains(head, t)
    requires forall k :: 0 <= k < |tail| ==> tail[k] != '/'
    ensures !Contains(head + tail, t)
  {
    var s := head + tail;
    forall j | 0 <= j
      ensures !OccursAt(s, t, j)
    {
      if j + |t| <= |head| {
        assert s[j..j + |t|] == head[j..j + |t|];
        assert !OccursAt(head, t, j);
      } else if j + |t| <= |s| {
        assert s[j..j + |t|][|t| - 1] == s[j + |t| - 1] == tail[j + |t| - 1 - |head|];
      }
    }
  }

  /** `t` occurs first right after `p` when no character of `p` equal to
      `t`'s first is followed by `t`'s second, and `p` does not end in `t`'s
      first character. */
  lemma {:induction false} FirstOccurrenceAfterPairFree(p: string, t: string, x: string)
    requires |t| >= 2 && NoPair(p, t[0], t[1]) && (p == [] || p[|p| - 1] != t[0])
    ensures IndexOf(p + t + x, t) == Some(|p|)
  {
    var s := p + t + x;
    assert s[|p|..|p| + |t|] == t;
    assert OccursAt(s, t, |p|);
    forall j | 0 <= j < |p|
      ensures !OccursAt(s, t, j)
    {
      var w := s[j..j + |t|];
      assert w[0] == p[j];
      if j + 1 < |p| {
        assert w[1] == p[j + 1];
      }
    }
  }

  /** After a head in which the separator cannot start, the separator
      followed by a video id and nothing or a query mark yields that id. */
  lemma {:induction false} PathIdAfterHead(p: string, sep: string, id: string, x: string)
    requires |sep| >= 2 && sep[|sep| - 1] == '/' && forall k :: 0 <= k < |sep| ==> !IsQueryMark(sep[k])
    requires NoPair(p, sep[0], sep[1]) && (p == [] || p[|p| - 1] != sep[0])
    requires forall k :: 0 <= k < |id| ==> IsVideoIdChar(id[k])
    requires x == [] || IsQueryMark(x[0])
    ensures PathVideoId(p + sep + (id + x), sep) == id
  {
    FirstOccurrenceAfterPairFree(p, sep, id + x);
    SplitAfterPrefix(p, sep, id + x);
    IdBeforeSeparator(id, x, sep);
  }

  /** A video id followed by a tail without '/' holds no '/'. */
  lemma {:induction false} IdTailSlashFree(id: string, x: string)
    requires forall k :: 0 <= k < |id| ==> IsVideoIdChar(id[k])
    requires forall k :: 0 <= k < |x| ==> x[k] != '/'
    ensures forall k :: 0 <= k < |id + x| ==> (id + x)[k] != '/'
  {
    forall k | 0 <= k < |id + x|
      ensures (id + x)[k] != '/'
    {
      if k < |id| {
        assert IsVideoIdChar(id[k]);
      } else {
        assert (id + x)[k] == x[k - |id|];
      }
    }
  }

  /** "<scheme><host>youtube.com/", the head every long-form YouTube link starts with. */
  function LongHead(a: nat, b: nat): string
    requires a < |Schemes| && b < |Hosts|
  {
    Schemes[a] + Hosts[b] + "youtube.com/"
  }

  /** Pair-freedom of a concatenation follows from that of its parts and of the seam. */
  lemma {:induction false} NoPairConcat(u: string, v: string, c0: char, c1: char)
    requires NoPair(u, c0, c1) && NoPair(v, c0, c1)
    requires u == [] || v == [] || !(u[|u| - 1] == c0 && v[0] == c1)
    ensures NoPair(u + v, c0, c1)
  {
    var s := u + v;
    forall k | 0 <= k && k + 1 < |s|
      ensures !(s[k] == c0 && s[k + 1] == c1)
    {
      if k + 1 < |u| {
        assert s[k] == u[k] && s[k + 1] == u[k + 1];
      } else if k + 1 == |u| {
        assert s[k] == u[|u| - 1] && s[k + 1] == v[0];
      } else {
        assert s[k] == v[k - |u|] && s[k + 1] == v[k + 1 - |u|];
      }
    }
  }

  /** The character pairs that open the markers and separators do not occur
      in any long head, which ends in '/'. */
  lemma {:induction false} LongHeadPairs(a: nat, b: nat)
    requires a < |Schemes| && b < |Hosts|
    ensures var p := LongHead(a, b);
            p[|p| - 1] == '/' && NoPair(p, 'u', '.') && NoPair(p, 's', 'h') && NoPair(p, 'e', 'm') && NoPair(p, 'v', '/')
  {
    var pre := Schemes[a] + Hosts[b];
    var host := "youtube.com/";
    PrefixPairs(a, b);
    assert host[0] == 'y';
    assert NoPair(host, 'u', '.') && NoPair(host, 's', 'h') && NoPair(host, 'e', 'm') && NoPair(host, 'v', '/');
    NoPairConcat(pre, host, 'u', '.');
    NoPairConcat(pre, host, 's', 'h');
    NoPairConcat(pre, host, 'e', 'm');
    NoPairConcat(pre, host, 'v', '/');
  }

  /** The same pairs are absent from every scheme and host prefix. */
  lemma {:induction false} PrefixPairs(a: nat, b: nat)
    requires a < |Schemes| && b < |Hosts|
    ensures var pre := Schemes[a] + Hosts[b];
            NoPair(pre, 'u', '.') && NoPair(pre, 's', 'h') && NoPair(pre, 'e', 'm') && NoPair(pre, 'v', '/')
  {
  }

  /** No long-form head holds the short-link marker. */
  lemma {:induction false} LongHeadLacksShortLink(a: nat, b: nat, form: string)
    requires a < |Schemes| && b < |Hosts|
    requires form == "shorts/" || form == "embed/" || form == "v/"
    ensures !Contains(LongHead(a, b) + form, "youtu.be/")
  {
    LongHeadPairs(a, b);
    assert NoPair(form, 'u', '.');
    NoPairConcat(LongHead(a, b), form, 'u', '.');
    AbsentWithoutPair(LongHead(a, b) + form, "youtu.be/", 4);
  }

  /** Neither the embed head nor the `/v/` head holds the shorts marker. */
  lemma {:induction false} LongHeadLacksShorts(a: nat, b: nat, form: string)
    requires a < |Schemes| && b < |Hosts|
    requires form == "embed/" || form == "v/"
    ensures !Contains(LongHead(a, b) + form, "youtube.com/shorts/")
  {
    LongHeadPairs(a, b);
    assert NoPair(form, 's', 'h');
    NoPairConcat(LongHead(a, b), form, 's', 'h');
    AbsentWithoutPair(LongHead(a, b) + form, "youtube.com/shorts/", 12);
  }

  /** The `/v/` head does not hold the embed marker. */
  lemma {:induction false} LongHeadLacksEmbed(a: nat, b: nat)
    requires a < |Schemes| && b < |Hosts|
    ensures !Contains(LongHead(a, b) + "v/", "youtube.com/embed/")
  {
    LongHeadPairs(a, b);
    assert NoPair("v/", 'e', 'm');
    NoPairConcat(LongHead(a, b), "v/", 'e', 'm');
    AbsentWithoutPair(LongHead(a, b) + "v/", "youtube.com/embed/", 12);
  }

  /** Behind the long head, the path separator `sep` (one of "shorts/",
      "embed/", "v/") followed by a video id and nothing or a query mark
      yields that id. */
  lemma {:induction false} LongPathId(a: nat, b: nat, sep: string, id: string, x: string)
    requires a < |Schemes| && b < |Hosts|
    requires sep == "shorts/" || sep == "embed/" || sep == "v/"
    requires forall k :: 0 <= k < |id| ==> IsVideoIdChar(id[k])
    requires x == [] || IsQueryMark(x[0])
    ensures PathVideoId(LongHead(a, b) + sep + (id + x), sep) == id
  {
    LongHeadPairs(a, b);
    assert forall k :: 0 <= k < |sep| ==> !IsQueryMark(sep[k]);
    PathIdAfterHead(LongHead(a, b), sep, id, x);
  }

  /** The long-form marker "youtube.com/" + `sep` occurs in a link built on the long head. */
  lemma {:induction false} LongMarkerPresent(a: nat, b: nat, sep: string, tail: string)
    requires a < |Schemes| && b < |Hosts|
    ensures Contains(LongHead(a, b) + sep + tail, "youtube.com/" + sep)
  {
    var pre := Schemes[a] + Hosts[b];
    var url := LongHead(a, b) + sep + tail;
    assert url == pre + ("youtube.com/" + sep) + tail;
    assert url[|pre|..|pre| + |"youtube.com/" + sep|] == "youtube.com/" + sep;
    assert OccursAt(url, "youtube.com/" + sep, |pre|);
    ContainsIff(url, "youtube.com/" + sep);
  }

  /** A shorts link to a video id, followed by nothing or by a query or
      fragment without '/', gives that video's thumbnail, under any scheme
      and host prefix. */
  lemma {:induction false} ShortsLinkThumbnail(a: nat, b: nat, id: string, x: string, watchV: Option<string>)
    requires a < |Schemes| && b < |Hosts|
    requires id != [] && forall k :: 0 <= k < |id| ==> IsVideoIdChar(id[k])
    requires x == [] || IsQueryMark(x[0])
    requires forall k :: 0 <= k < |x| ==> x[k] != '/'
    ensures GetYouTubeThumbnail(Schemes[a] + Hosts[b] + "youtube.com/shorts/" + id + x, watchV)
            == ThumbnailPrefix + id + ThumbnailSuffix
  {
    var head := LongHead(a, b) + "shorts/";
    assert "youtube.com/" + "shorts/" == "youtube.com/shorts/";
    assert Schemes[a] + Hosts[b] + "youtube.com/shorts/" + id + x == head + (id + x);
    IdTailSlashFree(id, x);
    LongHeadLacksShortLink(a, b, "shorts/");
    AbsentBeforeSlashFreeTail(head, id + x, "youtu.be/");
    LongMarkerPresent(a, b, "shorts/", id + x);
    LongPathId(a, b, "shorts/", id, x);
  }

  /** The same for an embed link. */
  lemma {:induction false} EmbedLinkThumbnail(a: nat, b: nat, id: string, x: string, watchV: Option<string>)
    requires a < |Schemes| && b < |Hosts|
    requires id != [] && forall k :: 0 <= k < |id| ==> IsVideoIdChar(id[k])
    requires x == [] || IsQueryMark(x[0])
    requires forall k :: 0 <= k < |x| ==> x[k] != '/'
    ensures GetYouTubeThumbnail(Schemes[a] + Hosts[b] + "youtube.com/embed/" + id + x, watchV)
            == ThumbnailPrefix + id + ThumbnailSuffix
  {
    var head := LongHead(a, b) + "embed/";
    assert "youtube.com/" + "embed/" == "youtube.com/embed/";
    assert Schemes[a] + Hosts[b] + "youtube.com/embed/" + id + x == head + (id + x);
    IdTailSlashFree(id, x);
    LongHeadLacksShortLink(a, b, "embed/");
    LongHeadLacksShorts(a, b, "embed/");
    AbsentBeforeSlashFreeTail(head, id + x, "youtu.be/");
    AbsentBeforeSlashFreeTail(head, id + x, "youtube.com/shorts/");
    LongMarkerPresent(a, b, "embed/", id + x);
    LongPathId(a, b, "embed/", id, x);
  }

  /** The same for the old `/v/` embed link. */
  lemma {:induction false} OldEmbedLinkThumbnail(a: nat, b: nat, id: string, x: string, watchV: Option<string>)
    requires a < |Schemes| && b < |Hosts|
    requires id != [] && forall k :: 0 <= k < |id| ==> IsVideoIdChar(id[k])
    requires x == [] || IsQueryMark(x[0])
    requires forall k :: 0 <= k < |x| ==> x[k] != '/'
    ensures GetYouTubeThumbnail(Schemes[a] + Hosts[b] + "youtube.com/v/" + id + x, watchV)
            == ThumbnailPrefix + id + ThumbnailSuffix
  {
    var head := LongHead(a, b) + "v/";
    assert "youtube.com/" + "v/" == "youtube.com/v/";
    assert Schemes[a] + Hosts[b] + "youtube.com/v/" + id + x == head + (id + x);
    IdTailSlashFree(id, x);
    LongHeadLacksShortLink(a, b, "v/");
    LongHeadLacksShorts(a, b, "v/");
    LongHeadLacksEmbed(a, b);
    AbsentBeforeSlashFreeTail(head, id + x, "youtu.be/");
    AbsentBeforeSlashFreeTail(head, id + x, "youtube.com/shorts/");
    AbsentBeforeSlashFreeTail(head, id + x, "youtube.com/embed/");
    LongMarkerPresent(a, b, "v/", id + x);
    LongPathId(a, b, "v/", id, x);
  }

  /* ---------- fetchYouTubeDetails: instructor and description ---------- */

  /** The words the channel-title cleanup removes, in lower case. */
  const ChannelWords: seq<string> := ["official", "channel", "studio"]

  /** `t` ends with `w`, ignoring ASCII case. */
  predicate EndsWithWord(t: string, w: string)
  {
    |w| <= |t| && Lower(t[|t| - |w|..]) == w
  }

  /** `parseInstructor`: remove one of the channel words, together with the
      white space around it, when it ends the title (ignoring case and
      trailing white space), then trim. */
  function ParseInstructor(channelTitle: string): (r: string)
    ensures r == [] || (!IsSpace(r[0]) && !IsSpace(r[|r| - 1]))
    ensures (!EndsWithWord(TrimEnd(channelTitle), "official") && !EndsWithWord(TrimEnd(channelTitle), "channel")
             && !EndsWithWord(TrimEnd(channelTitle), "studio")) ==> r == Trim(channelTitle)
  {
    var t := TrimEnd(channelTitle);
    if EndsWithWord(t, "official") then Trim(t[..|t| - 8])
    else if EndsWithWord(t, "channel") then Trim(t[..|t| - 7])
    else if EndsWithWord(t, "studio") then Trim(t[..|t| - 6])
    else Trim(channelTitle)
  }

  /** A string ending with a channel word (in any case) ends with no other one. */
  lemma {:induction false} ChannelWordsExclusive(x: string, w: string)
    requires Lower(w) in ChannelWords && |w| <= |x| && x[|x| - |w|..] == w
    ensures EndsWithWord(x, Lower(w))
    ensures Lower(w) != "official" ==> !EndsWithWord(x, "official")
    ensures Lower(w) == "studio" ==> !EndsWithWord(x, "channel")
  {
    var lw := Lower(w);
    assert x[|x| - |lw|..] == w;
    assert LowerChar(x[|x| - 1]) == lw[|lw| - 1] by {
      assert x[|x| - 1] == w[|w| - 1];
    }
    assert LowerChar(x[|x| - 2]) == lw[|lw| - 2] by {
      assert x[|x| - 2] == w[|w| - 2];
    }
  }

  /** A channel word in any letter case, with or without white space before
      or after it, is cut off the channel's name. */
  lemma {:induction false} ParseInstructorStripsWord(name: string, w: string, trail: string)
    requires Lower(w) in ChannelWords
    requires forall k :: 0 <= k < |trail| ==> IsSpace(trail[k])
    ensures ParseInstructor(name + w + trail) == Trim(name)
  {
    var x := name + w;
    assert x[|x| - 1] == w[|w| - 1];
    assert !IsSpace(x[|x| - 1]) by {
      assert Lower(w)[|w| - 1] == LowerChar(w[|w| - 1]);
    }
    TrimEndAppend(x, trail);
    assert x[|x| - |w|..] == w;
    assert x[..|x| - |w|] == name;
    ChannelWordsExclusive(x, w);
  }

  /** The description shown in the form: at most 200 characters of the
      video's, with "..." after a cut. */
  function TruncateDescription(d: string): (r: string)
    ensures |r| <= 203
    ensures |d| <= 200 ==> r == d
    ensures |d| > 200 ==> |r| == 203 && r[..200] == d[..200] && r[200..] == "..."
  {
    if |d| > 200 then d[..200] + "..." else d
  }

  /** The form fields of the page, as strings. */
  datatype Form = Form(title: string, description: string, instructor: string, duration: string,
                       level: string, topics: string, price: string, url: string, imageUrl: string)

  /** The part of a successful video-details answer the page reads. */
  datatype VideoDetails = VideoDetails(title: string, channelTitle: string, description: string, highThumbnail: string)

  /** The form and the image preview after a successful details fetch. */
  function FillFromVideo(form: Form, v: VideoDetails): (r: (Form, string))
    ensures r.0.(title := form.title, instructor := form.instructor, description := form.description,
                 imageUrl := form.imageUrl) == form
    ensures r.0.title == v.title && r.0.imageUrl == v.highThumbnail && r.1 == v.highThumbnail
    ensures r.0.instructor == ParseInstructor(v.channelTitle)
    ensures |r.0.description| <= 203 && (|v.description| <= 200 ==> r.0.description == v.description)
  {
    (form.(title := v.title, instructor := ParseInstructor(v.channelTitle),
           description := TruncateDescription(v.description), imageUrl := v.highThumbnail),
     v.highThumbnail)
  }

  /** The message shown when the details fetch does not succeed. */
  function FetchFailureMessage(message: Option<string>): (r: string)
    ensures r != ""
    ensures !FalsyString(message) ==> r == message.value
  {
    if FalsyString(message) then "Failed to fetch video details" else message.value
  }

  /** The effect run when the URL changes: a YouTube link with a thumbnail
      sets both the image URL and the preview; otherwise nothing changes. */
  function OnUrlChange(form: Form, preview: string, watchV: Option<string>): (r: (Form, string))
    ensures var thumb := GetYouTubeThumbnail(form.url, watchV);
            if form.url != "" && IsYouTubeUrl(form.url) && thumb != "" then r == (form.(imageUrl := thumb), thumb)
            else r == (form, preview)
    ensures r.0 == form.(imageUrl := r.0.imageUrl)
    ensures r.0.imageUrl != form.imageUrl ==>
              IsYouTubeUrl(form.url) && r.0.imageUrl == ThumbnailPrefix + VideoId(form.url, watchV) + ThumbnailSuffix
  {
    if form.url != "" && IsYouTubeUrl(form.url) then
      var thumb := GetYouTubeThumbnail(form.url, watchV);
      if thumb != "" then (form.(imageUrl := thumb), thumb) else (form, preview)
    else (form, preview)
  }

  /* ---------- handleSubmit ---------- */

  const Placeholder: string := "https://via.placeholder.com/300x200"

  /** The object handed to `addCourse`. `price` is the raw form text given to
      `parseFloat`, `None` when the field is empty. */
  datatype NewCourse = NewCourse(title: string, description: string, author: string, platform: string,
                                 link: string, image: string, price: Option<string>)

  /** `handleSubmit` up to the `addCourse` call: the first failing check is the
      single error; otherwise the record sent. */
  function SubmitCourse(form: Form, preview: string): (r: Result<NewCourse>)
    ensures Trim(form.title) == "" ==> r == Err("Title is required")
    ensures Trim(form.title) != "" && Trim(form.description) == "" ==> r == Err("Description is required")
    ensures Trim(form.title) != "" && Trim(form.description) != "" && Trim(form.instructor) == ""
            ==> r == Err("Instructor name is required")
    ensures (Trim(form.title) != "" && Trim(form.description) != "" && Trim(form.instructor) != ""
             && Trim(form.url) == "") ==> r == Err("URL is required")
    ensures r.Ok? <==> Trim(form.title) != "" && Trim(form.description) != "" && Trim(form.instructor) != ""
                       && Trim(form.url) != "" && IsYouTubeUrl(form.url)
    ensures (r.Err? && Trim(form.url) != "" && Trim(form.title) != "" && Trim(form.description) != ""
             && Trim(form.instructor) != "") ==> r.error == "Please enter a valid YouTube URL"
    ensures r.Ok? ==> r.value.title == Trim(form.title) && r.value.description == Trim(form.description)
                      && r.value.author == Trim(form.instructor) && r.value.link == Trim(form.url)
                      && r.value.platform == "YouTube"
    ensures r.Ok? ==> r.value.image == (if form.imageUrl != "" then form.imageUrl
                                        else if preview != "" then preview else Placeholder)
    ensures r.Ok? ==> r.value.price == (if form.price == "" then None else Some(form.price))
  {
    if Trim(form.title) == "" then Err("Title is required")
    else if Trim(form.description) == "" then Err("Description is required")
    else if Trim(form.instructor) == "" then Err("Instructor name is required")
    else if Trim(form.url) == "" then Err("URL is required")
    else if !IsYouTubeUrl(form.url) then Err("Please enter a valid YouTube URL")
    else Ok(NewCourse(Trim(form.title), Trim(form.description), Trim(form.instructor), "YouTube",
                      Trim(form.url), if form.imageUrl != "" then form.imageUrl
                                      else if preview != "" then preview else Placeholder,
                      if form.price == "" then None else Some(form.price)))
  }

  /** A submitted record always has non-empty, trimmed text fields and an image. */
  lemma SubmittedRecordIsClean(form: Form, preview: string)
    requires SubmitCourse(form, preview).Ok?
    ensures var c := SubmitCourse(form, preview).value;
            c.title != "" && !IsSpace(c.title[0]) && !IsSpace(c.title[|c.title| - 1])
            && c.author != "" && !IsSpace(c.author[0]) && !IsSpace(c.author[|c.author| - 1])
            && c.link != "" && c.image != ""
  {
    var c := SubmitCourse(form, preview).value;
    assert c.title == Trim(form.title) && c.author == Trim(form.instructor) && c.link == Trim(form.url);
  }

  /** The link is checked before it is trimmed: a URL whose only character
      after the marker is a space passes the check, and the link sent then
      ends at the marker, which the check alone would refuse. */
  lemma {:induction false} LinkCheckedBeforeTrim(form: Form, preview: string)
    requires Trim(form.title) != "" && Trim(form.description) != "" && Trim(form.instructor) != ""
    requires form.url == "youtu.be/ "
    ensures SubmitCourse(form, preview).Ok?
    ensures SubmitCourse(form, preview).value.link == "youtu.be/"
    ensures !IsYouTubeUrl(SubmitCourse(form, preview).value.link)
  {
    MarkerThenSpace();
  }

  /** "youtu.be/ " is accepted, trims to "youtu.be/", and that is refused. */
  lemma {:induction false} MarkerThenSpace()
    ensures IsYouTubeUrl("youtu.be/ ")
    ensures Trim("youtu.be/ ") == "youtu.be/"
    ensures !IsYouTubeUrl("youtu.be/")
  {
    AcceptsEveryForm(2, 1, 1, " ");
    assert Schemes[2] + Hosts[1] + Paths[1] + " " == "youtu.be/ ";
    TrimSpaceAfterMarker();
    MarkerAloneRefused();
  }

  lemma {:induction false} TrimSpaceAfterMarker()
    ensures Trim("youtu.be/ ") == "youtu.be/"
  {
    assert "youtu.be/ " == "youtu.be/" + " ";
    TrimEndAppend("youtu.be/", " ");
    assert LeadingSpace("youtu.be/") == 0;
  }

  lemma {:induction false} MarkerAloneRefused()
    ensures !IsYouTubeUrl("youtu.be/")
  {
    var m := "youtu.be/";
    assert !StartsWith(m, "https://") by { assert m[..8][0] == 'y'; }
    assert !StartsWith(m, "http://") by { assert m[..7][0] == 'y'; }
    assert !StartsWith(m, "www.") by { assert m[..4][0] == 'y'; }
    forall c | 0 <= c < |Paths|
      ensures !HeadThenChar("youtu.be/", Paths[c])
    {
    }
  }
}

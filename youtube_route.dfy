/** The video-details API route (src/app/api/youtube/route.ts): find an
    eleven-character video id in the posted URL with a regular expression,
    then answer from the YouTube Data API's reply, which is an input here. */
module YouTubeRoute {
  import opened Values
  import opened Strings

  const IdLength: nat := 11

  /* ---------- the video-id regular expression ---------- */

  /** The positions where the optional scheme may end, in the order the
      matcher tries them: after a scheme present at `i`, then at `i` itself. */
  function SchemeEnds(s: string, i: nat): (r: seq<nat>)
    ensures r != [] && r[|r| - 1] == i
  {
    (if StartsAt(s, i, "https://") then [i + 8] else if StartsAt(s, i, "http://") then [i + 7] else []) + [i]
  }

  function HostEnds(s: string, j: nat): (r: seq<nat>)
    ensures r != [] && r[|r| - 1] == j
  {
    (if StartsAt(s, j, "www.") then [j + 4] else []) + [j]
  }

  /** Length of the run of characters from `m` that are neither '/' nor white space. */
  function SegmentRun(s: string, m: nat): (n: nat)
    decreases |s| - m
    ensures m + n <= |s| || n == 0
    ensures forall k :: m <= k < m + n ==> s[k] != '/' && !IsSpace(s[k])
    ensures m + n < |s| ==> s[m + n] == '/' || IsSpace(s[m + n])
  {
    if m >= |s| || s[m] == '/' || IsSpace(s[m]) then 0 else 1 + SegmentRun(s, m + 1)
  }

  /** Length of the run of non-white-space characters from `m`. */
  function NonSpaceRun(s: string, m: nat): (n: nat)
    decreases |s| - m
    ensures m + n <= |s| || n == 0
    ensures forall k :: m <= k < m + n ==> !IsSpace(s[k])
  {
    if m >= |s| || IsSpace(s[m]) then 0 else 1 + NonSpaceRun(s, m + 1)
  }

  /** The ends `q + 1` of the slashes `s[q]` with `lo <= q < hi`, last first. */
  function SlashEndsDown(s: string, lo: nat, hi: nat): (r: seq<nat>)
    requires hi <= |s|
    decreases hi
    ensures forall k :: 0 <= k < |r| ==> lo < r[k] <= hi && s[r[k] - 1] == '/'
  {
    if hi <= lo then []
    else (if s[hi - 1] == '/' then [hi] else []) + SlashEndsDown(s, lo, hi - 1)
  }

  /** `[^\/\n\s]+\/\S+\/`: a slash-free segment and its slash, then the
      non-blank text up to a later slash, tried from the last such slash. */
  function SegmentEnds(s: string, m: nat): (r: seq<nat>)
  {
    var n := SegmentRun(s, m);
    if n == 0 || m + n >= |s| || s[m + n] != '/' then []
    else LaterSlashEnds(s, m + n + 1)
  }

  /** `\S+\/` from `p`: the ends of the slashes in the non-blank run from
      `p`, past its first character. */
  function LaterSlashEnds(s: string, p: nat): (r: seq<nat>)
    requires p <= |s|
  {
    SlashEndsDown(s, p + 1, p + NonSpaceRun(s, p))
  }

  /** `(?:v|e(?:mbed)?)\/` */
  function ShortPathEnds(s: string, m: nat): (r: seq<nat>)
  {
    if StartsAt(s, m, "v/") then [m + 2]
    else if StartsAt(s, m, "embed/") then [m + 6]
    else if StartsAt(s, m, "e/") then [m + 2]
    else []
  }

  /** `\S*?[?&]v=`: the lazy scan tries the query marks nearest first. */
  function QueryEnds(s: string, p: nat): (r: seq<nat>)
    decreases |s| - p
  {
    if p >= |s| then []
    else (if (s[p] == '?' || s[p] == '&') && StartsAt(s, p + 1, "v=") then [p + 3] else [])
         + (if IsSpace(s[p]) then [] else QueryEnds(s, p + 1))
  }

  /** The alternation after the optional prefixes: `youtube\.com\/(...)` with
      its three branches in order, then `youtu\.be\/`. */
  function PathEnds(s: string, k: nat): (r: seq<nat>)
  {
    (if StartsAt(s, k, "youtube.com/") then BranchEnds(s, k + 12) else [])
    + (if StartsAt(s, k, "youtu.be/") then [k + 9] else [])
  }

  /** The three branches after "youtube.com/", in order. */
  function BranchEnds(s: string, m: nat): (r: seq<nat>)
  {
    SegmentEnds(s, m) + ShortPathEnds(s, m) + QueryEnds(s, m)
  }

  function PathsAfterHosts(s: string, ks: seq<nat>): seq<nat>
  {
    if ks == [] then [] else PathEnds(s, ks[0]) + PathsAfterHosts(s, ks[1..])
  }

  function PathsAfterSchemes(s: string, js: seq<nat>): seq<nat>
  {
    if js == [] then [] else PathsAfterHosts(s, HostEnds(s, js[0])) + PathsAfterSchemes(s, js[1..])
  }

  /** Every position where the part before the captured id can end, for a
      match starting at `i`, in the order the backtracking matcher tries them. */
  function Candidates(s: string, i: nat): seq<nat>
  {
    PathsAfterSchemes(s, SchemeEnds(s, i))
  }

  /** `([a-zA-Z0-9_-]{11})` at `e`. */
  function IdAt(s: string, e: nat): (r: Option<string>)
    ensures r.Some? ==> e + IdLength <= |s| && r.value == s[e..e + IdLength]
    ensures r.Some? ==> forall k :: 0 <= k < |r.value| ==> IsVideoIdChar(r.value[k])
  {
    if e + IdLength <= |s| && forall k :: e <= k < e + IdLength ==> IsVideoIdChar(s[k]) then Some(s[e..e + IdLength])
    else None
  }

  /** The id after the first candidate that has one. */
  function FirstId(s: string, ends: seq<nat>): (r: Option<string>)
    ensures r.Some? ==> |r.value| == IdLength && forall k :: 0 <= k < IdLength ==> IsVideoIdChar(r.value[k])
    ensures r.Some? ==> exists e: nat :: OccursAt(s, r.value, e)
  {
    if ends == [] then None
    else match IdAt(s, ends[0])
      case Some(id) => assert OccursAt(s, id, ends[0]); Some(id)
      case None => FirstId(s, ends[1..])
  }

  /** The leftmost match at or after `i`. */
  function MatchFrom(s: string, i: nat): (r: Option<string>)
    decreases |s| + 1 - i
    ensures r.Some? ==> |r.value| == IdLength && forall k :: 0 <= k < IdLength ==> IsVideoIdChar(r.value[k])
    ensures r.Some? ==> exists e: nat :: OccursAt(s, r.value, e)
  {
    if i > |s| then None
    else match FirstId(s, Candidates(s, i))
      case Some(id) => Some(id)
      case None => MatchFrom(s, i + 1)
  }

  /** `url.match(...)[1]`: the captured video id, `None` when nothing matches. */
  function ExtractVideoId(url: string): (r: Option<string>)
    ensures r.Some? ==> |r.value| == IdLength && forall k :: 0 <= k < IdLength ==> IsVideoIdChar(r.value[k])
    ensures r.Some? ==> exists e: nat :: OccursAt(url, r.value, e)
  {
    MatchFrom(url, 0)
  }

  /** When the first way of consuming the prefixes already leads to a path,
      its first end is the first candidate. */
  lemma {:induction false} FirstCandidate(s: string, i: nat)
    requires PathEnds(s, HostEnds(s, SchemeEnds(s, i)[0])[0]) != []
    ensures Candidates(s, i) != []
    ensures Candidates(s, i)[0] == PathEnds(s, HostEnds(s, SchemeEnds(s, i)[0])[0])[0]
  {
  }

  /** A match whose first candidate has an id is that id. */
  lemma {:induction false} MatchAtStart(s: string, e: nat)
    requires Candidates(s, 0) != [] && Candidates(s, 0)[0] == e
    requires e + IdLength <= |s| && forall k :: e <= k < e + IdLength ==> IsVideoIdChar(s[k])
    ensures ExtractVideoId(s) == Some(s[e..e + IdLength])
  {
  }

  /** The prefix steps consume exactly the scheme and host a URL starts with
      when a 'y' follows them. */
  lemma {:induction false} PrefixConsumed(s: string, a: nat, b: nat)
    requires a < |Schemes| && b < |Hosts|
    requires |Schemes[a] + Hosts[b]| < |s| && s[..|Schemes[a] + Hosts[b]|] == Schemes[a] + Hosts[b]
    requires s[|Schemes[a] + Hosts[b]|] == 'y'
    ensures SchemeEnds(s, 0)[0] == |Schemes[a]|
    ensures HostEnds(s, |Schemes[a]|)[0] == |Schemes[a] + Hosts[b]|
  {
    var sc, h := Schemes[a], Hosts[b];
    assert s[..|sc|] == sc by {
      assert s[..|sc|] == s[..|sc + h|][..|sc|];
    }
    assert s[|sc|..|sc| + |h|] == h by {
      assert s[|sc|..|sc| + |h|] == s[..|sc + h|][|sc|..];
    }
    if a == 1 {
      assert s[4] == ':';
    } else if a == 2 {
      assert s[0] == 'y' || s[0] == 'w';
    }
    if b == 1 {
      assert s[|sc|] == 'y';
    }
  }

  /** A id written as `11` id characters. */
  predicate IsVideoId(id: string)
  {
    |id| == IdLength && forall k :: 0 <= k < |id| ==> IsVideoIdChar(id[k])
  }

  /** A short link yields the id that follows "youtu.be/", whatever follows it. */
  lemma {:induction false} ShortLinkId(a: nat, b: nat, id: string, rest: string)
    requires a < |Schemes| && b < |Hosts| && IsVideoId(id)
    ensures ExtractVideoId(Schemes[a] + Hosts[b] + "youtu.be/" + id + rest) == Some(id)
  {
    var pre := Schemes[a] + Hosts[b];
    var s := pre + "youtu.be/" + id + rest;
    assert Schemes[a] + Hosts[b] + "youtu.be/" + id + rest == s;
    var k := |pre|;
    assert s[..k] == pre && s[k] == 'y';
    PrefixConsumed(s, a, b);
    assert s[k..k + 9] == "youtu.be/";
    assert !StartsAt(s, k, "youtube.com/") by {
      assert s[k + 5] == s[k..k + 9][5] == '.';
      assert k + 12 <= |s| ==> s[k..k + 12][5] == s[k + 5];
    }
    assert PathEnds(s, k) == [k + 9];
    FirstCandidate(s, 0);
    assert s[k + 9..k + 9 + IdLength] == id;
    MatchAtStart(s, k + 9);
  }

  /** No '/' from position `e` on. */
  predicate NoSlashFrom(s: string, e: nat)
  {
    forall q :: e <= q < |s| ==> s[q] != '/'
  }

  /** Where the pieces of `pre + mid + v` sit. */
  lemma {:induction false} Layout(pre: string, mid: string, v: string)
    ensures (pre + mid + v)[..|pre|] == pre
    ensures StartsAt(pre + mid + v, |pre|, mid)
    ensures (pre + mid + v)[|pre| + |mid|..] == v
  {
    var s := pre + mid + v;
    assert s[|pre|..|pre| + |mid|] == mid;
  }

  lemma {:induction false} StartsAtSplit(s: string, i: nat, x: string, y: string)
    requires StartsAt(s, i, x + y)
    ensures StartsAt(s, i, x) && StartsAt(s, i + |x|, y)
  {
    assert s[i..i + |x|] == s[i..i + |x + y|][..|x|];
    assert s[i + |x|..i + |x| + |y|] == s[i..i + |x + y|][|x|..];
  }

  /** A video id followed by text without '/': the id is read at `e`, and no
      '/' follows. */
  lemma {:induction false} IdThenNoSlash(s: string, e: nat, id: string, rest: string)
    requires e <= |s| && s[e..] == id + rest && IsVideoId(id)
    requires forall k :: 0 <= k < |rest| ==> rest[k] != '/'
    ensures NoSlashFrom(s, e) && IdAt(s, e) == Some(id)
  {
    forall q | e <= q < |s|
      ensures s[q] != '/'
    {
      assert s[q] == (id + rest)[q - e];
      if q - e < |id| {
        assert IsVideoIdChar(id[q - e]);
      }
    }
    assert s[e..e + IdLength] == id;
    assert forall q :: e <= q < e + IdLength ==> s[q] == id[q - e];
  }

  /** The match starting at 0 tries the scheme and host the URL starts with
      first; when the path after them yields `e` first, the id at `e` is the
      result. */
  lemma {:induction false} MatchAfterPrefix(s: string, a: nat, b: nat, e: nat, id: string)
    requires a < |Schemes| && b < |Hosts|
    requires |Schemes[a] + Hosts[b]| < |s| && s[..|Schemes[a] + Hosts[b]|] == Schemes[a] + Hosts[b]
    requires s[|Schemes[a] + Hosts[b]|] == 'y'
    requires PathEnds(s, |Schemes[a] + Hosts[b]|) != [] && PathEnds(s, |Schemes[a] + Hosts[b]|)[0] == e
    requires IdAt(s, e) == Some(id)
    ensures ExtractVideoId(s) == Some(id)
  {
    PrefixConsumed(s, a, b);
    FirstCandidate(s, 0);
    MatchAtStart(s, e);
  }

  /** After "youtube.com/", the "embed/" and "v/" forms yield the id that
      follows them when no '/' comes after it. */
  lemma {:induction false} PathFormId(a: nat, b: nat, form: string, id: string, rest: string)
    requires a < |Schemes| && b < |Hosts| && IsVideoId(id)
    requires form == "embed/" || form == "v/"
    requires forall k :: 0 <= k < |rest| ==> rest[k] != '/'
    ensures ExtractVideoId(Schemes[a] + Hosts[b] + "youtube.com/" + form + id + rest) == Some(id)
  {
    var pre := Schemes[a] + Hosts[b];
    var mid := "youtube.com/" + form;
    var s := pre + mid + (id + rest);
    assert Schemes[a] + Hosts[b] + "youtube.com/" + form + id + rest == s;
    var k := |pre|;
    Layout(pre, mid, id + rest);
    StartsAtSplit(s, k, "youtube.com/", form);
    IdThenNoSlash(s, k + |mid|, id, rest);
    assert s[k] == s[k..k + 12][0];
    PathFormAt(s, k, form);
    MatchAfterPrefix(s, a, b, k + |mid|, id);
  }

  /** "youtube.com/" then "embed/" or "v/" with no '/' after it: the path
      ends first right after the form. */
  lemma {:induction false} PathFormAt(s: string, k: nat, form: string)
    requires form == "embed/" || form == "v/"
    requires StartsAt(s, k, "youtube.com/") && StartsAt(s, k + 12, form)
    requires NoSlashFrom(s, k + 12 + |form|)
    ensures PathEnds(s, k) != [] && PathEnds(s, k)[0] == k + 12 + |form|
  {
    var m := k + 12;
    var e := m + |form|;
    assert s[e - 1] == s[m..e][|form| - 1];
    forall q | m <= q < e - 1
      ensures s[q] != '/'
    {
      assert s[q] == s[m..e][q - m];
    }
    NoLaterSlash(s, m, e);
    ShortPathForm(s, m, form);
  }

  lemma {:induction false} ShortPathForm(s: string, m: nat, form: string)
    requires form == "embed/" || form == "v/"
    requires StartsAt(s, m, form)
    ensures ShortPathEnds(s, m) == [m + |form|]
  {
    assert s[m] == s[m..m + |form|][0];
  }

  /** The segment branch finds nothing when the only slash after `m` ends the
      first segment. */
  lemma {:induction false} NoLaterSlash(s: string, m: nat, e: nat)
    requires m < e <= |s| && s[e - 1] == '/'
    requires forall q :: m <= q < e - 1 ==> s[q] != '/'
    requires NoSlashFrom(s, e)
    ensures SegmentEnds(s, m) == []
  {
    SegmentStop(s, m, e);
    NoSlashAfter(s, e);
    SegmentEndsEmpty(s, m, e);
  }

  lemma {:induction false} SegmentEndsEmpty(s: string, m: nat, e: nat)
    requires m < e <= |s|
    requires m + SegmentRun(s, m) < |s| && s[m + SegmentRun(s, m)] == '/' ==> m + SegmentRun(s, m) + 1 == e
    requires LaterSlashEnds(s, e) == []
    ensures SegmentEnds(s, m) == []
  {
  }

  /** The first segment after `m` stops at a '/' only at the slash `e - 1`. */
  lemma {:induction false} SegmentStop(s: string, m: nat, e: nat)
    requires m < e <= |s| && s[e - 1] == '/'
    requires forall q :: m <= q < e - 1 ==> s[q] != '/'
    ensures m + SegmentRun(s, m) < |s| && s[m + SegmentRun(s, m)] == '/' ==> m + SegmentRun(s, m) + 1 == e
  {
  }

  /** No '/' from `e` on leaves no slash end for the segment branch there. */
  lemma {:induction false} NoSlashAfter(s: string, e: nat)
    requires e <= |s| && NoSlashFrom(s, e)
    ensures LaterSlashEnds(s, e) == []
  {
    NoSlashesBelow(s, e + 1, e + NonSpaceRun(s, e));
  }

  lemma {:induction false} NoSlashesBelow(s: string, lo: nat, hi: nat)
    requires 0 < lo && hi <= |s| && NoSlashFrom(s, lo - 1)
    ensures SlashEndsDown(s, lo, hi) == []
    decreases hi
  {
    if hi > lo {
      NoSlashesBelow(s, lo, hi - 1);
    }
  }

  /** "watch?v=" after "youtube.com/" yields the id that follows when no '/'
      comes after it. */
  lemma {:induction false} WatchFormId(a: nat, b: nat, id: string, rest: string)
    requires a < |Schemes| && b < |Hosts| && IsVideoId(id)
    requires forall k :: 0 <= k < |rest| ==> rest[k] != '/'
    ensures ExtractVideoId(Schemes[a] + Hosts[b] + "youtube.com/watch?v=" + id + rest) == Some(id)
  {
    var pre := Schemes[a] + Hosts[b];
    var mid := "youtube.com/watch?v=";
    var s := pre + mid + (id + rest);
    assert Schemes[a] + Hosts[b] + "youtube.com/watch?v=" + id + rest == s;
    var k := |pre|;
    Layout(pre, mid, id + rest);
    assert mid == "youtube.com/" + "watch?v=";
    StartsAtSplit(s, k, "youtube.com/", "watch?v=");
    IdThenNoSlash(s, k + |mid|, id, rest);
    assert s[k] == s[k..k + 12][0];
    WatchAt(s, k);
    MatchAfterPrefix(s, a, b, k + |mid|, id);
  }

  /** "youtube.com/watch?v=" with no '/' after it: the path ends first right
      after the query mark. */
  lemma {:induction false} WatchAt(s: string, k: nat)
    requires StartsAt(s, k, "youtube.com/") && StartsAt(s, k + 12, "watch?v=")
    requires NoSlashFrom(s, k + 20)
    ensures PathEnds(s, k) != [] && PathEnds(s, k)[0] == k + 20
  {
    var m := k + 12;
    forall q | m <= q < m + 8
      ensures s[q] != '/'
    {
      assert s[q] == s[m..m + 8][q - m];
    }
    NoSegment(s, m);
    assert s[m] == s[m..m + 8][0];
    ShortPathMiss(s, m);
    WatchQuery(s, m);
  }

  /** None of the short path forms starts with a 'w'. */
  lemma {:induction false} ShortPathMiss(s: string, m: nat)
    requires m < |s| && s[m] == 'w'
    ensures ShortPathEnds(s, m) == []
  {
    assert m + 2 <= |s| ==> s[m..m + 2][0] == s[m];
    assert m + 6 <= |s| ==> s[m..m + 6][0] == s[m];
  }

  /** Without any '/' from `m` on, the segment branch finds nothing. */
  lemma {:induction false} NoSegment(s: string, m: nat)
    requires NoSlashFrom(s, m)
    ensures SegmentEnds(s, m) == []
  {
  }

  /** The lazy query scan steps over a character that is neither a query
      mark nor white space. */
  lemma QuerySkip(s: string, p: nat)
    requires p < |s| && s[p] != '?' && s[p] != '&' && !IsSpace(s[p])
    ensures QueryEnds(s, p) == QueryEnds(s, p + 1)
  {
  }

  /** The lazy query scan stops first at "watch?v=". */
  lemma {:induction false} WatchQuery(s: string, m: nat)
    requires StartsAt(s, m, "watch?v=")
    ensures QueryEnds(s, m) != [] && QueryEnds(s, m)[0] == m + 8
  {
    var w := s[m..m + 8];
    assert w == "watch?v=";
    assert s[m] == w[0] && s[m + 1] == w[1] && s[m + 2] == w[2] && s[m + 3] == w[3] && s[m + 4] == w[4];
    assert s[m + 5] == w[5] && s[m + 6..m + 8] == w[6..];
    assert QueryEnds(s, m + 5) != [] && QueryEnds(s, m + 5)[0] == m + 8;
    QuerySkip(s, m + 4);
    QuerySkip(s, m + 3);
    QuerySkip(s, m + 2);
    QuerySkip(s, m + 1);
    QuerySkip(s, m);
  }

  /* ---------- the response ladder ---------- */

  /** The snippet of a video item; `rest` stands for the fields the route
      does not pass on. */
  datatype Thumbnail = Thumbnail(size: string, url: string)
  datatype Snippet = Snippet(title: string, description: string, channelTitle: string,
                             thumbnails: seq<Thumbnail>, channelId: string, rest: map<string, string>)

  /** One entry of the reply's `items`; `snippet` is `None` when the entry has none. */
  datatype Item = Item(snippet: Option<Snippet>)

  /** What asking the API yields: the reply's `ok` flag and its `items` list
      (`None` when absent), or `Threw` when `fetch` rejects or reading the
      reply's body (`text()` or `json()`) throws. */
  datatype ApiReply = Replied(ok: bool, items: Option<seq<Item>>) | Threw

  datatype VideoData = VideoData(title: string, description: string, channelTitle: string,
                                 thumbnails: seq<Thumbnail>, channelId: string)

  datatype Body = Found(data: VideoData) | Failed(message: string)

  /** The response, and the video id the API was asked about (`None` when the
      route answered before fetching). */
  datatype Response = Response(status: int, body: Body, fetched: Option<string>)

  /** `POST`: `url` is `None` when the body's `url` is not a string (absent,
      a number, a boolean, null, an object or an array), which makes
      `url.match` throw. */
  function Post(url: Option<string>, apiKey: Option<string>, reply: ApiReply): (r: Response)
    ensures url.None? ==> r == Response(500, Failed("An unexpected error occurred"), None)
    ensures url.Some? && ExtractVideoId(url.value).None? ==> r == Response(400, Failed("Invalid YouTube URL"), None)
    ensures r.fetched.Some? <==> url.Some? && ExtractVideoId(url.value).Some? && !FalsyString(apiKey)
    ensures r.fetched.Some? ==> r.fetched == ExtractVideoId(url.value) && IsVideoId(r.fetched.value)
    ensures url.Some? && ExtractVideoId(url.value).Some? && FalsyString(apiKey)
            ==> r == Response(500, Failed("YouTube API key is not configured"), None)
    // Every throw once the API is asked reaches the catch-all answer.
    ensures r.fetched.Some? && reply.Threw? ==> r.status == 500 && r.body == Failed("An unexpected error occurred")
    ensures r.fetched.Some? && reply.Replied? && !reply.ok
            ==> r.status == 500 && r.body == Failed("Failed to fetch video details")
    ensures r.fetched.Some? && reply.Replied? && reply.ok && (reply.items.None? || reply.items.value == [])
            ==> r.status == 404 && r.body == Failed("Video not found")
    ensures r.fetched.Some? && reply.Replied? && reply.ok && reply.items.Some? && reply.items.value != []
            && reply.items.value[0].snippet.None?
            ==> r.status == 500 && r.body == Failed("An unexpected error occurred")
    ensures r.body.Found? <==>
              r.fetched.Some? && reply.Replied? && reply.ok && reply.items.Some? && reply.items.value != []
              && reply.items.value[0].snippet.Some?
    ensures r.body.Found? ==> r.status == 200
    ensures r.body.Found? ==> var first := reply.items.value[0].snippet.value;
              r.body.data == VideoData(first.title, first.description, first.channelTitle, first.thumbnails, first.channelId)
  {
    match url
    case None => Response(500, Failed("An unexpected error occurred"), None)
    case Some(u) =>
      match ExtractVideoId(u)
      case None => Response(400, Failed("Invalid YouTube URL"), None)
      case Some(id) =>
        if FalsyString(apiKey) then Response(500, Failed("YouTube API key is not configured"), None)
        else
          match reply
          case Threw => Response(500, Failed("An unexpected error occurred"), Some(id))
          case Replied(ok, items) =>
            if !ok then Response(500, Failed("Failed to fetch video details"), Some(id))
            else if items.None? || items.value == [] then Response(404, Failed("Video not found"), Some(id))
            else
              match items.value[0].snippet
              case None => Response(500, Failed("An unexpected error occurred"), Some(id))
              case Some(first) =>
                Response(200, Found(VideoData(first.title, first.description, first.channelTitle, first.thumbnails,
                                              first.channelId)), Some(id))
  }
}

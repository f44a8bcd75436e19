/** Content extraction for a source string (`extractContent` of the library):
    classification into YouTube, X or plain text, and the title and searchable text
    built for each. The network answers (the transcript, the oEmbed JSON) are
    inputs; everything else is string logic. */
module ContentExtraction {
  import opened Base

  /** `ExtractContentOutput`: `title`, `text_for_embedding`, `content_type`. */
  datatype Extracted = Extracted(title: string, textForEmbedding: string, contentType: ContentType)

  /** What an oEmbed request meets: the fetch (or the JSON decoding) throws, the
      response is not ok, or an ok response whose JSON carries these fields. */
  datatype OEmbed =
    | FetchThrows
    | NotOk
    | OkJson(title: Option<string>, html: Option<string>, authorName: Option<string>)

  /** The network answers one extraction meets: the caption texts `fetchTranscript`
      returns (`None` when it throws) and the oEmbed answer of the branch taken. */
  datatype Fetched = Fetched(transcript: Option<seq<string>>, oembed: OEmbed)

  predicate IsYouTube(url: string) {
    Contains(url, "youtube.com") || Contains(url, "youtu.be")
  }

  predicate IsX(url: string) {
    Contains(url, "x.com") || Contains(url, "twitter.com")
  }

  /** The first position from `p` to `n` at which `at` matches: how a regular
      expression without the global flag searches a string, from the left. */
  function FirstMatch<T>(at: nat -> Option<T>, p: nat, n: nat): (r: Option<T>)
    requires p <= n
    ensures r.Some? ==> exists q :: p <= q <= n && at(q) == r && forall q' :: p <= q' < q ==> at(q').None?
    ensures r.None? ==> forall q :: p <= q <= n ==> at(q).None?
    decreases n - p
  {
    if at(p).Some? then at(p)
    else if p == n then None
    else FirstMatch(at, p + 1, n)
  }

  // ---------------------------------------------------------------------------
  // The video-id pattern `(?:v=|\/|youtu\.be\/)([a-zA-Z0-9_-]{11})(?:\?|&|$)`,
  // first match from the left.

  predicate IdChar(c: char) {
    ('a' <= c <= 'z') || ('A' <= c <= 'Z') || ('0' <= c <= '9') || c == '_' || c == '-'
  }

  /** Eleven id characters at `q`, followed by `?`, `&` or the end. */
  function IdAt(s: string, q: nat): (r: Option<string>)
    ensures r.Some? ==> |r.value| == 11 && (forall i :: 0 <= i < 11 ==> IdChar(r.value[i]))
    ensures r.Some? ==> q + 11 <= |s| && r.value == s[q..q + 11]
  {
    if q + 11 <= |s| && (forall i :: q <= i < q + 11 ==> IdChar(s[i]))
       && (q + 11 == |s| || s[q + 11] == '?' || s[q + 11] == '&')
    then Some(s[q..q + 11])
    else None
  }

  /** The pattern matched at position `p`, its alternatives tried in order. */
  function VideoIdAt(s: string, p: nat): Option<string> {
    if OccursAt(s, p, "v=") && IdAt(s, p + 2).Some? then IdAt(s, p + 2)
    else if OccursAt(s, p, "/") && IdAt(s, p + 1).Some? then IdAt(s, p + 1)
    else if OccursAt(s, p, "youtu.be/") && IdAt(s, p + 9).Some? then IdAt(s, p + 9)
    else None
  }

  /** `videoIdMatch ? videoIdMatch[1] : undefined` */
  function VideoId(url: string): (r: Option<string>)
    ensures r.Some? ==> |r.value| == 11 && (forall i :: 0 <= i < 11 ==> IdChar(r.value[i]))
    ensures r.Some? ==> exists q :: 0 <= q <= |url| && VideoIdAt(url, q) == r &&
                                    forall q' :: 0 <= q' < q ==> VideoIdAt(url, q').None?
    ensures r.None? ==> forall q :: 0 <= q <= |url| ==> VideoIdAt(url, q).None?
  {
    var at := q => VideoIdAt(url, q);
    assert forall q :: at(q) == VideoIdAt(url, q);
    FirstMatch(at, 0, |url|)
  }

  // ---------------------------------------------------------------------------
  // The tweet-path pattern `(?:x\.com|twitter\.com)\/([^\/]+)\/status\/(\d+)`,
  // first match from the left. Both groups are greedy; `[^\/]+` can only be
  // followed by `/`, so it takes the whole run of non-slash characters.

  /** End of the run of characters other than `stop` starting at `i`: how a
      greedy `[^stop]+` extends, here for `[^\/]` and `[^<]`. */
  function RunUntil(s: string, i: nat, stop: char): (j: nat)
    requires i <= |s|
    ensures i <= j <= |s| && (forall k :: i <= k < j ==> s[k] != stop) && (j == |s| || s[j] == stop)
    decreases |s| - i
  {
    if i == |s| || s[i] == stop then i else RunUntil(s, i + 1, stop)
  }

  predicate Digit(c: char) {
    '0' <= c <= '9'
  }

  /** End of the run of digits starting at `i`. */
  function DigitsEnd(s: string, i: nat): (j: nat)
    requires i <= |s|
    ensures i <= j <= |s| && (forall k :: i <= k < j ==> Digit(s[k])) && (j == |s| || !Digit(s[j]))
    decreases |s| - i
  {
    if i == |s| || !Digit(s[i]) then i else DigitsEnd(s, i + 1)
  }

  /** A user name and a status id. */
  datatype TweetRef = TweetRef(username: string, tweetId: string)

  /** `user/status/digits` at position `q`. */
  function TweetPathAt'(s: string, q: nat): (r: Option<TweetRef>)
    ensures r.Some? ==> r.value.username != [] && '/' !in r.value.username
    ensures r.Some? ==> r.value.tweetId != [] && forall i :: 0 <= i < |r.value.tweetId| ==> Digit(r.value.tweetId[i])
  {
    if q > |s| then None
    else
      var u := RunUntil(s, q, '/');
      if u > q && OccursAt(s, u, "/status/") then
        var d := DigitsEnd(s, u + 8);
        if d > u + 8 then Some(TweetRef(s[q..u], s[u + 8..d])) else None
      else None
  }

  /** The pattern matched at position `p`. */
  function TweetPathAt(s: string, p: nat): (r: Option<TweetRef>)
    ensures r.Some? ==> r.value.username != [] && '/' !in r.value.username
    ensures r.Some? ==> r.value.tweetId != [] && forall i :: 0 <= i < |r.value.tweetId| ==> Digit(r.value.tweetId[i])
  {
    if OccursAt(s, p, "x.com/") then TweetPathAt'(s, p + 6)
    else if OccursAt(s, p, "twitter.com/") then TweetPathAt'(s, p + 12)
    else None
  }

  function TweetPath(url: string): (r: Option<TweetRef>)
    ensures r.Some? ==> exists q :: 0 <= q <= |url| && TweetPathAt(url, q) == r &&
                                    forall q' :: 0 <= q' < q ==> TweetPathAt(url, q').None?
    ensures r.None? ==> forall q :: 0 <= q <= |url| ==> TweetPathAt(url, q).None?
  {
    var at := q => TweetPathAt(url, q);
    assert forall q :: at(q) == TweetPathAt(url, q);
    FirstMatch(at, 0, |url|)
  }

  // ---------------------------------------------------------------------------
  // Text fragments of the oEmbed HTML: `html.match(/>([^<]+)</g)`, each match
  // stripped of its `>` and `<` and trimmed.

  /** The global match list from position `p`, each match without its `>` and
      `<`: text between a `>` and the next `<`, scanning on after each match. */
  function TagTexts(s: string, p: nat): (r: seq<string>)
    requires p <= |s|
    ensures forall i :: 0 <= i < |r| ==> r[i] != [] && '<' !in r[i]
    decreases |s| - p
  {
    if p == |s| then []
    else if s[p] == '>' then
      var e := RunUntil(s, p + 1, '<');
      if p + 1 < e < |s| then [s[p + 1..e]] + TagTexts(s, e + 1) else TagTexts(s, p + 1)
    else TagTexts(s, p + 1)
  }

  /** The characters `String.prototype.trim` removes: white space and line
      terminators. */
  predicate JsSpace(c: char) {
    c == ' ' || c == '\t' || c == '\n' || c == '\r' || c == '\U{B}' || c == '\U{C}'
    || c == '\U{A0}' || c == '\U{1680}' || ('\U{2000}' <= c <= '\U{200A}')
    || c == '\U{2028}' || c == '\U{2029}' || c == '\U{202F}' || c == '\U{205F}'
    || c == '\U{3000}' || c == '\U{FEFF}'
  }

  function TrimStart(s: string): (r: string)
    ensures |r| <= |s| && r == s[|s| - |r|..]
    ensures r == [] || !JsSpace(r[0])
    ensures forall i :: 0 <= i < |s| - |r| ==> JsSpace(s[i])
    decreases |s|
  {
    if s != [] && JsSpace(s[0]) then TrimStart(s[1..]) else s
  }

  function TrimEnd(s: string): (r: string)
    ensures |r| <= |s| && r == s[..|r|]
    ensures r == [] || !JsSpace(r[|r| - 1])
    ensures forall i :: |r| <= i < |s| ==> JsSpace(s[i])
    decreases |s|
  {
    if s != [] && JsSpace(s[|s| - 1]) then TrimEnd(s[..|s| - 1]) else s
  }

  /** `s.trim()`: no white space left at either end, and a string with none there
      is returned as it is. */
  function Trim(s: string): (r: string)
    ensures |r| <= |s|
    ensures r == [] || (!JsSpace(r[0]) && !JsSpace(r[|r| - 1]))
    ensures s == [] || (!JsSpace(s[0]) && !JsSpace(s[|s| - 1])) ==> r == s
  {
    TrimEnd(TrimStart(s))
  }

  function TrimAll(fs: seq<string>): (r: seq<string>)
    ensures |r| == |fs| && forall i :: 0 <= i < |fs| ==> r[i] == Trim(fs[i])
  {
    seq(|fs|, i requires 0 <= i < |fs| => Trim(fs[i]))
  }

  /** The fragment filter: longer than 10 and mentioning neither `twitter.com` nor
      `pic.twitter.com`. */
  predicate Kept(f: string) {
    |f| > 10 && !Contains(f, "twitter.com") && !Contains(f, "pic.twitter.com")
  }

  /** `fragments.filter(Kept)`: exactly the kept fragments, in their order. */
  function KeepFragments(fs: seq<string>): (r: seq<string>)
    ensures |r| <= |fs|
    ensures forall i :: 0 <= i < |r| ==> Kept(r[i]) && r[i] in fs
    ensures forall i :: 0 <= i < |fs| && Kept(fs[i]) ==> fs[i] in r
    decreases |fs|
  {
    if fs == [] then []
    else
      var rest := KeepFragments(fs[1..]);
      assert forall f :: f in fs[1..] ==> f in fs;
      assert forall i :: 1 <= i < |fs| ==> fs[i] == fs[1..][i - 1];
      if Kept(fs[0]) then [fs[0]] + rest else rest
  }

  /** The text `extractedText` drawn from the oEmbed HTML. */
  function PostText(html: string): string {
    Join(" ", KeepFragments(TrimAll(TagTexts(html, 0))))
  }

  /** A string mentioning `pic.twitter.com` mentions `twitter.com`, so the second
      half of the fragment filter never removes anything the first half keeps. */
  lemma PicFilterRedundant(f: string)
    ensures Kept(f) <==> |f| > 10 && !Contains(f, "twitter.com")
  {
    if Contains(f, "pic.twitter.com") {
      var i := ContainsWhere(f, "pic.twitter.com");
      var w := f[i..i + 15];
      assert w[4..] == "twitter.com";
      assert f[i + 4..i + 15] == w[4..];
      ContainsAt(f, "twitter.com", i + 4);
    }
  }

  /** A position of an occurrence that `Contains` found. */
  lemma {:induction false} ContainsWhere(s: string, sub: string) returns (i: nat)
    requires Contains(s, sub)
    ensures i + |sub| <= |s| && s[i..i + |sub|] == sub
    decreases |s|
  {
    if s[..|sub|] == sub {
      return 0;
    }
    var j := ContainsWhere(s[1..], sub);
    assert s[1..][j..j + |sub|] == s[j + 1..j + 1 + |sub|];
    return j + 1;
  }

  // ---------------------------------------------------------------------------
  // The three branches.

  const DefaultVideoTitle := "YouTube Video"

  const NoTranscript := "Could not retrieve transcript for this video. It may be private, age-restricted, or have transcripts disabled. URL: "

  /** `oembedData.title || fallback` for an ok response; the fallback otherwise. */
  function VideoTitle(o: OEmbed, fallback: string): (t: string)
    ensures o.OkJson? && Truthy(o.title) ==> t == o.title.value
    ensures !(o.OkJson? && Truthy(o.title)) ==> t == fallback
  {
    if o.OkJson? && Truthy(o.title) then o.title.value else fallback
  }

  /** The YouTube branch, shared by both variants of `extractContent`. */
  function YouTubeContent(url: string, f: Fetched): (r: Extracted)
    ensures r.contentType == YouTubeLink
    ensures r.title != []
    ensures f.transcript.None? ==>
      r.textForEmbedding == NoTranscript + url && EndsWith(r.textForEmbedding, "URL: " + url) &&
      r.title == VideoTitle(f.oembed, DefaultVideoTitle)
    ensures f.transcript.Some? ==>
      r.textForEmbedding == Join(" ", f.transcript.value) &&
      (f.oembed.FetchThrows? ==> r.title == "YouTube Video: " + VideoId(url).GetOr("unknown")) &&
      (!f.oembed.FetchThrows? ==> r.title == VideoTitle(f.oembed, DefaultVideoTitle))
  {
    match f.transcript
    case Some(items) =>
      var title := if f.oembed.FetchThrows? then "YouTube Video: " + VideoId(url).GetOr("unknown")
                   else VideoTitle(f.oembed, DefaultVideoTitle);
      Extracted(title, Join(" ", items), YouTubeLink)
    case None =>
      var text := NoTranscript + url;
      assert text[|text| - |"URL: " + url|..] == "URL: " + url;
      Extracted(VideoTitle(f.oembed, DefaultVideoTitle), text, YouTubeLink)
  }

  /** The user name of the tweet path, or `unknown`. */
  function Handle(url: string): (h: string)
    ensures h == "unknown" || (h != [] && '/' !in h)
  {
    match TweetPath(url)
    case Some(t) => t.username
    case None => "unknown"
  }

  /** The status id of the tweet path, or `unknown`. */
  function StatusId(url: string): (id: string)
    ensures id == "unknown" || (id != [] && forall i :: 0 <= i < |id| ==> Digit(id[i]))
  {
    match TweetPath(url)
    case Some(t) => t.tweetId
    case None => "unknown"
  }

  /** The oEmbed HTML yields a post text longer than 20 characters. */
  predicate UsesPostText(o: OEmbed) {
    o.OkJson? && Truthy(o.html) && |PostText(o.html.value)| > 20
  }

  /** `content`: the post text cut to 500 characters, or the fixed description. */
  function XBody(url: string, o: OEmbed): (b: string)
    ensures UsesPostText(o) && |PostText(o.html.value)| <= 500 ==> b == PostText(o.html.value)
    ensures UsesPostText(o) && |PostText(o.html.value)| > 500 ==>
      |b| == 503 && b[..500] == PostText(o.html.value)[..500] && b[500..] == "..."
    ensures !UsesPostText(o) ==> b == "X/Twitter post from @" + Handle(url) + " (ID: " + StatusId(url) + ")."
  {
    if UsesPostText(o) then Ellipsize(PostText(o.html.value), 500)
    else "X/Twitter post from @" + Handle(url) + " (ID: " + StatusId(url) + ")."
  }

  /** `title`: a truthy author name wins; otherwise the handle, with the post text
      cut to 50 characters when it is used. */
  function XTitle(url: string, o: OEmbed): (t: string)
    ensures StartsWith(t, "X Post by @")
  {
    var t := "X Post by @" + Poster(url, o);
    assert t[..|"X Post by @"|] == "X Post by @";
    t
  }

  /** Who the title names after `@`. */
  function Poster(url: string, o: OEmbed): string {
    if o.OkJson? && Truthy(o.authorName) then o.authorName.value
    else if UsesPostText(o) then Handle(url) + ": " + Ellipsize(PostText(o.html.value), 50)
    else Handle(url)
  }

  /** A truthy author name in an ok oEmbed answer names the post, whatever the
      HTML holds. */
  lemma AuthorNameWins(url: string, o: OEmbed)
    requires o.OkJson? && Truthy(o.authorName)
    ensures XTitle(url, o) == "X Post by @" + o.authorName.value
  {
    assert Poster(url, o) == o.authorName.value;
  }

  /** Without an author name, a post text longer than 20 characters follows the
      handle, cut to 50 characters. */
  lemma PostTextTitle(url: string, o: OEmbed)
    requires !(o.OkJson? && Truthy(o.authorName)) && UsesPostText(o)
    ensures XTitle(url, o) == "X Post by @" + (Handle(url) + ": " + Ellipsize(PostText(o.html.value), 50))
  {
    assert Poster(url, o) == Handle(url) + ": " + Ellipsize(PostText(o.html.value), 50);
  }

  /** With neither, the title is the handle alone (`unknown` when the URL has no
      tweet path). */
  lemma HandleTitle(url: string, o: OEmbed)
    requires !(o.OkJson? && Truthy(o.authorName)) && !UsesPostText(o)
    ensures XTitle(url, o) == "X Post by @" + Handle(url)
  {
    assert Poster(url, o) == Handle(url);
  }

  /** The X branch of the library variant. Its outer `catch` is unreachable: nothing
      outside the inner `try` can throw. */
  function XContent(url: string, o: OEmbed): (r: Extracted)
    ensures r.contentType == XPostLink
    ensures StartsWith(r.title, "X Post by @")
    ensures EndsWith(r.textForEmbedding, " URL: " + url)
    ensures r.textForEmbedding[..|r.textForEmbedding| - |" URL: " + url|] == XBody(url, o)
  {
    var body := XBody(url, o);
    var suffix := " URL: " + url;
    var text := body + suffix;
    assert text[|text| - |suffix|..] == suffix;
    assert text[..|text| - |suffix|] == body;
    Extracted(XTitle(url, o), text, XPostLink)
  }

  /** The fallback for plain text and other URLs, shared by both variants. */
  function TextContent(url: string): (r: Extracted)
    ensures r.contentType == Text && r.textForEmbedding == url
    ensures |url| <= 50 ==> r.title == url
    ensures |url| > 50 ==> |r.title| == 53 && r.title[..50] == url[..50] && r.title[50..] == "..."
  {
    Extracted(Ellipsize(url, 50), url, Text)
  }

  /** `extractContent({ url })`. It never throws: each network failure has its
      fallback. */
  function ExtractContent(url: string, f: Fetched): (r: Extracted)
    ensures IsYouTube(url) ==> r.contentType == YouTubeLink
    ensures !IsYouTube(url) && IsX(url) ==> r.contentType == XPostLink && EndsWith(r.textForEmbedding, " URL: " + url)
    ensures !IsYouTube(url) && !IsX(url) ==> r.contentType == Text && r.textForEmbedding == url
    ensures r.title != [] || url == []
  {
    if IsYouTube(url) then YouTubeContent(url, f)
    else if IsX(url) then XContent(url, f.oembed)
    else TextContent(url)
  }
}

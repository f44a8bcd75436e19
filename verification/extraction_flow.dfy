/** The extraction flow (`extractContentFlow`), the variant the document-store path
    calls: the same classification and the same YouTube and plain-text branches as
    the library, and a fixed placeholder for X posts. */
module ExtractionFlow {
  import opened Base
  import opened ContentExtraction

  const PlaceholderTitle := "X Post Content"

  const PlaceholderIntro := "This is the dummy content of the X post from "

  /** The flow body. It never throws. Off the X branch it answers as the library
      does, whatever the network does; on it, the placeholder names the URL. */
  function ExtractContentFlow(url: string, f: Fetched): (r: Extracted)
    ensures IsYouTube(url) || !IsX(url) ==> r == ExtractContent(url, f)
    ensures IsYouTube(url) ==> r.contentType == YouTubeLink
    ensures !IsYouTube(url) && IsX(url) ==>
      r.contentType == XPostLink && r.title == PlaceholderTitle && r.textForEmbedding == PlaceholderIntro + url
    ensures !IsYouTube(url) && !IsX(url) ==> r.contentType == Text && r.textForEmbedding == url
    ensures r.title != [] || url == []
  {
    if IsYouTube(url) then YouTubeContent(url, f)
    else if IsX(url) then Extracted(PlaceholderTitle, PlaceholderIntro + url, XPostLink)
    else TextContent(url)
  }

  /** On the X branch they never agree: the library's title always names a handle
      or an author, the flow's never does. */
  lemma VariantsDifferOnX(url: string, f: Fetched)
    requires !IsYouTube(url) && IsX(url)
    ensures ExtractContentFlow(url, f).title != ExtractContent(url, f).title
    ensures ExtractContentFlow(url, f).contentType == ExtractContent(url, f).contentType == XPostLink
  {
    var lib := ExtractContent(url, f);
    assert lib == XContent(url, f.oembed);
    NotPlaceholder(lib.title);
  }

  /** No title starting "X Post by @" is the placeholder title. */
  lemma NotPlaceholder(title: string)
    requires StartsWith(title, "X Post by @")
    ensures title != PlaceholderTitle
  {
    assert title[..11][7] == 'b';
    assert PlaceholderTitle[7] == 'C';
  }
}

/** The stream-address capture of the browser automation: every request
    and response the page makes is shown to the capture, which keeps the
    list of stream-like addresses seen, without repeats, and the address of
    the HLS playlist to embed. */
module Automation {

  import opened Strings
  import opened Config

  predicate NoDuplicates(s: seq<string>) {
    forall i, j :: 0 <= i < j < |s| ==> s[i] != s[j]
  }

  /** A request is worth recording when its address names a playlist or,
      ignoring case, mentions `stream`. */
  predicate LooksLikeStream(url: string) {
    Contains(url, ".m3u8") || Contains(Lower(url), "stream")
  }

  /** A response carries a playlist when its content type says so. */
  predicate IsPlaylistType(contentType: string) {
    Contains(contentType, "mpegurl") || Contains(contentType, "application/vnd.apple.mpegurl")
  }

  /** The second test in `IsPlaylistType` adds nothing: the full HLS media
      type contains `mpegurl`. */
  lemma PlaylistTypeIsMpegurl(contentType: string)
    ensures IsPlaylistType(contentType) <==> Contains(contentType, "mpegurl")
  {
    var full := "application/vnd.apple.mpegurl";
    assert OccursAt(full, "mpegurl", 22);
    ContainsAt(full, "mpegurl");
    if Contains(contentType, full) {
      ContainsTransitive(contentType, full, "mpegurl");
    }
  }

  /** Lower-casing keeps lower-case text: an address that mentions
      `stream` in lower case is recorded. */
  lemma MentionsStream(url: string)
    requires Contains(url, "stream")
    ensures LooksLikeStream(url)
  {
    ContainsAt(url, "stream");
    var i :| OccursAt(url, "stream", i);
    var low := Lower(url);
    forall k | i <= k < i + 6 ensures low[k] == url[k] {
      assert url[k] == url[i..i + 6][k - i];
    }
    assert low[i..i + 6] == url[i..i + 6];
    assert OccursAt(low, "stream", i);
    ContainsAt(low, "stream");
  }

  class StreamCapture {
    var hlsUrl: Option<string>
    var capturedUrls: seq<string>

    /** The list has no repeats and the chosen playlist is one of them. */
    predicate Valid()
      reads this
    {
      NoDuplicates(capturedUrls) && hlsUrl.Some? && hlsUrl.value in capturedUrls
    }

    /** The capture starts with the known live playlist, chosen. */
    constructor()
      ensures Valid()
      ensures capturedUrls == [WccStreamUrl] && hlsUrl == Some(WccStreamUrl)
    {
      hlsUrl := Some(WccStreamUrl);
      capturedUrls := [WccStreamUrl];
    }

    /** `_on_request`: a new stream-like address is appended; it becomes
        the chosen playlist when it names one. */
    method OnRequest(url: string)
      requires Valid()
      modifies this
      ensures Valid()
      ensures !LooksLikeStream(url) || url in old(capturedUrls) ==>
                capturedUrls == old(capturedUrls) && hlsUrl == old(hlsUrl)
      ensures LooksLikeStream(url) && url !in old(capturedUrls) ==>
                && capturedUrls == old(capturedUrls) + [url]
                && hlsUrl == (if Contains(url, ".m3u8") then Some(url) else old(hlsUrl))
    {
      if Contains(url, ".m3u8") || Contains(Lower(url), "stream") {
        if url !in capturedUrls {
          capturedUrls := capturedUrls + [url];
          if Contains(url, ".m3u8") {
            hlsUrl := Some(url);
          }
        }
      }
    }

    /** `_on_response`: a new address answered with a playlist media type
        is appended and chosen. A missing content type reads as empty. */
    method OnResponse(url: string, contentType: Option<string>)
      requires Valid()
      modifies this
      ensures Valid()
      ensures var ct := if contentType.Some? then contentType.value else "";
              && (!Contains(ct, "mpegurl") || url in old(capturedUrls) ==>
                    capturedUrls == old(capturedUrls) && hlsUrl == old(hlsUrl))
              && (Contains(ct, "mpegurl") && url !in old(capturedUrls) ==>
                    capturedUrls == old(capturedUrls) + [url] && hlsUrl == Some(url))
    {
      var ct := if contentType.Some? then contentType.value else "";
      PlaylistTypeIsMpegurl(ct);
      if Contains(ct, "mpegurl") || Contains(ct, "application/vnd.apple.mpegurl") {
        if url !in capturedUrls {
          capturedUrls := capturedUrls + [url];
          hlsUrl := Some(url);
        }
      }
    }

    /** `get_stream_url`: the chosen playlist, always one of the addresses
        captured. */
    function StreamUrl(): (r: Option<string>)
      reads this
      ensures Valid() ==> r.Some? && r.value in capturedUrls
    {
      hlsUrl
    }
  }
}

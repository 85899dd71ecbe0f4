/** The HLS playlist rewriter of the relay (`rewrite_manifest_urls`). A
    playlist (RFC 8216 section 4.1) is split at `\n`; every line is stripped;
    blank lines and lines starting with `#` pass through, except that each
    quoted `URI="..."` attribute in them (RFC 8216 section 4.3.2.4) is pointed
    at the relay; every other line is a media segment or playlist URI and is
    replaced by a relay reference. A relay reference is
    `<proxy base>/segment?url=<quote(absolute URL, safe="")>`. */
module Manifest {

  import opened Strings
  import opened Percent
  import opened Urls

  // ---------------------------------------------------------------------
  // Relay references.

  const SegmentRoute := "/segment?url="

  /** `f'{proxy_base_url}/segment?url={quote(url, safe="")}'`. */
  function ProxyRef(proxyBase: string, url: string): string {
    proxyBase + SegmentRoute + Quote(url)
  }

  /** The `url` parameter a relay reference carries, decoded. */
  function ParseProxyRef(proxyBase: string, r: string): Option<string> {
    var prefix := proxyBase + SegmentRoute;
    if StartsWith(r, prefix) then Unquote(r[|prefix|..]) else None
  }

  /** A relay reference carries the whole URL it was made from, and its
      parameter is made of unreserved characters and `%` escapes only, so
      it survives being a query parameter. */
  lemma ProxyRefRoundTrip(proxyBase: string, url: string)
    ensures ParseProxyRef(proxyBase, ProxyRef(proxyBase, url)) == Some(url)
    ensures var q := ProxyRef(proxyBase, url)[|proxyBase + SegmentRoute|..];
            forall k :: 0 <= k < |q| ==> IsUnreserved(q[k]) || q[k] == '%'
  {
    var prefix := proxyBase + SegmentRoute;
    assert ProxyRef(proxyBase, url)[|prefix|..] == Quote(url);
    UnquoteQuote(url);
  }

  /** The absolute URL of an entry: taken as it is when it starts with
      `http`, otherwise joined to the playlist's own URL. */
  function Absolutize(entry: string, sourceUrl: string): (u: string)
    ensures StartsWith(entry, "http") ==> u == entry
    ensures !StartsWith(entry, "http") ==> u == Resolve(sourceUrl, entry)
  {
    if StartsWith(entry, "http") then entry else Resolve(sourceUrl, entry)
  }

  // ---------------------------------------------------------------------
  // `re.sub(r'URI="([^"]+)"', replace_uri, line)`.

  const UriOpen := "URI=\""

  /** When a match of `URI="([^"]+)"` starts at the front of `s`, the
      length of its captured value. */
  function UriMatch(s: string): (r: Option<nat>)
    ensures r.Some? ==> StartsWith(s, UriOpen) && 0 < r.value && 5 + r.value < |s|
                        && s[5 + r.value] == '"' && '"' !in s[5..5 + r.value]
    ensures r.None? && StartsWith(s, UriOpen) ==> |s| == 5 || s[5] == '"' || '"' !in s[5..]
  {
    if !StartsWith(s, UriOpen) then None
    else match IndexOf(s[5..], '"')
      case None => None
      case Some(k) =>
        assert forall i :: 0 <= i < k ==> s[5..5 + k][i] == s[5..][i];
        if k == 0 then None else Some(k)
  }

  /** A line scanned left to right: characters outside any match, and the
      captured values of the matches. */
  datatype Piece = Lit(c: char) | Uri(value: string)

  function Tokenize(s: string): (ps: seq<Piece>)
    decreases |s|
  {
    if s == [] then []
    else match UriMatch(s)
      case Some(k) => [Uri(s[5..5 + k])] + Tokenize(s[5 + k + 1..])
      case None => [Lit(s[0])] + Tokenize(s[1..])
  }

  /** The text a piece was read from. */
  function RawPiece(p: Piece): string {
    match p
    case Lit(c) => [c]
    case Uri(v) => UriOpen + v + "\""
  }

  function Raw(ps: seq<Piece>): string {
    if ps == [] then [] else RawPiece(ps[0]) + Raw(ps[1..])
  }

  /** `replace_uri`: the attribute pointed at the relay. */
  function RenderPiece(p: Piece, sourceUrl: string, proxyBase: string): string {
    match p
    case Lit(c) => [c]
    case Uri(v) => UriOpen + ProxyRef(proxyBase, Absolutize(v, sourceUrl)) + "\""
  }

  function Render(ps: seq<Piece>, sourceUrl: string, proxyBase: string): string {
    if ps == [] then [] else RenderPiece(ps[0], sourceUrl, proxyBase) + Render(ps[1..], sourceUrl, proxyBase)
  }

  function ReplaceUris(s: string, sourceUrl: string, proxyBase: string): string {
    Render(Tokenize(s), sourceUrl, proxyBase)
  }

  lemma RawCons(p: Piece, ps: seq<Piece>)
    ensures Raw([p] + ps) == RawPiece(p) + Raw(ps)
  {
    assert ([p] + ps)[1..] == ps;
  }

  /** A match at the front of `s` is the attribute text followed by the rest. */
  lemma SplitAtMatch(s: string, k: nat)
    requires StartsWith(s, UriOpen) && 5 + k < |s| && s[5 + k] == '"'
    ensures s == RawPiece(Uri(s[5..5 + k])) + s[5 + k + 1..]
  {
    assert s[..5] == UriOpen;
    assert s == s[..5] + s[5..5 + k] + [s[5 + k]] + s[5 + k + 1..];
  }

  /** The scan loses nothing: the pieces spell the line again, so the text
      outside the matches is exactly the text of the line. */
  lemma {:induction false} RawTokenize(s: string)
    ensures Raw(Tokenize(s)) == s
    decreases |s|
  {
    if s != [] {
      match UriMatch(s)
      case Some(k) =>
        var rest := s[5 + k + 1..];
        RawTokenize(rest);
        RawCons(Uri(s[5..5 + k]), Tokenize(rest));
        SplitAtMatch(s, k);
      case None =>
        var rest := s[1..];
        RawTokenize(rest);
        RawCons(Lit(s[0]), Tokenize(rest));
        assert s == [s[0]] + rest;
    }
  }

  /** Every captured value is non-empty and free of `"`: it is the whole
      quoted text of the attribute. */
  lemma {:induction false} TokenizeValues(s: string)
    ensures forall k :: 0 <= k < |Tokenize(s)| && Tokenize(s)[k].Uri? ==>
              Tokenize(s)[k].value != [] && '"' !in Tokenize(s)[k].value
    decreases |s|
  {
    if s != [] {
      match UriMatch(s)
      case Some(k) => TokenizeValues(s[5 + k + 1..]);
      case None => TokenizeValues(s[1..]);
    }
  }

  lemma RenderCons(p: Piece, ps: seq<Piece>, sourceUrl: string, proxyBase: string)
    ensures Render([p] + ps, sourceUrl, proxyBase) == RenderPiece(p, sourceUrl, proxyBase) + Render(ps, sourceUrl, proxyBase)
  {
    assert ([p] + ps)[1..] == ps;
  }

  /** Text without a newline keeps none after replacement, given a proxy
      base without one. */
  lemma {:induction false} ReplaceUrisNoNewline(s: string, sourceUrl: string, proxyBase: string)
    requires '\n' !in s && '\n' !in proxyBase
    ensures '\n' !in ReplaceUris(s, sourceUrl, proxyBase)
    decreases |s|
  {
    if s != [] {
      match UriMatch(s)
      case Some(k) =>
        var v, rest := s[5..5 + k], s[5 + k + 1..];
        var head := RenderPiece(Uri(v), sourceUrl, proxyBase);
        UriPieceNoNewline(v, sourceUrl, proxyBase);
        assert '\n' !in ReplaceUris(rest, sourceUrl, proxyBase) by {
          assert forall c :: c in rest ==> c in s;
          ReplaceUrisNoNewline(rest, sourceUrl, proxyBase);
        }
        assert ReplaceUris(s, sourceUrl, proxyBase) == head + ReplaceUris(rest, sourceUrl, proxyBase) by {
          assert Tokenize(s) == [Uri(v)] + Tokenize(rest);
          RenderCons(Uri(v), Tokenize(rest), sourceUrl, proxyBase);
        }
      case None =>
        var rest := s[1..];
        assert '\n' !in ReplaceUris(rest, sourceUrl, proxyBase) by {
          assert forall c :: c in rest ==> c in s;
          ReplaceUrisNoNewline(rest, sourceUrl, proxyBase);
        }
        assert ReplaceUris(s, sourceUrl, proxyBase) == [s[0]] + ReplaceUris(rest, sourceUrl, proxyBase) by {
          assert Tokenize(s) == [Lit(s[0])] + Tokenize(rest);
          RenderCons(Lit(s[0]), Tokenize(rest), sourceUrl, proxyBase);
        }
    }
  }

  lemma UriPieceNoNewline(v: string, sourceUrl: string, proxyBase: string)
    requires '\n' !in proxyBase
    ensures '\n' !in RenderPiece(Uri(v), sourceUrl, proxyBase)
  {
    ProxyRefNoNewline(proxyBase, Absolutize(v, sourceUrl));
  }

  lemma ProxyRefNoNewline(proxyBase: string, url: string)
    requires '\n' !in proxyBase
    ensures '\n' !in ProxyRef(proxyBase, url)
  {
    var q := Quote(url);
    assert forall k :: 0 <= k < |q| ==> q[k] != '\n';
  }

  // ---------------------------------------------------------------------
  // One line, and the whole playlist.

  /** The output line for one input line. */
  function RewriteLine(line: string, sourceUrl: string, proxyBase: string): string {
    var t := Strip(line);
    if t == [] || t[0] == '#' then
      if Contains(t, UriOpen) then ReplaceUris(t, sourceUrl, proxyBase) else t
    else ProxyRef(proxyBase, Absolutize(t, sourceUrl))
  }

  function RewriteLines(ls: seq<string>, sourceUrl: string, proxyBase: string): (out: seq<string>)
    ensures |out| == |ls|
    ensures forall k :: 0 <= k < |ls| ==> out[k] == RewriteLine(ls[k], sourceUrl, proxyBase)
  {
    if ls == [] then [] else [RewriteLine(ls[0], sourceUrl, proxyBase)] + RewriteLines(ls[1..], sourceUrl, proxyBase)
  }

  /** The rewritten playlist. */
  function Rewrite(content: string, sourceUrl: string, proxyBase: string): string {
    Join(RewriteLines(Split(content, '\n'), sourceUrl, proxyBase), '\n')
  }

  /** The body of the loop in `rewrite_manifest_urls`, for one line. It is
      `RewriteLine` again, statement by statement: the method is what the
      loop runs, the function is what the lemmas reason about. */
  method RewriteOne(line: string, sourceUrl: string, proxyBase: string) returns (r: string)
    ensures r == RewriteLine(line, sourceUrl, proxyBase)
  {
    var stripped := Strip(line);
    if stripped == [] || stripped[0] == '#' {
      if Contains(stripped, UriOpen) {
        stripped := ReplaceUris(stripped, sourceUrl, proxyBase);
      }
      r := stripped;
    } else {
      var url := stripped;
      if !StartsWith(url, "http") {
        url := Resolve(sourceUrl, url);
      }
      r := ProxyRef(proxyBase, url);
    }
  }

  /** `rewrite_manifest_urls`: the loop that appends one output line per
      input line. */
  method RewriteManifestUrls(content: string, sourceUrl: string, proxyBase: string) returns (out: string)
    ensures out == Rewrite(content, sourceUrl, proxyBase)
  {
    var lines := Split(content, '\n');
    var rewritten: seq<string> := [];
    for i := 0 to |lines|
      invariant |rewritten| == i
      invariant forall k :: 0 <= k < i ==> rewritten[k] == RewriteLine(lines[k], sourceUrl, proxyBase)
    {
      var line := RewriteOne(lines[i], sourceUrl, proxyBase);
      rewritten := rewritten + [line];
    }
    assert rewritten == RewriteLines(lines, sourceUrl, proxyBase);
    out := Join(rewritten, '\n');
  }

  /** The output has exactly the input's lines, in order, each rewritten on
      its own: line `k` of the output is `RewriteLine` of line `k`. */
  lemma RewriteLineStructure(content: string, sourceUrl: string, proxyBase: string)
    requires '\n' !in proxyBase
    ensures Split(Rewrite(content, sourceUrl, proxyBase), '\n')
            == RewriteLines(Split(content, '\n'), sourceUrl, proxyBase)
    ensures |Split(Rewrite(content, sourceUrl, proxyBase), '\n')| == |Split(content, '\n')|
  {
    var ls := Split(content, '\n');
    var out := RewriteLines(ls, sourceUrl, proxyBase);
    forall k | 0 <= k < |out| ensures '\n' !in out[k] {
      RewriteLineNoNewline(ls[k], sourceUrl, proxyBase);
    }
    SplitJoin(out, '\n');
  }

  lemma RewriteLineNoNewline(line: string, sourceUrl: string, proxyBase: string)
    requires '\n' !in line && '\n' !in proxyBase
    ensures '\n' !in RewriteLine(line, sourceUrl, proxyBase)
  {
    var t := Strip(line);
    StripChars(line);
    if t == [] || t[0] == '#' {
      if Contains(t, UriOpen) {
        ReplaceUrisNoNewline(t, sourceUrl, proxyBase);
      }
    } else {
      ProxyRefNoNewline(proxyBase, Absolutize(t, sourceUrl));
    }
  }

  /** Blank lines, and tag or comment lines without `URI="`, come out as the
      stripped line. */
  lemma RewriteLinePassThrough(line: string, sourceUrl: string, proxyBase: string)
    requires var t := Strip(line); t == [] || (t[0] == '#' && !Contains(t, UriOpen))
    ensures RewriteLine(line, sourceUrl, proxyBase) == Strip(line)
  {
    if Strip(line) == [] {
      assert !StartsWith(Strip(line), UriOpen);
    }
  }

  /** A URI line becomes a relay reference whose decoded parameter is the
      entry made absolute, and whose parameter holds no reserved character. */
  lemma RewriteLineReference(line: string, sourceUrl: string, proxyBase: string)
    requires var t := Strip(line); t != [] && t[0] != '#'
    ensures var out := RewriteLine(line, sourceUrl, proxyBase);
            var u := Absolutize(Strip(line), sourceUrl);
            && out == proxyBase + SegmentRoute + Quote(u)
            && ParseProxyRef(proxyBase, out) == Some(u)
            && (forall k :: |proxyBase + SegmentRoute| <= k < |out| ==> IsUnreserved(out[k]) || out[k] == '%')
  {
    var u := Absolutize(Strip(line), sourceUrl);
    ProxyRefRoundTrip(proxyBase, u);
    var out := ProxyRef(proxyBase, u);
    var q := out[|proxyBase + SegmentRoute|..];
    assert forall k :: |proxyBase + SegmentRoute| <= k < |out| ==> out[k] == q[k - |proxyBase + SegmentRoute|];
  }

  /** A tag line with `URI="`: the output is the line with each match's
      value replaced by the relay reference of that value made absolute,
      and everything between the matches as it was. */
  lemma RewriteLineTag(line: string, sourceUrl: string, proxyBase: string)
    requires var t := Strip(line); t != [] && t[0] == '#' && Contains(t, UriOpen)
    ensures var ps := Tokenize(Strip(line));
            && Raw(ps) == Strip(line)
            && RewriteLine(line, sourceUrl, proxyBase) == Render(ps, sourceUrl, proxyBase)
            && forall k :: 0 <= k < |ps| && ps[k].Uri? ==> ps[k].value != [] && '"' !in ps[k].value
  {
    RawTokenize(Strip(line));
    TokenizeValues(Strip(line));
  }
}

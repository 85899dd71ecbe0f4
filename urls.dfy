/** `urllib.parse.urljoin` as CPython 3 writes it. Both URLs are split into
    scheme, network location, path, query and fragment (`urlsplit`); the
    reference's parts are resolved against the base's, its path merged with
    the base's directory segment by segment; and the result is put back
    together (`urlunsplit`). Also the `rsplit('/', 1)` base directory of the
    stream. */
module Urls {

  import opened Strings
  import opened Sorting

  /** The parts `urlsplit` gives; an absent part is the empty string. */
  datatype Parts = Parts(scheme: string, netloc: string, path: string, query: string, fragment: string)

  /** `uses_relative` of `urllib.parse`: the schemes whose references are
      resolved against a base. */
  predicate UsesRelative(scheme: string) {
    scheme in {"", "ftp", "http", "gopher", "nntp", "imap", "wais", "file", "https", "shttp",
               "mms", "prospero", "rtsp", "rtspu", "sftp", "svn", "svn+ssh", "ws", "wss"}
  }

  /** `uses_netloc` of `urllib.parse`: the schemes with a `//` network part. */
  predicate UsesNetloc(scheme: string) {
    scheme in {"", "ftp", "http", "gopher", "nntp", "telnet", "imap", "wais", "file", "mms",
               "https", "shttp", "snews", "prospero", "rtsp", "rtspu", "rsync", "svn",
               "svn+ssh", "sftp", "nfs", "git", "git+ssh", "ws", "wss"}
  }

  // ---------------------------------------------------------------------
  // `urlsplit` and `urlunsplit`.

  predicate IsSchemeChar(c: char) {
    ('a' <= c <= 'z') || ('A' <= c <= 'Z') || ('0' <= c <= '9') || c == '+' || c == '-' || c == '.'
  }

  predicate IsLetter(c: char) {
    ('a' <= c <= 'z') || ('A' <= c <= 'Z')
  }

  /** Number of leading characters of `u` that may belong to a scheme name. */
  function SchemeRun(u: string): (n: nat)
    ensures n <= |u|
    ensures forall k :: 0 <= k < n ==> IsSchemeChar(u[k])
    ensures n < |u| ==> !IsSchemeChar(u[n])
  {
    if u != [] && IsSchemeChar(u[0]) then 1 + SchemeRun(u[1..]) else 0
  }

  /** Length of the scheme name of `u`: the text before the first `:` when
      it starts with an ASCII letter and holds only scheme characters. */
  function SchemeLength(u: string): (r: Option<nat>)
    ensures r.Some? ==> 0 < r.value < |u| && u[r.value] == ':' && IsLetter(u[0])
    ensures r.Some? ==> forall k :: 0 <= k < r.value ==> IsSchemeChar(u[k])
    ensures ':' !in u ==> r.None?
  {
    var n := SchemeRun(u);
    if 0 < n < |u| && u[n] == ':' && IsLetter(u[0]) then Some(n) else None
  }

  predicate IsNetlocDelimiter(c: char) {
    c == '/' || c == '?' || c == '#'
  }

  /** The first index from `i` on where `s` holds `/`, `?` or `#`, or `|s|`. */
  function DelimiterFrom(s: string, i: nat): (j: nat)
    requires i <= |s|
    ensures i <= j <= |s|
    ensures forall k :: i <= k < j ==> !IsNetlocDelimiter(s[k])
    ensures j < |s| ==> IsNetlocDelimiter(s[j])
    decreases |s| - i
  {
    if i == |s| || IsNetlocDelimiter(s[i]) then i else DelimiterFrom(s, i + 1)
  }

  /** `s.split(c, 1)`, with an empty second part when `c` does not occur. */
  function CutAt(s: string, c: char): (r: (string, string))
    ensures c !in r.0
    ensures c !in s ==> r == (s, [])
    ensures c in s ==> s == r.0 + [c] + r.1
  {
    match IndexOf(s, c)
    case None => (s, [])
    case Some(i) =>
      assert s == s[..i] + [c] + s[i + 1..];
      (s[..i], s[i + 1..])
  }

  /** `urlsplit(url, scheme=default)`. */
  function SplitUrl(url: string, default: string): (p: Parts)
    ensures '?' !in p.path && '#' !in p.path && '#' !in p.query
  {
    var (scheme, rest) :=
      match SchemeLength(url)
      case Some(n) => (Lower(url[..n]), url[n + 1..])
      case None => (default, url);
    var (netloc, hier) :=
      if StartsWith(rest, "//") then
        var e := DelimiterFrom(rest, 2);
        (rest[2..e], rest[e..])
      else ([], rest);
    var (beforeFragment, fragment) := CutAt(hier, '#');
    var (path, query) := CutAt(beforeFragment, '?');
    assert forall c :: c in path ==> c in beforeFragment;
    Parts(scheme, netloc, path, query, fragment)
  }

  /** `urlunsplit(parts)`: an empty query or fragment leaves no `?` or `#`. */
  function Unsplit(p: Parts): string {
    var hier :=
      if p.netloc != [] || (p.scheme != [] && UsesNetloc(p.scheme) && !StartsWith(p.path, "//")) then
        "//" + p.netloc + (if p.path != [] && p.path[0] != '/' then "/" + p.path else p.path)
      else p.path;
    (if p.scheme != [] then p.scheme + ":" else [])
    + hier
    + (if p.query != [] then "?" + p.query else [])
    + (if p.fragment != [] then "#" + p.fragment else [])
  }

  // ---------------------------------------------------------------------
  // The path merge.

  predicate NonEmptySegment(seg: string) {
    seg != []
  }

  predicate IsDotSegment(seg: string) {
    seg == "." || seg == ".."
  }

  /** `segments[1:-1] = filter(None, segments[1:-1])`: the empty segments
      between the first and the last are dropped. */
  function DropInnerEmpty(segs: seq<string>): (r: seq<string>)
    ensures |segs| >= 1 ==> |r| >= 1 && r[0] == segs[0] && r[|r| - 1] == segs[|segs| - 1]
    ensures forall k :: 0 < k < |r| - 1 ==> r[k] != []
    ensures forall x :: x in r ==> x in segs
  {
    if |segs| < 2 then segs
    else
      var inner := Filter(segs[1..|segs| - 1], NonEmptySegment);
      assert forall x :: x in inner ==> x in multiset(segs[1..|segs| - 1]);
      var r := [segs[0]] + inner + [segs[|segs| - 1]];
      assert forall k :: 0 < k < |r| - 1 ==> r[k] == inner[k - 1];
      r
  }

  /** One step of the loop over the segments: `..` pops the last resolved
      segment (if any), `.` is skipped, anything else is appended. */
  function DotStep(acc: seq<string>, seg: string): seq<string> {
    if seg == ".." then (if acc == [] then [] else acc[..|acc| - 1])
    else if seg == "." then acc
    else acc + [seg]
  }

  /** The resolved segments after the loop over `segs`. */
  function RemoveDots(segs: seq<string>): seq<string>
    decreases |segs|
  {
    if segs == [] then [] else DotStep(RemoveDots(segs[..|segs| - 1]), segs[|segs| - 1])
  }

  /** `base_parts`: the segments of the base path without the last one,
      unless that is empty. */
  function BaseParts(bpath: string): seq<string> {
    DirectoryParts(Split(bpath, '/'))
  }

  function DirectoryParts(parts: seq<string>): seq<string>
    requires |parts| >= 1
  {
    if parts[|parts| - 1] != [] then parts[..|parts| - 1] else parts
  }

  /** The segments of a reference path before the dots are resolved: the
      reference's own when it starts with `/`, otherwise the base
      directory's followed by the reference's, with inner empty ones
      dropped. */
  function MergeSegments(bpath: string, path: string): (segs: seq<string>)
    requires path != []
    ensures |segs| >= 1
  {
    if path[0] == '/' then Split(path, '/')
    else DropInnerEmpty(BaseParts(bpath) + Split(path, '/'))
  }

  /** The path `urljoin` gives a non-empty reference path `path` against
      the base path `bpath`. */
  function MergePath(bpath: string, path: string): string
    requires path != []
  {
    var joined := Join(Resolved(MergeSegments(bpath, path)), '/');
    if joined == [] then "/" else joined
  }

  /** `resolved_path` after the loop, with the empty segment appended when
      the last segment was `.` or `..`. */
  function Resolved(segs: seq<string>): seq<string>
    requires |segs| >= 1
  {
    var resolved := RemoveDots(segs);
    if IsDotSegment(segs[|segs| - 1]) then resolved + [""] else resolved
  }

  /** `urljoin(base, ref)`. */
  function Resolve(base: string, ref: string): string {
    if base == [] then ref
    else if ref == [] then base
    else
      var b := SplitUrl(base, []);
      ResolveParts(b, SplitUrl(ref, b.scheme), ref)
  }

  /** The rest of `urljoin` once the base has been split into `b` and the
      reference `ref` into `u`. */
  function ResolveParts(b: Parts, u: Parts, ref: string): string {
    if u.scheme != b.scheme || !UsesRelative(u.scheme) then ref
    else if UsesNetloc(u.scheme) && u.netloc != [] then Unsplit(u)
    else
      var netloc := if UsesNetloc(u.scheme) then b.netloc else u.netloc;
      if u.path == [] then
        Unsplit(Parts(u.scheme, netloc, b.path, if u.query != [] then u.query else b.query, u.fragment))
      else
        Unsplit(Parts(u.scheme, netloc, MergePath(b.path, u.path), u.query, u.fragment))
  }

  // ---------------------------------------------------------------------
  // What the merge guarantees.

  /** The loop keeps no `.` or `..` segment, keeps only segments it was
      given, and, when every segment but the first is non-empty, so is
      every resolved segment but the first. */
  lemma {:induction false} RemoveDotsNormal(segs: seq<string>)
    ensures forall k :: 0 <= k < |RemoveDots(segs)| ==> !IsDotSegment(RemoveDots(segs)[k])
    ensures forall x :: x in RemoveDots(segs) ==> x in segs
    ensures (forall k :: 0 < k < |segs| ==> segs[k] != [])
            ==> forall k :: 0 < k < |RemoveDots(segs)| ==> RemoveDots(segs)[k] != []
    decreases |segs|
  {
    if segs != [] {
      var prefix := segs[..|segs| - 1];
      RemoveDotsNormal(prefix);
      var acc := RemoveDots(prefix);
      var r := RemoveDots(segs);
      assert r == DotStep(acc, segs[|segs| - 1]);
      assert forall x :: x in prefix ==> x in segs;
      if segs[|segs| - 1] == ".." && acc != [] {
        assert forall k :: 0 <= k < |r| ==> r[k] == acc[k];
      }
    }
  }

  /** A path with no `.` or `..` segment comes out of the loop as it went in. */
  lemma {:induction false} RemoveDotsIdentity(segs: seq<string>)
    requires forall k :: 0 <= k < |segs| ==> !IsDotSegment(segs[k])
    ensures RemoveDots(segs) == segs
    decreases |segs|
  {
    if segs != [] {
      RemoveDotsIdentity(segs[..|segs| - 1]);
      assert segs == segs[..|segs| - 1] + [segs[|segs| - 1]];
    }
  }

  /** No segment of the merge holds a `/`. */
  lemma MergeSegmentsSlashFree(bpath: string, path: string)
    requires path != []
    ensures var segs := MergeSegments(bpath, path);
            forall k :: 0 <= k < |segs| ==> '/' !in segs[k]
  {
    if path[0] != '/' {
      var base := BaseParts(bpath);
      var tail := Split(path, '/');
      var all := base + tail;
      forall k | 0 <= k < |all| ensures '/' !in all[k] {
        if k < |base| {
          assert all[k] == Split(bpath, '/')[k];
        } else {
          assert all[k] == tail[k - |base|];
        }
      }
      var segs := MergeSegments(bpath, path);
      forall k | 0 <= k < |segs| ensures '/' !in segs[k] {
        assert segs[k] in all;
      }
    }
  }

  predicate InnerNonEmptySegments(s: seq<string>) {
    forall k :: 0 < k < |s| - 1 ==> s[k] != []
  }

  /** The resolved segments hold no `/` and no `.` or `..`, and keep the
      inner segments non-empty when the merge did. */
  lemma ResolvedNormal(segs: seq<string>)
    requires |segs| >= 1 && forall k :: 0 <= k < |segs| ==> '/' !in segs[k]
    ensures var parts := Resolved(segs);
            && (forall k :: 0 <= k < |parts| ==> '/' !in parts[k] && !IsDotSegment(parts[k]))
            && (InnerNonEmptySegments(segs) ==> InnerNonEmptySegments(parts))
  {
    var resolved := RemoveDots(segs);
    var parts := Resolved(segs);
    RemoveDotsNormal(segs);
    forall k | 0 <= k < |resolved| ensures '/' !in resolved[k] {
      assert resolved[k] in segs;
    }
    if InnerNonEmptySegments(segs) {
      var front := segs[..|segs| - 1];
      assert forall k :: 0 < k < |front| ==> front[k] != [] by {
        forall k | 0 < k < |front| ensures front[k] != [] {
          assert front[k] == segs[k];
        }
      }
      RemoveDotsNormal(front);
      LastDotStep(RemoveDots(front), segs[|segs| - 1]);
      assert resolved == DotStep(RemoveDots(front), segs[|segs| - 1]);
    }
  }

  /** One step on segments non-empty after the first keeps them so,
      except for a last segment it appends. */
  lemma LastDotStep(acc: seq<string>, seg: string)
    requires forall k :: 0 < k < |acc| ==> acc[k] != []
    ensures var r := DotStep(acc, seg);
            InnerNonEmptySegments(r) && InnerNonEmptySegments(if IsDotSegment(seg) then r + [""] else r)
  {
    var r := DotStep(acc, seg);
    if seg == ".." && acc != [] {
      assert forall k :: 0 <= k < |r| ==> r[k] == acc[k];
    }
    assert forall k :: 0 < k < |r| - 1 ==> r[k] == acc[k];
    if IsDotSegment(seg) {
      var r' := r + [""];
      assert forall k :: 0 < k < |r'| - 1 ==> r'[k] == r[k];
      assert forall k :: 0 < k < |r| ==> r[k] == acc[k];
    }
  }

  /** The path built from segments free of `/` splits back into those
      segments, or into the two empty segments of `/`. */
  lemma SplitBuiltPath(parts: seq<string>)
    requires forall k :: 0 <= k < |parts| ==> '/' !in parts[k]
    ensures var joined := Join(parts, '/');
            var out := Split(if joined == [] then "/" else joined, '/');
            out == parts || out == ["", ""]
  {
    var joined := Join(parts, '/');
    if joined == [] {
      FirstSeparator("", '/', "");
      assert Split("", '/') == [""];
      assert Split("/", '/') == [""] + Split("", '/');
    } else if parts != [] {
      SplitJoin(parts, '/');
    }
  }

  /** The path `urljoin` builds has no `.` or `..` segment, and, for a
      relative reference, no empty segment except at its two ends: `//`
      runs in the base directory and in the reference are collapsed. */
  lemma MergePathNormal(bpath: string, path: string)
    requires path != []
    ensures var out := Split(MergePath(bpath, path), '/');
            && (forall k :: 0 <= k < |out| ==> !IsDotSegment(out[k]))
            && (path[0] != '/' ==> InnerNonEmptySegments(out))
  {
    var segs := MergeSegments(bpath, path);
    var parts := Resolved(segs);
    MergeSegmentsSlashFree(bpath, path);
    if path[0] != '/' {
      MergeSegmentsInner(bpath, path);
    }
    ResolvedNormal(segs);
    JoinedNormal(parts);
  }

  /** The segments merged for a relative path have no inner empty one. */
  lemma MergeSegmentsInner(bpath: string, path: string)
    requires path != [] && path[0] != '/'
    ensures InnerNonEmptySegments(MergeSegments(bpath, path))
  {
    var segs := MergeSegments(bpath, path);
    assert segs == DropInnerEmpty(BaseParts(bpath) + Split(path, '/'));
  }

  /** Joining normal segments with `/` (or `/` alone for none) and splitting
      again gives back normal segments. */
  lemma JoinedNormal(parts: seq<string>)
    requires forall k :: 0 <= k < |parts| ==> '/' !in parts[k] && !IsDotSegment(parts[k])
    ensures var joined := Join(parts, '/');
            var out := Split(if joined == [] then "/" else joined, '/');
            && (forall k :: 0 <= k < |out| ==> !IsDotSegment(out[k]))
            && (InnerNonEmptySegments(parts) ==> InnerNonEmptySegments(out))
  {
    var joined := Join(parts, '/');
    var out := Split(if joined == [] then "/" else joined, '/');
    SplitBuiltPath(parts);
    if out != parts {
      assert out == ["", ""];
      assert !IsDotSegment(out[0]) && !IsDotSegment(out[1]);
    }
  }

  /** A segment of a path that needs no resolving. */
  predicate PlainSegment(seg: string) {
    seg != [] && !IsDotSegment(seg)
  }

  /** An absolute path whose directory segments need no resolving. */
  predicate PlainDirectory(bpath: string) {
    var parts := Split(bpath, '/');
    |parts| >= 2 && parts[0] == [] && forall k :: 0 < k < |parts| - 1 ==> PlainSegment(parts[k])
  }

  /** A relative reference that is a path and nothing else, each of its
      segments plain. */
  predicate PlainRelativePath(ref: string) {
    ref != [] && ref[0] != '/' && ':' !in ref && '?' !in ref && '#' !in ref
    && forall k :: 0 <= k < |Split(ref, '/')| ==> PlainSegment(Split(ref, '/')[k])
  }

  /** A base URL with a relative scheme, an authority and a plain
      directory. */
  predicate PlainBase(base: string) {
    var b := SplitUrl(base, []);
    b.scheme != [] && UsesRelative(b.scheme) && UsesNetloc(b.scheme) && b.netloc != []
    && PlainDirectory(b.path)
  }

  /** The directory of an absolute path: everything up to its last `/`. */
  function Directory(bpath: string): (d: string)
    requires '/' in bpath
    ensures StartsWith(bpath, d) && EndsWith(d, "/")
  {
    var i := LastIndexOf(bpath, '/').value;
    assert bpath[..i + 1][..i + 1] == bpath[..i + 1];
    bpath[..i + 1]
  }

  lemma {:induction false} JoinAppend(a: seq<string>, b: seq<string>, c: char)
    requires |a| >= 1 && |b| >= 1
    ensures Join(a + b, c) == Join(a, c) + [c] + Join(b, c)
    decreases |a|
  {
    if |a| == 1 {
      assert (a + b)[1..] == b;
    } else {
      assert (a + b)[1..] == a[1..] + b;
      JoinAppend(a[1..], b, c);
    }
  }

  lemma Bracket(segs: seq<string>)
    requires |segs| >= 2
    ensures segs == [segs[0]] + segs[1..|segs| - 1] + [segs[|segs| - 1]]
  {
  }

  lemma InnerNonEmpty(segs: seq<string>)
    requires |segs| >= 2 && forall k :: 0 < k < |segs| - 1 ==> segs[k] != []
    ensures var inner := segs[1..|segs| - 1];
            forall k :: 0 <= k < |inner| ==> NonEmptySegment(inner[k])
  {
    var inner := segs[1..|segs| - 1];
    forall k | 0 <= k < |inner| ensures NonEmptySegment(inner[k]) {
      assert inner[k] == segs[k + 1];
    }
  }

  /** Nothing is dropped when no inner segment is empty. */
  lemma DropInnerEmptyNone(segs: seq<string>)
    requires |segs| >= 2 && forall k :: 0 < k < |segs| - 1 ==> segs[k] != []
    ensures DropInnerEmpty(segs) == segs
  {
    InnerNonEmpty(segs);
    FilterAll(segs[1..|segs| - 1], NonEmptySegment);
    Bracket(segs);
  }

  /** Nothing is dropped where two runs of non-empty segments meet. */
  lemma DropInnerEmptyJoin(a: seq<string>, b: seq<string>)
    requires |a| >= 1 && |b| >= 1
    requires forall k :: 0 < k < |a| ==> a[k] != []
    requires forall k :: 0 <= k < |b| - 1 ==> b[k] != []
    ensures DropInnerEmpty(a + b) == a + b
  {
    var s := a + b;
    forall k | 0 < k < |s| - 1 ensures s[k] != [] {
      if k < |a| {
        assert s[k] == a[k];
      } else {
        assert s[k] == b[k - |a|];
      }
    }
    DropInnerEmptyNone(s);
  }

  lemma FilterEmptyOne()
    ensures Filter([""], NonEmptySegment) == []
  {
    var e: seq<string> := [""];
    FilterCons(e, NonEmptySegment);
    assert e[1..] == [];
  }

  lemma FilterSnocEmpty(x: seq<string>)
    requires forall k :: 0 <= k < |x| ==> NonEmptySegment(x[k])
    ensures Filter(x + [""], NonEmptySegment) == x
  {
    FilterAppend(x, [""], NonEmptySegment);
    FilterAll(x, NonEmptySegment);
    FilterEmptyOne();
    assert x + [] == x;
  }

  /** Filtering drops an empty segment between two runs of non-empty ones. */
  lemma FilterGap(x: seq<string>, y: seq<string>)
    requires forall k :: 0 <= k < |x| ==> NonEmptySegment(x[k])
    requires forall k :: 0 <= k < |y| ==> NonEmptySegment(y[k])
    ensures Filter(x + [""] + y, NonEmptySegment) == x + y
  {
    FilterSnocEmpty(x);
    FilterAll(y, NonEmptySegment);
    FilterAppend(x + [""], y, NonEmptySegment);
  }

  lemma GapParts(a: seq<string>, b: seq<string>)
    requires |a| >= 1 && |b| >= 1
    ensures var s := a + [""] + b;
            && s[1..|s| - 1] == a[1..] + [""] + b[..|b| - 1]
            && s[0] == a[0] && s[|s| - 1] == b[|b| - 1]
            && a + b == [a[0]] + (a[1..] + b[..|b| - 1]) + [b[|b| - 1]]
  {
    var s := a + [""] + b;
    assert s[1..|s| - 1] == a[1..] + [""] + b[..|b| - 1];
    assert a + b == [a[0]] + (a[1..] + b[..|b| - 1]) + [b[|b| - 1]];
  }

  lemma RunsNonEmpty(a: seq<string>, b: seq<string>, x: seq<string>, y: seq<string>)
    requires |a| >= 1 && |b| >= 1 && x == a[1..] && y == b[..|b| - 1]
    requires forall k :: 0 < k < |a| ==> a[k] != []
    requires forall k :: 0 <= k < |b| - 1 ==> b[k] != []
    ensures forall k :: 0 <= k < |x| ==> NonEmptySegment(x[k])
    ensures forall k :: 0 <= k < |y| ==> NonEmptySegment(y[k])
  {
    forall k | 0 <= k < |x| ensures NonEmptySegment(x[k]) {
      assert x[k] == a[k + 1];
    }
    forall k | 0 <= k < |y| ensures NonEmptySegment(y[k]) {
      assert y[k] == b[k];
    }
  }

  /** One empty inner segment between non-empty ones is dropped. */
  lemma DropInnerEmptyGap(a: seq<string>, b: seq<string>)
    requires |a| >= 1 && |b| >= 1
    requires forall k :: 0 < k < |a| ==> a[k] != []
    requires forall k :: 0 <= k < |b| - 1 ==> b[k] != []
    ensures DropInnerEmpty(a + [""] + b) == a + b
  {
    GapParts(a, b);
    RunsNonEmpty(a, b, a[1..], b[..|b| - 1]);
    FilterGap(a[1..], b[..|b| - 1]);
  }

  /** The directory parts of plain segments, followed by non-empty ones,
      are the segments up to the last `/` once the inner empty ones are
      dropped. */
  lemma DirectoryPartsPlain(parts: seq<string>, tail: seq<string>)
    requires |parts| >= 2 && |tail| >= 1
    requires forall k :: 0 < k < |parts| - 1 ==> PlainSegment(parts[k])
    requires forall k :: 0 <= k < |tail| ==> tail[k] != []
    ensures DropInnerEmpty(DirectoryParts(parts) + tail) == parts[..|parts| - 1] + tail
  {
    var front := parts[..|parts| - 1];
    assert forall k :: 0 < k < |front| ==> front[k] != [] by {
      forall k | 0 < k < |front| ensures front[k] != [] {
        assert front[k] == parts[k];
        assert PlainSegment(parts[k]);
      }
    }
    if parts[|parts| - 1] != [] {
      DropInnerEmptyJoin(front, tail);
    } else {
      assert DirectoryParts(parts) + tail == front + [""] + tail;
      DropInnerEmptyGap(front, tail);
    }
  }

  /** A plain relative path is appended to the directory of a plain base
      path, as in section 5.2.3 of RFC 3986. */
  lemma MergePathPlain(bpath: string, path: string)
    requires PlainDirectory(bpath) && PlainRelativePath(path)
    ensures '/' in bpath && MergePath(bpath, path) == Directory(bpath) + path
  {
    var parts := Split(bpath, '/');
    var front := parts[..|parts| - 1];
    var tail := Split(path, '/');
    var segs := front + tail;
    ResolvedMergePlain(bpath, path);
    JoinMergedPlain(bpath, path);
    MergePathOf(bpath, path, segs);
  }

  /** `MergePath` is the join of the resolved segments when that is not
      empty. */
  lemma MergePathOf(bpath: string, path: string, segs: seq<string>)
    requires path != [] && Resolved(MergeSegments(bpath, path)) == segs && Join(segs, '/') != []
    ensures MergePath(bpath, path) == Join(segs, '/')
  {
  }

  lemma ResolvedMergePlain(bpath: string, path: string)
    requires PlainDirectory(bpath) && PlainRelativePath(path)
    ensures var parts := Split(bpath, '/');
            Resolved(MergeSegments(bpath, path)) == parts[..|parts| - 1] + Split(path, '/')
  {
    var parts := Split(bpath, '/');
    var tail := Split(path, '/');
    var segs := parts[..|parts| - 1] + tail;
    assert forall k :: 0 <= k < |segs| ==> !IsDotSegment(segs[k]) by {
      assert forall k :: 0 <= k < |tail| ==> PlainSegment(tail[k]);
      NoDotSegments(parts, tail);
    }
    ResolvedPlain(segs);
    MergeSegmentsPlain(bpath, path);
  }

  lemma JoinMergedPlain(bpath: string, path: string)
    requires PlainDirectory(bpath) && PlainRelativePath(path)
    ensures var parts := Split(bpath, '/');
            && '/' in bpath && Directory(bpath) != []
            && Join(parts[..|parts| - 1] + Split(path, '/'), '/') == Directory(bpath) + path
  {
    var parts := Split(bpath, '/');
    DirectorySplit(bpath);
    JoinAppend(parts[..|parts| - 1], Split(path, '/'), '/');
    JoinSplit(path, '/');
  }

  /** The merged segments of plain paths are the base's up to its last `/`
      followed by the reference's. */
  lemma MergeSegmentsPlain(bpath: string, path: string)
    requires PlainDirectory(bpath) && PlainRelativePath(path)
    ensures var parts := Split(bpath, '/');
            var segs := parts[..|parts| - 1] + Split(path, '/');
            MergeSegments(bpath, path) == segs
  {
    var parts := Split(bpath, '/');
    var tail := Split(path, '/');
    assert forall k :: 0 <= k < |tail| ==> PlainSegment(tail[k]);
    assert MergeSegments(bpath, path) == DropInnerEmpty(DirectoryParts(parts) + tail);
    DirectoryPartsPlain(parts, tail);
  }

  /** Segments with no dot segment are resolved to themselves. */
  lemma ResolvedPlain(segs: seq<string>)
    requires |segs| >= 1 && forall k :: 0 <= k < |segs| ==> !IsDotSegment(segs[k])
    ensures Resolved(segs) == segs
  {
    RemoveDotsIdentity(segs);
  }

  /** The directory of a path with a `/` is the join of its segments but
      the last, and a `/`. */
  lemma DirectorySplit(bpath: string)
    requires |Split(bpath, '/')| >= 2
    ensures var parts := Split(bpath, '/');
            '/' in bpath && Directory(bpath) == Join(parts[..|parts| - 1], '/') + "/"
  {
    var parts := Split(bpath, '/');
    var front := parts[..|parts| - 1];
    var last := parts[|parts| - 1];
    assert '/' !in last;
    JoinSplit(bpath, '/');
    JoinSnoc(parts, '/');
    DirectoryAt(bpath, Join(front, '/') + "/", last);
  }

  lemma JoinSnoc(parts: seq<string>, c: char)
    requires |parts| >= 2
    ensures Join(parts, c) == Join(parts[..|parts| - 1], c) + [c] + parts[|parts| - 1]
  {
    var front := parts[..|parts| - 1];
    var last := parts[|parts| - 1];
    assert parts == front + [last];
    JoinAppend(front, [last], c);
  }

  lemma DirectoryAt(bpath: string, dir: string, last: string)
    requires bpath == dir + last && EndsWith(dir, "/") && '/' !in last
    ensures '/' in bpath && Directory(bpath) == dir
  {
    assert bpath[|dir| - 1] == '/';
    forall k | |dir| - 1 < k < |bpath| ensures bpath[k] != '/' {
      assert bpath[k] == last[k - |dir|];
    }
    assert LastIndexOf(bpath, '/') == Some(|dir| - 1);
    assert bpath[..|dir|] == dir;
  }

  lemma NoDotSegments(parts: seq<string>, tail: seq<string>)
    requires |parts| >= 2 && parts[0] == []
    requires forall k :: 0 < k < |parts| - 1 ==> PlainSegment(parts[k])
    requires forall k :: 0 <= k < |tail| ==> PlainSegment(tail[k])
    ensures var segs := parts[..|parts| - 1] + tail;
            forall k :: 0 <= k < |segs| ==> !IsDotSegment(segs[k])
  {
    var front := parts[..|parts| - 1];
    var segs := front + tail;
    forall k | 0 <= k < |segs| ensures !IsDotSegment(segs[k]) {
      if k < |front| {
        assert segs[k] == parts[k];
      } else {
        assert segs[k] == tail[k - |front|];
      }
    }
  }

  /** A plain relative reference against a base with an authority and a
      plain directory: the base's scheme, authority and directory followed
      by the reference, so the result ends with the reference. */
  lemma ResolvePlainRelative(base: string, ref: string)
    requires PlainBase(base) && PlainRelativePath(ref)
    ensures var b := SplitUrl(base, []);
            '/' in b.path
            && Resolve(base, ref) == b.scheme + ":" + "//" + b.netloc + Directory(b.path) + ref
            && EndsWith(Resolve(base, ref), ref)
  {
    var b := SplitUrl(base, []);
    ResolvePlainUnsplit(base, ref);
    UnsplitPlain(b.scheme, b.netloc, Directory(b.path), ref);
  }

  /** The same, before `urlunsplit`: the base's scheme and authority with
      its directory followed by the reference as the path. */
  lemma ResolvePlainUnsplit(base: string, ref: string)
    requires var b := SplitUrl(base, []);
             b.scheme != [] && UsesRelative(b.scheme) && UsesNetloc(b.scheme) && b.netloc != []
             && PlainDirectory(b.path)
    requires PlainRelativePath(ref)
    ensures var b := SplitUrl(base, []);
            && '/' in b.path && Directory(b.path) != [] && Directory(b.path)[0] == '/'
            && Resolve(base, ref) == Unsplit(Parts(b.scheme, b.netloc, Directory(b.path) + ref, [], []))
  {
    var b := SplitUrl(base, []);
    ResolveSplit(base, ref);
    SplitPlainRelative(ref, b.scheme);
    ResolvePartsPlain(b, ref);
  }

  /** `urlunsplit` of an authority and an absolute path `dir + ref`: the
      string ends with `ref`. */
  lemma UnsplitPlain(scheme: string, netloc: string, dir: string, ref: string)
    requires scheme != [] && netloc != [] && dir != [] && dir[0] == '/'
    ensures var u := Unsplit(Parts(scheme, netloc, dir + ref, [], []));
            && u == scheme + ":" + "//" + netloc + dir + ref
            && EndsWith(u, ref)
  {
    UnsplitWithAuthority(scheme, netloc, dir + ref);
    var prefix := scheme + ":" + "//" + netloc + dir;
    assert scheme + ":" + "//" + netloc + (dir + ref) == prefix + ref;
    EndsWithAppend(prefix, ref);
  }

  /** `urljoin` of two non-empty strings works on their split parts. */
  lemma ResolveSplit(base: string, ref: string)
    requires base != [] && ref != []
    ensures var b := SplitUrl(base, []);
            Resolve(base, ref) == ResolveParts(b, SplitUrl(ref, b.scheme), ref)
  {
  }

  /** The parts of a plain relative reference resolve to the base's scheme
      and authority with the directory of its path followed by the
      reference. */
  lemma ResolvePartsPlain(b: Parts, ref: string)
    requires b.scheme != [] && UsesRelative(b.scheme) && UsesNetloc(b.scheme) && b.netloc != []
    requires PlainDirectory(b.path) && PlainRelativePath(ref)
    ensures '/' in b.path && Directory(b.path)[0] == '/'
    ensures ResolveParts(b, Parts(b.scheme, [], ref, [], []), ref)
            == Unsplit(Parts(b.scheme, b.netloc, Directory(b.path) + ref, [], []))
  {
    MergePathPlain(b.path, ref);
    PlainDirectoryRooted(b.path);
  }

  lemma EndsWithAppend(a: string, b: string)
    ensures EndsWith(a + b, b)
  {
    assert (a + b)[|a|..] == b;
  }

  /** A plain relative reference is all path to `urlsplit`. */
  lemma SplitPlainRelative(ref: string, scheme: string)
    requires PlainRelativePath(ref)
    ensures SplitUrl(ref, scheme) == Parts(scheme, [], ref, [], [])
  {
    assert SchemeLength(ref).None?;
    assert !StartsWith(ref, "//");
    assert CutAt(ref, '#') == (ref, []);
    assert CutAt(ref, '?') == (ref, []);
  }

  /** A plain directory is an absolute path. */
  lemma PlainDirectoryRooted(bpath: string)
    requires PlainDirectory(bpath)
    ensures bpath != [] && bpath[0] == '/'
    ensures '/' in bpath && Directory(bpath)[0] == '/'
  {
    var parts := Split(bpath, '/');
    match IndexOf(bpath, '/')
    case None =>
      assert false;
    case Some(i) =>
      assert parts[0] == bpath[..i];
    DirectorySplit(bpath);
    var d := Directory(bpath);
    assert bpath[..|d|] == d;
  }

  /** `urlunsplit` of a scheme, an authority and an absolute path, with no
      query and no fragment. */
  lemma UnsplitWithAuthority(scheme: string, netloc: string, path: string)
    requires scheme != [] && netloc != [] && path != [] && path[0] == '/'
    ensures Unsplit(Parts(scheme, netloc, path, [], [])) == scheme + ":" + "//" + netloc + path
  {
  }

  /** `url.rsplit('/', 1)[0] + '/'`: the directory of the stream playlist,
      used as the base of the path-based segment route. */
  function BaseDirectory(url: string): (d: string)
    ensures EndsWith(d, "/")
    ensures '/' in url ==> StartsWith(url, d)
    ensures '/' !in url ==> d == url + "/"
  {
    match LastIndexOf(url, '/')
    case None => url + "/"
    case Some(i) => url[..i] + "/"
  }
}

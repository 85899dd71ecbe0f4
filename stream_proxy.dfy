/** The authenticated HLS relay: a credential store with an active and a
    backup cookie set, the playlist and segment fetches with their one-shot
    fallback to the backup set on an authentication failure, and the
    generic relay request. The origin server is a parameter: a function
    from a URL and the cookies sent with it to the response. */
module Proxy {

  import opened Strings
  import opened Utf8
  import opened Urls
  import opened Manifest
  import opened Config

  type Cookies = map<string, string>

  /** What a GET to the origin gives: a status, the raw body and the
      `content-type` header if there is one; or a transport failure (the
      client raising). */
  datatype Response =
    | Reply(status: int, body: seq<Byte>, contentType: Option<string>)
    | Failure

  type Origin = (string, Cookies) -> Response

  /** A cookie record as the browser reports it. */
  datatype BrowserCookie = BrowserCookie(name: string, value: string)

  predicate IsOk(r: Response) { r.Reply? && r.status == 200 }

  predicate IsAuthFailure(r: Response) { r.Reply? && (r.status == 401 || r.status == 403) }

  /** The backup set is worth a retry: it is non-empty and differs from the
      set that was just refused. */
  predicate UsableBackup(backup: Cookies, active: Cookies) {
    |backup| > 0 && backup != active
  }

  /** The map built from browser records, each record overwriting what an
      earlier one with the same name wrote. */
  function CookieMap(records: seq<BrowserCookie>): Cookies {
    if records == [] then map[]
    else CookieMap(records[..|records| - 1])[records[|records| - 1].name := records[|records| - 1].value]
  }

  /** Every name of a record is a key, no other key is present, and each
      key holds the value of the LAST record with that name. */
  lemma {:induction false} CookieMapLastWins(records: seq<BrowserCookie>)
    ensures forall name :: name in CookieMap(records) <==> exists i :: 0 <= i < |records| && records[i].name == name
    ensures forall i :: 0 <= i < |records| && (forall j :: i < j < |records| ==> records[j].name != records[i].name) ==>
              records[i].name in CookieMap(records) && CookieMap(records)[records[i].name] == records[i].value
  {
    if records != [] {
      var n := |records| - 1;
      var init := records[..n];
      CookieMapLastWins(init);
      forall name ensures name in CookieMap(records) <==> exists i :: 0 <= i < |records| && records[i].name == name {
        if name in CookieMap(init) {
          var i :| 0 <= i < |init| && init[i].name == name;
          assert records[i].name == name;
        }
        if exists i :: 0 <= i < |records| && records[i].name == name {
          var i :| 0 <= i < |records| && records[i].name == name;
          if i < n {
            assert init[i].name == name;
          }
        }
      }
      forall i | 0 <= i < |records| && (forall j :: i < j < |records| ==> records[j].name != records[i].name)
        ensures records[i].name in CookieMap(records) && CookieMap(records)[records[i].name] == records[i].value
      {
        if i < n {
          assert init[i] == records[i];
          assert forall j :: i < j < |init| ==> init[j] == records[j];
        }
      }
    }
  }

  /** The relay's own address as segment references use it: the explicit
      setting when it is a non-empty string; otherwise the configured
      backend address, given `https://` when it does not start with `http`,
      followed by `/stream`; otherwise the local development address. */
  function ProxyBase(configured: Option<string>, backendUrl: string): (r: string)
    ensures configured.Some? && configured.value != [] ==> r == configured.value
    ensures (configured.None? || configured.value == []) ==>
              StartsWith(r, "http") && EndsWith(r, "/stream")
    ensures (configured.None? || configured.value == []) && backendUrl != [] ==>
              Contains(r, backendUrl)
  {
    if configured.Some? && configured.value != [] then configured.value
    else if backendUrl != [] then
      var host := if StartsWith(backendUrl, "http") then backendUrl else "https://" + backendUrl;
      assert StartsWith(host + "/stream", host) && StartsWith(host, "http");
      assert (host + "/stream")[..4] == host[..4];
      assert EndsWith(host, backendUrl);
      ContainsAt(host + "/stream", backendUrl);
      assert OccursAt(host + "/stream", backendUrl, |host| - |backendUrl|);
      host + "/stream"
    else "http://localhost:8000/stream"
  }

  /** The body of a playlist, read as strict UTF-8 and rewritten; None when
      it is not valid UTF-8 (the decode raising). */
  function RewrittenBody(body: seq<Byte>, target: string, proxyBase: string): Option<string> {
    match Decode(body)
    case None => None
    case Some(text) => Some(Rewrite(text, target, proxyBase))
  }

  /** How a fetch ends: accepted with the active set, accepted with the
      backup set on the one retry, or not accepted. */
  datatype Outcome = FirstOk(body: seq<Byte>) | BackupOk(body: seq<Byte>) | Refused

  /** The fallback protocol of `fetch_manifest` and `fetch_segment`: ask
      with the active set; on a 401 or 403, and only when retrying is
      allowed, ask once more with a usable backup set. The backup set is
      used only after the active set was refused for authentication, only
      when it is non-empty and different, and only when the origin accepts
      it with a 200; and the retry is taken whenever it can help, any other
      failure of the active set ending refused. */
  function Attempt(url: string, retry: bool, active: Cookies, backup: Cookies, origin: Origin): (a: Outcome)
    ensures a.FirstOk? <==> IsOk(origin(url, active))
    ensures a.FirstOk? ==> a.body == origin(url, active).body
    ensures a.BackupOk? ==> retry && IsAuthFailure(origin(url, active)) && |backup| > 0 && backup != active
                            && IsOk(origin(url, backup)) && a.body == origin(url, backup).body
    ensures IsAuthFailure(origin(url, active)) && retry && UsableBackup(backup, active) && IsOk(origin(url, backup)) ==>
              a == BackupOk(origin(url, backup).body)
    ensures !IsOk(origin(url, active)) && (!IsAuthFailure(origin(url, active)) || !retry) ==> a == Refused
    ensures !IsOk(origin(url, active)) && (backup == active || |backup| == 0) ==> a == Refused
  {
    var first := origin(url, active);
    if IsOk(first) then FirstOk(first.body)
    else if IsAuthFailure(first) && retry && UsableBackup(backup, active) && IsOk(origin(url, backup))
    then BackupOk(origin(url, backup).body)
    else Refused
  }

  /** The playlist `fetch_manifest(url)` asks for. */
  function ManifestTarget(url: Option<string>): (t: string)
    ensures url.Some? && url.value != [] ==> t == url.value
    ensures (url.None? || url.value == []) ==> t == WccStreamUrl
  {
    if url.Some? && url.value != [] then url.value else WccStreamUrl
  }

  /** What `fetch_manifest` returns for an attempt: the accepted body,
      decoded and rewritten against the requested URL. */
  function ManifestResult(a: Outcome, target: string, proxyBase: string): Option<string> {
    if a.Refused? then None else RewrittenBody(a.body, target, proxyBase)
  }

  /** What `fetch_segment` returns for an attempt: the accepted body. */
  function SegmentResult(a: Outcome): (r: Option<seq<Byte>>)
    ensures r.Some? <==> !a.Refused?
    ensures r.Some? ==> r.value == a.body
  {
    if a.Refused? then None else Some(a.body)
  }

  class StreamProxy {
    var cookies: Cookies
    var backupCookies: Cookies
    /** The clock reading of the last cookie update. */
    var updatedAt: Option<int>
    var isAuthenticated: bool
    /** The relay address set explicitly, if any. */
    var configuredBase: Option<string>
    /** The backend address the environment configures (empty when unset). */
    const backendUrl: string
    /** The directory of the live playlist, the base of relative paths. */
    const baseUrl: string

    /** The store never holds credentials it has not been given: being
        authenticated goes with a stamp and a non-empty active set, and a
        backup exists only once authenticated. */
    predicate Valid()
      reads this
    {
      && (isAuthenticated <==> updatedAt.Some?)
      && (isAuthenticated ==> |cookies| > 0)
      && (!isAuthenticated ==> cookies == map[] && backupCookies == map[])
    }

    constructor(backendUrl: string)
      ensures Valid()
      ensures cookies == map[] && backupCookies == map[] && updatedAt == None && !isAuthenticated
      ensures configuredBase == None && this.backendUrl == backendUrl
      ensures baseUrl == "https://stream.wccgames7.xyz/wccstream/streams/"
    {
      cookies := map[];
      backupCookies := map[];
      updatedAt := None;
      isAuthenticated := false;
      configuredBase := None;
      this.backendUrl := backendUrl;
      assert WccStreamUrl[46] == '/' && forall k :: 46 < k < |WccStreamUrl| ==> WccStreamUrl[k] != '/';
      baseUrl := BaseDirectory(WccStreamUrl);
    }

    /** `proxy_base_url`. */
    function ProxyBaseUrl(): string
      reads this
    {
      ProxyBase(configuredBase, backendUrl)
    }

    /** The `proxy_base_url` setter. */
    method SetProxyBaseUrl(value: string)
      requires Valid()
      modifies this
      ensures Valid()
      ensures configuredBase == Some(value)
      ensures cookies == old(cookies) && backupCookies == old(backupCookies)
      ensures updatedAt == old(updatedAt) && isAuthenticated == old(isAuthenticated)
    {
      configuredBase := Some(value);
    }

    /** `_apply_cookies`: an empty set is ignored; otherwise the new set
        becomes active, the previous active set becoming the backup when the
        store was authenticated with a non-empty set. */
    method ApplyCookies(newCookies: Cookies, now: int)
      requires Valid()
      modifies this
      ensures Valid()
      ensures |newCookies| == 0 ==>
                cookies == old(cookies) && backupCookies == old(backupCookies)
                && updatedAt == old(updatedAt) && isAuthenticated == old(isAuthenticated)
      ensures |newCookies| > 0 ==>
                cookies == newCookies && isAuthenticated && updatedAt == Some(now)
                && backupCookies == (if old(isAuthenticated) && |old(cookies)| > 0 then old(cookies) else old(backupCookies))
      ensures configuredBase == old(configuredBase)
    {
      if |newCookies| == 0 {
        return;
      }
      if isAuthenticated && |cookies| > 0 {
        backupCookies := cookies;
      }
      cookies := newCookies;
      isAuthenticated := true;
      updatedAt := Some(now);
    }

    /** `set_cookies_from_browser`: builds the map record by record and
        applies it. */
    method SetCookiesFromBrowser(records: seq<BrowserCookie>, now: int)
      requires Valid()
      modifies this
      ensures Valid()
      ensures records == [] ==>
                cookies == old(cookies) && backupCookies == old(backupCookies)
                && updatedAt == old(updatedAt) && isAuthenticated == old(isAuthenticated)
      ensures records != [] ==>
                cookies == CookieMap(records) && isAuthenticated && updatedAt == Some(now)
                && backupCookies == (if old(isAuthenticated) && |old(cookies)| > 0 then old(cookies) else old(backupCookies))
      ensures configuredBase == old(configuredBase)
    {
      var newCookies: Cookies := map[];
      for i := 0 to |records|
        invariant newCookies == CookieMap(records[..i])
      {
        assert records[..i + 1][..i] == records[..i];
        newCookies := newCookies[records[i].name := records[i].value];
      }
      assert records[..|records|] == records;
      if records != [] {
        assert records[|records| - 1].name in newCookies;
      }
      ApplyCookies(newCookies, now);
    }

    /** `restore_backup_cookies`: promotes a non-empty backup to active and
        keeps it as the backup too. */
    method RestoreBackupCookies() returns (restored: bool)
      requires Valid()
      modifies this
      ensures Valid()
      ensures restored <==> |old(backupCookies)| > 0
      ensures restored ==> cookies == old(backupCookies) && isAuthenticated
      ensures !restored ==> cookies == old(cookies) && isAuthenticated == old(isAuthenticated)
      ensures backupCookies == old(backupCookies) && updatedAt == old(updatedAt)
      ensures configuredBase == old(configuredBase)
    {
      if |backupCookies| > 0 {
        cookies := backupCookies;
        isAuthenticated := true;
        return true;
      }
      return false;
    }

    /** `cookies_age_seconds` at clock reading `now`. */
    function CookiesAgeSeconds(now: int): (age: Option<int>)
      reads this
      ensures age.Some? <==> updatedAt.Some?
      ensures age.Some? ==> updatedAt.value + age.value == now
    {
      match updatedAt
      case None => None
      case Some(t) => Some(now - t)
    }

    /** `fetch_manifest(url)`: the playlist at `url` (the live playlist when
        `url` is missing or empty), rewritten to point at the relay. The
        backup is promoted before its body is decoded. */
    method FetchManifest(url: Option<string>, origin: Origin) returns (r: Option<string>)
      requires Valid()
      modifies this
      ensures Valid()
      ensures var target := ManifestTarget(url);
              var a := Attempt(target, true, old(cookies), old(backupCookies), origin);
              && r == ManifestResult(a, target, old(ProxyBaseUrl()))
              && (a.BackupOk? ==> cookies == old(backupCookies) && isAuthenticated)
              && (!a.BackupOk? ==> cookies == old(cookies) && isAuthenticated == old(isAuthenticated))
      ensures backupCookies == old(backupCookies) && updatedAt == old(updatedAt)
      ensures configuredBase == old(configuredBase)
    {
      var target := if url.Some? && url.value != [] then url.value else WccStreamUrl;
      var response := origin(target, cookies);
      if IsOk(response) {
        r := RewrittenBody(response.body, target, ProxyBaseUrl());
      } else if IsAuthFailure(response) {
        r := None;
        if UsableBackup(backupCookies, cookies) {
          var backupResponse := origin(target, backupCookies);
          if IsOk(backupResponse) {
            var _ := RestoreBackupCookies();
            r := RewrittenBody(backupResponse.body, target, ProxyBaseUrl());
          }
        }
      } else {
        r := None;
      }
    }

    /** `fetch_segment(url, retry_with_backup)`: the body of the resource,
        byte for byte. */
    method FetchSegment(url: string, retryWithBackup: bool, origin: Origin) returns (r: Option<seq<Byte>>)
      requires Valid()
      modifies this
      ensures Valid()
      ensures var a := Attempt(url, retryWithBackup, old(cookies), old(backupCookies), origin);
              && r == SegmentResult(a)
              && (a.BackupOk? ==> cookies == old(backupCookies) && isAuthenticated)
              && (!a.BackupOk? ==> cookies == old(cookies) && isAuthenticated == old(isAuthenticated))
      ensures backupCookies == old(backupCookies) && updatedAt == old(updatedAt)
      ensures configuredBase == old(configuredBase)
    {
      var response := origin(url, cookies);
      if IsOk(response) {
        r := Some(response.body);
      } else if IsAuthFailure(response) && retryWithBackup {
        r := None;
        if UsableBackup(backupCookies, cookies) {
          var backupResponse := origin(url, backupCookies);
          if IsOk(backupResponse) {
            var _ := RestoreBackupCookies();
            r := Some(backupResponse.body);
          }
        }
      } else {
        r := None;
      }
    }

    /** The URL `proxy_request(path)` fetches: `path` itself when it starts
        with `http`, otherwise `path` joined to the playlist URL. A plain
        relative path against a plain base is appended to its directory. */
    function RequestUrl(path: string): (u: string)
      reads this
      ensures StartsWith(path, "http") ==> u == path
      ensures !StartsWith(path, "http") && PlainBase(baseUrl) && PlainRelativePath(path) ==>
                var b := SplitUrl(baseUrl, []);
                && EndsWith(u, path) && '/' in b.path
                && u == b.scheme + ":" + "//" + b.netloc + Directory(b.path) + path
    {
      if StartsWith(path, "http") then path
      else if PlainBase(baseUrl) && PlainRelativePath(path) then
        ResolvePlainRelative(baseUrl, path);
        Resolve(baseUrl, path)
      else Resolve(baseUrl, path)
    }

    /** `proxy_request(path)`: the body and content type on a 200 (the type
        defaulting to `application/octet-stream`), otherwise no body and
        `text/plain`. It sends the active cookies and changes nothing. */
    method ProxyRequest(path: string, origin: Origin) returns (content: Option<seq<Byte>>, contentType: string)
      ensures var response := origin(RequestUrl(path), cookies);
              && (IsOk(response) ==> content == Some(response.body)
                                     && contentType == (if response.contentType.Some? then response.contentType.value
                                                        else "application/octet-stream"))
              && (!IsOk(response) ==> content == None && contentType == "text/plain")
    {
      var response := origin(RequestUrl(path), cookies);
      if IsOk(response) {
        content := Some(response.body);
        contentType := if response.contentType.Some? then response.contentType.value else "application/octet-stream";
      } else {
        content := None;
        contentType := "text/plain";
      }
    }
  }

  /** A cookie refresh keeps the last working set: applying a non-empty
      set to an authenticated store and then restoring gives back the set
      that was active before. */
  method RefreshThenRestore(p: StreamProxy, newer: Cookies, now: int) returns (restored: bool)
    requires p.Valid() && p.isAuthenticated && |newer| > 0
    modifies p
    ensures p.Valid()
    ensures restored && p.cookies == old(p.cookies) && p.isAuthenticated
  {
    p.ApplyCookies(newer, now);
    restored := p.RestoreBackupCookies();
  }
}

# Sabong betting backend, relay and cookie sync — a Dafny model

This project models the core of a betting site for cockfights (sabong).
The site is built from these parts:

- **An authenticated HLS relay.** It holds the session cookies of the
  video origin, an active set and a backup set. It fetches the live
  playlist and its segments with those cookies. On a 401 or 403 it falls
  back once to the backup set. It rewrites every playlist so that each
  media URI points back at the relay as
  `<proxy base>/segment?url=<quote(absolute URL, safe="")>`.
- **A betting server.**
  - Its round state has a fight number, a betting status
    (waiting / open / last call / closed / result), the bets on the board,
    and the fight history.
  - Its handlers take bets against the user's credits and settle a fight.
    A winner is paid twice the stake. A draw or a cancellation refunds it.
  - It checks the fields of the account and cash routes.
  - It gates the stream routes until the relay holds cookies.
- **A ledger.** It holds:
  - the users and their credits;
  - the cash-in and cash-out requests, each moving from pending to
    approved or rejected; a cash-out holds the amount when it is made and
    refunds it when it is rejected;
  - the settled-bet history;
  - support tickets and their messages.
- **A stream-address capture.** The browser session watches the page's
  traffic and keeps a list of stream addresses without repeats, plus the
  playlist to embed.
- **A cookie-sync client.**
  - It reads `KEY = value` settings over built-in defaults and then from
    the environment.
  - It derives its refresh period.
  - It refuses to start on an incomplete configuration.
  - It pushes fresh cookies only when the backend's test lets them through.

Each part is modelled in the form the source gives it:

- State that the source updates in place is a class with `modifies`
  frames: the relay's `StreamProxy`, the server's `AppState`, the ledger's
  `Ledger` and the capture's `StreamCapture`.
- The state machines and loops are methods. Each is proved against
  specification functions, and the properties of those functions are
  lemmas.
- The per-line playlist rewrite and the client's decisions are functions.

Python operations the code relies on are defined with Python's meaning:

- `str.strip()` with the `isspace` character set, and `split` and `join`
  on one character;
- `split('=', 1)` and `in` on strings;
- stable `sorted(..., reverse=...)` and slice bounds, including negative
  ones;
- `int()` on text;
- the truthiness of a user id: user id `0` counts as no user;
- UTF-8 encoding and strict decoding;
- `quote(s, safe="")`;
- the `re.sub(r'URI="([^"]+)"', ...)` scan, as a left-to-right tokenizer;
- `urljoin` as CPython 3 writes it: `urlsplit`, the segment-list merge
  that drops the empty inner segments and resolves `.` and `..`, and
  `urlunsplit`, which leaves out an empty query or fragment.

Some things are parameters rather than computed:

- The origin server is a function from a URL and a cookie set to a
  response.
- The clock, the bet ids, the password hash and the random reference codes
  are passed in.

Modules, one per file:

- `Strings`, `Sorting`, `Utf8`, `Percent` and `Urls` define the Python
  operations.
- `Manifest` is the playlist rewriter.
- `Proxy` is the relay.
- `Database` is the ledger.
- `Server` is the round state and the routes.
- `Automation` is the capture.
- `CookieSync` is the client.
- `Config` holds the live playlist address.

## Model

| member | source | states |
|---|---|---|
| Strings.StripEnds | backend/stream_proxy.py:148 | the stripped text neither starts nor ends with a whitespace character |
| Strings.StripInfix | backend/stream_proxy.py:148 | the stripped text occurs in the original right after its leading whitespace |
| Strings.StripRemovesSpace | cookie-sync/sync_cookies.py:51 | every character `strip` removes, at the front or at the back, is whitespace |
| Strings.StripChars | backend/stream_proxy.py:148 | stripping adds no character: each character of the result is one of the input |
| Strings.Lower | backend/automation.py:153 | `lower()` keeps the length and folds each character on its own |
| Strings.ContainsAt | backend/automation.py:153 | `sub in s` holds exactly when `sub` occurs at some index of `s` |
| Strings.ContainsTransitive | backend/automation.py:171 | containment is transitive |
| Strings.IndexOf | cookie-sync/sync_cookies.py:53 | the first position of a character, None exactly when it does not occur |
| Strings.LastIndexOf | backend/stream_proxy.py:38 | the last position of a character, None exactly when it does not occur |
| Sorting.InsertPerm | backend/database.py:798 | inserting one element adds exactly that element to the multiset |
| Sorting.InsertWithKey | backend/database.py:798 | insertion puts the new element before the ones with its key that it was inserted ahead of; stability of one step |
| Sorting.InsertSorted | backend/database.py:1009 | inserting into an ordered list keeps it ordered |
| Sorting.SortSorted | backend/database.py:798 | `sorted` output is ordered, is a permutation of its input, and is stable: the elements of each key come in input order |
| Sorting.Filter | backend/database.py:797 | a list comprehension keeps only elements meeting the condition, keeps all of those, and adds none |
| Sorting.FilterAppend | backend/database.py:1008 | filtering distributes over concatenation, so input order is kept |
| Sorting.FilterAll | backend/server.py:973 | filtering with a condition every element meets changes nothing |
| Sorting.SortFilter | backend/database.py:1008-1009 | `sorted([x for x in s if p(x)])` has the selected elements, each once, in key order |
| Sorting.SortedSlice | backend/database.py:798 | any slice of an ordered list is ordered |
| Sorting.SliceIndex | backend/database.py:1009 | Python's slice-bound normalisation, negative bounds included |
| Utf8.EncodeChar | backend/stream_proxy.py:174 | a character is 1 to 4 bytes, one byte exactly for ASCII, then continuation bytes |
| Utf8.DecodeFirstEncodeChar | backend/stream_proxy.py:196 | the strict decoder reads back the character the encoder wrote, with its length |
| Utf8.DecodeEncode | backend/stream_proxy.py:196 | strict decoding undoes encoding |
| Utf8.EncodeAscii | backend/stream_proxy.py:196 | ASCII text encodes byte for byte |
| Percent.QuoteByte | backend/stream_proxy.py:174 | one byte becomes itself when unreserved, otherwise `%XX` |
| Percent.QuoteBytes | backend/stream_proxy.py:174 | an encoded byte string consists only of unreserved characters and `%` |
| Percent.Quote | backend/stream_proxy.py:174 | `quote(s, safe="")` output consists only of unreserved characters and `%` |
| Percent.PercentDecodeQuoteBytes | backend/stream_proxy.py:174 | percent-decoding the encoding of bytes gives those bytes back |
| Percent.UnquoteQuote | backend/stream_proxy.py:160 | the decoded parameter is exactly the original URL |
| Percent.Unquote | backend/stream_proxy.py:174 | percent-decoding, then strict UTF-8 decoding; `UnquoteQuote` states that it undoes `Quote` |
| Percent.QuoteUnreserved | backend/stream_proxy.py:174 | text made only of unreserved characters is not changed |
| Percent.QuoteInjective | backend/stream_proxy.py:174 | distinct URLs give distinct parameters |
| Strings.Split | backend/stream_proxy.py:144 | `split(c)` gives at least one piece, none holding `c` |
| Strings.Join | backend/stream_proxy.py:177 | `c.join(pieces)`; `JoinSplit` and `SplitJoin` state that it undoes `Split` and the converse |
| Strings.JoinSplit | backend/stream_proxy.py:144-177 | joining the split pieces gives back the text |
| Strings.SplitJoin | backend/stream_proxy.py:177 | splitting joined pieces free of the separator gives back the pieces |
| Urls.SplitUrl | backend/stream_proxy.py:170 | `urlsplit`: the path holds no `?` or `#`, the query no `#` |
| Urls.DropInnerEmpty | backend/stream_proxy.py:170 | `filter(None, segments[1:-1])`: the first and last segment are kept, no inner segment is empty, and no segment is added |
| Urls.RemoveDotsNormal | backend/stream_proxy.py:170 | the `.`/`..` loop leaves no dot segment, keeps only segments it was given, and keeps inner segments non-empty |
| Urls.RemoveDotsIdentity | backend/stream_proxy.py:170 | segments without `.` or `..` come out of the loop unchanged |
| Urls.MergePathNormal | backend/stream_proxy.py:170 | the merged path has no `.` or `..` segment, and for a relative reference path no empty segment between its first and last, so `//` in the base collapses |
| Urls.MergePathPlain | backend/stream_proxy.py:168-170 | a plain relative path against a plain base path is the base's directory followed by the path |
| Urls.ResolvePlainRelative | backend/stream_proxy.py:167-170 | a plain relative reference against a base with a relative scheme, an authority and a plain directory gives scheme, `//`, authority, directory and reference, so it ends with the reference |
| Urls.Directory | backend/stream_proxy.py:170 | the directory of a path is a prefix of it ending in `/` |
| Urls.Resolve | backend/stream_proxy.py:170 | `urljoin(base, ref)`: an empty side gives the other, a foreign scheme gives `ref`, a network path is kept, and a path is merged; `MergePathNormal` and `ResolvePlainRelative` state what it guarantees |
| Urls.BaseDirectory | backend/stream_proxy.py:38 | `rsplit('/', 1)[0] + '/'` ends in `/` and is a prefix of a URL holding `/` |
| Manifest.ReplaceUris | backend/stream_proxy.py:155-163 | `re.sub` as the rendering of the tokenizer's pieces; `RawTokenize`, `TokenizeValues` and `ReplaceUrisNoNewline` state what it keeps |
| Manifest.RewriteLine | backend/stream_proxy.py:147-175 | the rewrite of one line; `RewriteLinePassThrough`, `RewriteLineTag`, `RewriteLineReference` and `RewriteLineNoNewline` state its three cases |
| Manifest.Rewrite | backend/stream_proxy.py:139-177 | split at newlines, each line rewritten, joined again; `RewriteLineStructure` states it |
| Manifest.ProxyRefRoundTrip | backend/stream_proxy.py:174 | a relay reference carries its URL exactly, in unreserved characters and `%` escapes only |
| Manifest.Absolutize | backend/stream_proxy.py:167-170 | an entry starting with `http` is kept; any other is joined to the playlist URL |
| Manifest.UriMatch | backend/stream_proxy.py:163 | a match of `URI="([^"]+)"` at the front: a non-empty value free of `"`, then the closing quote |
| Manifest.RawTokenize | backend/stream_proxy.py:163 | the scan loses nothing: pieces spell the line again, so the text outside matches is kept |
| Manifest.TokenizeValues | backend/stream_proxy.py:163 | every captured value is non-empty and free of `"` |
| Manifest.ReplaceUrisNoNewline | backend/stream_proxy.py:155-163 | replacing the attributes in a line adds no newline |
| Manifest.ProxyRefNoNewline | backend/stream_proxy.py:174 | a relay reference holds no newline |
| Manifest.RewriteLines | backend/stream_proxy.py:147-175 | one output line per input line, line `k` rewritten from line `k` |
| Manifest.RewriteOne | backend/stream_proxy.py:148-175 | the loop body produces the rewrite of its line |
| Manifest.RewriteManifestUrls | backend/stream_proxy.py:139-177 | the loop's result is the rewritten playlist |
| Manifest.RewriteLineStructure | backend/stream_proxy.py:144-177 | the output has exactly the input's lines, in order, each rewritten on its own |
| Manifest.RewriteLineNoNewline | backend/stream_proxy.py:147-175 | a rewritten line holds no newline |
| Manifest.RewriteLinePassThrough | backend/stream_proxy.py:151-164 | blank lines and `#` lines without `URI="` come out as the stripped line |
| Manifest.RewriteLineReference | backend/stream_proxy.py:166-175 | a URI line becomes `<base>/segment?url=` plus the encoded absolute URL, which decodes back to that URL |
| Manifest.RewriteLineTag | backend/stream_proxy.py:151-164 | a tag line with `URI="` has each value replaced by its relay reference and all other text unchanged |
| Proxy.CookieMap | backend/stream_proxy.py:87-92 | the dict built record by record; `CookieMapLastWins` states it |
| Proxy.RewrittenBody | backend/stream_proxy.py:196-199 | a body that is not strict UTF-8 gives nothing, any other is rewritten against the requested playlist; `FetchManifest` relies on it |
| Proxy.ManifestResult | backend/stream_proxy.py:179-225 | a refused attempt gives nothing, an accepted one its rewritten body; `FetchManifest` states it |
| Proxy.CookieMapLastWins | backend/stream_proxy.py:87-92 | the map built from browser records has exactly the record names as keys, and a later record with the same name overrides an earlier one |
| Proxy.ProxyBase | backend/stream_proxy.py:46-60 | an explicit non-empty setting wins; otherwise `http...`/`https://` backend + `/stream`, or the local address |
| Proxy.Attempt | backend/stream_proxy.py:202-225 | the backup is tried only after a 401/403, only when non-empty and different, and it is tried whenever it can help; any other failure is refused |
| Proxy.ManifestTarget | backend/stream_proxy.py:186 | `url or WCC_STREAM_URL` |
| Proxy.SegmentResult | backend/stream_proxy.py:242-256 | an accepted body is returned byte for byte, a refused fetch gives None |
| Proxy.StreamProxy.constructor | backend/stream_proxy.py:27-44 | no cookies, no stamp, not authenticated, and the playlist directory as the base |
| Proxy.StreamProxy.SetProxyBaseUrl | backend/stream_proxy.py:62-64 | only the explicit setting changes |
| Proxy.StreamProxy.ApplyCookies | backend/stream_proxy.py:102-121 | an empty set changes nothing; otherwise the new set becomes active, authenticated and stamped, and the old set becomes the backup when authenticated and non-empty |
| Proxy.StreamProxy.SetCookiesFromBrowser | backend/stream_proxy.py:87-92 | the map of the records, last record winning, is applied |
| Proxy.StreamProxy.RestoreBackupCookies | backend/stream_proxy.py:123-130 | true exactly when the backup is non-empty; then active := backup and authenticated; the backup is kept |
| Proxy.StreamProxy.CookiesAgeSeconds | backend/stream_proxy.py:132-137 | None exactly when never stamped, else the time since the stamp |
| Proxy.StreamProxy.FetchManifest | backend/stream_proxy.py:179-225 | the rewritten body of the first or backup attempt; the backup is promoted exactly when it is used |
| Proxy.StreamProxy.FetchSegment | backend/stream_proxy.py:227-262 | the body of the attempt, retrying only when allowed; the backup is promoted exactly when it is used |
| Proxy.StreamProxy.RequestUrl | backend/stream_proxy.py:271-275 | a path starting with `http` is used as it is; a plain relative path against a plain base URL is the base's scheme, authority and directory followed by the path |
| Proxy.StreamProxy.ProxyRequest | backend/stream_proxy.py:264-293 | on a 200 the body and content type, defaulting to octet-stream; otherwise no body and `text/plain` |
| Proxy.RefreshThenRestore | backend/stream_proxy.py:112-130 | after a refresh, restoring gives back the set that was active before |
| Server.SettleBet | backend/server.py:985-1061 | one bet's share of the settlement: its credit, reported as a payout when the account exists, then its history record; `SettleCredits`, `SettleRecords` and `SettlePayouts` state what it does |
| Server.Settle | backend/server.py:985-1061 | the bets settled in board order; the same lemmas state it |
| Server.AcceptsBets | backend/server.py:914 | bets are taken unless the status is closed or result |
| Server.RegistrationAccepted | backend/server.py:269-272 | a name of at least 3 and a password of at least 4 characters; `RegisterUser` states the route |
| Server.CashAmountAccepted | backend/server.py:366-369 | an amount from 100 to 50000; `CreateCashinRoute` states the route |
| Server.CashOutFieldsAccepted | backend/server.py:430-437 | that amount, a GCash number of at least 10 and a name of at least 2 characters; `CreateCashoutRoute` states the route |
| Server.CreditFor | backend/server.py:985-1061 | the credit a bet earns: twice the stake on the winning side, the stake on a refund, none otherwise or without a user |
| Server.RecordFor | backend/server.py:1004-1061 | a history record for every linked bet when the winner is known: win/lose with 2× or 0, or the refund with the stake |
| Server.SettleCredits | backend/server.py:985-1061 | settling keeps the accounts and adds to each user exactly what they are owed |
| Server.OwedOnSideWin | backend/server.py:987-994 | on `meron`/`wala` a user is owed twice their stake on the winning side |
| Server.OwedOnRefund | backend/server.py:1015-1061 | on `draw`/`cancelled` a user is owed back all they staked |
| Server.SettleOtherWinner | backend/server.py:985-1061 | any other winner value moves no credit and saves no record |
| Server.SettleRecords | backend/server.py:1004-1061 | one record per linked bet, appended, numbered on, with the result and payout the winner calls for |
| Server.SettlePayouts | backend/server.py:995-1050 | the payouts reported are wins of twice the stake, or refunds |
| Server.StakeSumAppend | backend/server.py:258-259 | the sum of stakes distributes over concatenation |
| Server.SideTotalAppend | backend/server.py:258-259 | a new bet raises only its own side's total and count |
| Server.AcceptedNumberOverflowsColumn | backend/server.py:434 | a 21-digit GCash number passes the route's checks but no cash-out row can hold it |
| Server.OverlongNumberLosesCredits | backend/database.py:627-646 | with the ledger as written, the route answers 400 to that accepted request and the balance is 100 lower |
| Server.AppState.constructor | backend/server.py:34-44 | fight 1, waiting, no bets, no history |
| Server.AppState.OpenBetting | backend/server.py:871-881 | status becomes open, nothing else changes |
| Server.AppState.LastCall | backend/server.py:884-895 | status becomes last call, nothing else changes |
| Server.AppState.CloseBetting | backend/server.py:898-908 | status becomes closed, nothing else changes |
| Server.AppState.AddBet | backend/server.py:911-967 | 400 when closed or the amount is out of 1..100000; for a linked user, 404 when unknown and 400 over credits, else the credits drop by the amount; the accepted bet is appended; rejections change nothing |
| Server.AppState.AddSocketBet | backend/server.py:1163-1173 | the socket bet is appended without checks unless the status is closed or result, dropped otherwise |
| Server.AppState.RemoveBet | backend/server.py:970-975 | the board without the bets of that id |
| Server.AppState.Summary | backend/server.py:1116-1125 | the bets as they are, with per-side totals and counts |
| Server.AppState.DeclareWinner | backend/server.py:978-1085 | the ledger ends as settling the board says, one history entry is put first, and the status is result |
| Server.AppState.ResetFight | backend/server.py:1088-1093 | next fight, waiting, empty board |
| Server.SettleInLedger | backend/server.py:986-1061 | one pass of the settlement loops does exactly one settlement step on the ledger |
| Server.RemoveBetExact | backend/server.py:1176 | removal takes out exactly the bets with the id, keeps the others in order, and leaves a board without the id unchanged |
| Server.BetThenWin | backend/server.py:927-994 | a bet on the side that then wins leaves its user up by the stake |
| Server.RegisterUser | backend/server.py:266-286 | 400 for a short name or password, or a taken name; otherwise the new account |
| Server.CreateCashinRoute | backend/server.py:363-373 | 400 outside 100..50000, 500 when the ledger refuses, else the pending request |
| Server.CreateCashoutRoute | backend/server.py:427-449 | the route over the corrected ledger: it succeeds exactly when the fields pass, the user exists, the balance covers the amount and the row fits; any failure is 400 and changes nothing |
| Server.CreateCashoutRouteAsWritten | backend/server.py:427-449 | the route over the ledger as written: bad fields, an unknown user or a short balance are 400 with nothing changed; a row that does not fit is 400 with the amount taken and nothing else changed; otherwise the pending request under the next id with the amount held |
| Server.Served | backend/server.py:739-740 | no content is 502 |
| Server.GetStreamManifest | backend/server.py:728-749 | 401 until authenticated; otherwise the live playlist fetch, 502 when it fails |
| Server.ProxyStreamUrl | backend/server.py:752-773 | 401 until authenticated; otherwise the relay request, 502 without a body |
| Server.ProxySegmentByUrl | backend/server.py:776-815 | 401 until authenticated; `.m3u8` URLs go to the playlist fetch, everything else to the segment fetch |
| Server.ProxySegmentByPath | backend/server.py:818-840 | 401 until authenticated; otherwise the segment at `base_url + path` |
| Database.FirstMatch | backend/database.py:964-966 | the index of the first element meeting the condition, None when none does |
| Database.TouchTicket | backend/database.py:1050-1053 | the first ticket with the id gets the new stamp; the ids and length are kept |
| Database.UserBetHistory | backend/database.py:796-798 | the user's records, newest first, cut to `limit`; the three lemmas below state it |
| Database.UserBetHistoryOrdered | backend/database.py:796-798 | the user's records only, newest first |
| Database.UserBetHistoryCount | backend/database.py:796-798 | min(limit, number of the user's records) of them, and all of them when the limit covers the history |
| Database.TicketMessages | backend/database.py:1007-1009 | the ticket's messages, oldest first, the last `limit` of them; the three lemmas below state it |
| Database.TicketMessagesOfTicket | backend/database.py:1007-1009 | only messages of the ticket |
| Database.TicketMessagesOrdered | backend/database.py:1007-1009 | oldest first |
| Database.TicketMessagesCount | backend/database.py:1007-1009 | the last `limit` messages for a positive limit, all of them for limit 0 |
| Database.Ledger.InitLocal | backend/database.py:40-51 | the admin as user 1 with 999999 credits, admin role, and the counter at 1 |
| Database.Ledger.CreateUser | backend/database.py:158-174 | a taken name gives None and changes nothing; otherwise id counter+1, 1000 credits, role `user`; the hash is not returned |
| Database.Ledger.GetUserById | backend/database.py:241-251 | the user's public fields, None for an unknown id |
| Database.Ledger.UpdateCredits | backend/database.py:273-278 | old balance + amount, returned; unknown id gives None and changes nothing |
| Database.Ledger.SetCredits | backend/database.py:301-306 | the balance set and returned; unknown id gives None and changes nothing |
| Database.Ledger.CreateCashinRequest | backend/database.py:466-485 | a pending request under the next id; None for an unknown user or a used reference code |
| Database.Ledger.ApproveCashinRequest | backend/database.py:525-567 | only a pending request: it becomes approved and the amount is credited |
| Database.Ledger.RejectCashinRequest | backend/database.py:570-584 | a pending request becomes rejected; true in every case |
| Database.Ledger.CreateCashoutRequestAsWritten | backend/database.py:626-657 | an unknown user or a short balance gives None and changes nothing; a row that does not fit gives None after the deduction, nothing else changed; otherwise the pending request under the next id with the amount held, as in the corrected one |
| Database.Ledger.CreateCashoutRequest | backend/database.py:616-660 | refused exactly for an unknown user, a short balance or a row that does not fit, and then nothing changes; otherwise the amount is held and the pending request created |
| Database.Ledger.ApproveCashoutRequest | backend/database.py:700-730 | only a pending request: it becomes approved, no balance changes |
| Database.Ledger.RejectCashoutRequest | backend/database.py:870-911 | only a pending request: it becomes rejected and the held amount is refunded |
| Database.Ledger.SaveBetToHistory | backend/database.py:766-778 | the record is appended under id length+1 |
| Database.Ledger.GetOrCreateTicket | backend/database.py:962-977 | the user's first open ticket, or a new open ticket with id counter+1 appended |
| Database.Ledger.AddSupportMessage | backend/database.py:1031-1055 | the message under the next id, signed with the user name or `Unknown`, and the ticket stamped |
| Database.Ledger.CloseTicket | backend/database.py:1125-1131 | the first ticket with the id is closed and true; false and no change when there is none |
| Database.Ledger.GetUserBetHistory | backend/database.py:792-811 | `UserBetHistory` of the ledger's history |
| Database.Ledger.GetTicketMessages | backend/database.py:1003-1024 | `TicketMessages` of the ledger's messages |
| Database.CashoutRejectRestores | backend/database.py:884-888 | a cash-out made and then rejected leaves the balance as it was |
| Database.CashinApprovedOnce | backend/database.py:532-538 | a second approval of the same request is refused and credits nothing |
| Automation.PlaylistTypeIsMpegurl | backend/automation.py:171 | the second content-type test adds nothing to the first |
| Automation.MentionsStream | backend/automation.py:153 | an address mentioning `stream` in lower case is recorded |
| Automation.StreamCapture.constructor | backend/automation.py:36-37 | the known live playlist, captured and chosen |
| Automation.StreamCapture.OnRequest | backend/automation.py:148-163 | only a new stream-like address is appended, and it is chosen only when it names `.m3u8`; the list stays without repeats |
| Automation.StreamCapture.OnResponse | backend/automation.py:165-175 | only a new address with a playlist content type is appended and chosen |
| Automation.StreamCapture.StreamUrl | backend/automation.py:405-407 | under the capture hooks the chosen playlist is always one of the captured addresses |
| CookieSync.Defaults | cookie-sync/sync_cookies.py:38-43 | the placeholder backend, empty user name and password, 4 hours |
| CookieSync.LineEntry | cookie-sync/sync_cookies.py:51-54 | the setting a line makes; `LineEntrySplit` and `LineEntryOfAssignment` state it |
| CookieSync.LineEntrySplit | cookie-sync/sync_cookies.py:51-54 | blank, `#` and `=`-less lines set nothing; others split at the first `=` with both sides stripped |
| CookieSync.Entries | cookie-sync/sync_cookies.py:50-54 | one entry per line, in order |
| CookieSync.AssignLastWins | cookie-sync/sync_cookies.py:50-54 | keys no line names keep their value, and each named key takes the last line's value |
| CookieSync.WithEnvironment | cookie-sync/sync_cookies.py:60-62 | the environment overrides the three keys and nothing else |
| CookieSync.ParseLine | cookie-sync/sync_cookies.py:51-54 | one pass of the loop makes that line's entry |
| CookieSync.ReadFile | cookie-sync/sync_cookies.py:49-54 | the loop's settings are the defaults with the file's entries applied in order |
| CookieSync.LoadConfig | cookie-sync/sync_cookies.py:36-64 | defaults, then the file if there is one, then the environment |
| CookieSync.ParseInt | cookie-sync/sync_cookies.py:78 | `int()` on text: whitespace around an optional sign and decimal digits; `ParseShowInt` states that it reads back a written number |
| CookieSync.ParseShowInt | cookie-sync/sync_cookies.py:78 | `int()` reads back a written integer |
| CookieSync.RefreshInterval | cookie-sync/sync_cookies.py:78 | hours × 3600, 4 hours when missing, no value where `int()` raises |
| CookieSync.LineEntryOfAssignment | cookie-sync/sync_cookies.py:53-54 | a clean `KEY=value` line sets the key to the value |
| CookieSync.AssignLast | cookie-sync/sync_cookies.py:54 | the last line on a key decides it |
| CookieSync.RefreshDefault | cookie-sync/sync_cookies.py:42-78 | with no file and no environment, 14400 seconds |
| CookieSync.RefreshFromFile | cookie-sync/sync_cookies.py:54-78 | a last file line naming the hours sets the period |
| CookieSync.CookiesPass | cookie-sync/sync_cookies.py:192-208 | the test fails only for a 200 answer without `success` |
| CookieSync.PushCookies | cookie-sync/sync_cookies.py:211-247 | unless forced a failed test stops the push; a push succeeds exactly on a 200 |
| CookieSync.ConfigErrors | cookie-sync/sync_cookies.py:307-313 | no error exactly when user name and password are set and the backend is not a placeholder and starts with `http` |
| CookieSync.PlaceholderIsMarked | cookie-sync/sync_cookies.py:39 | the shipped backend address carries the placeholder mark |
| CookieSync.DefaultsAreIncomplete | cookie-sync/sync_cookies.py:38-43 | the shipped settings stop the client with all three errors |
| CookieSync.SyncRound | cookie-sync/sync_cookies.py:340-342 | only a non-empty cookie set that passes the test is pushed |

## Left out

- Networking (the httpx client, timeouts, redirects, TLS) is not modelled. The origin and the backend are parameters; a raised exception is the `Failure` or `NoAnswer` answer.
- Concurrency is not modelled: the relay's `asyncio.Lock`, background tasks, sleeps and the client's retry loop. Operations are atomic and sequential.
- Browser automation through Playwright is not modelled, except the capture hooks, because it is foreign calls against a live page. The `on_stream_found` callback is not modelled.
- The WebSocket fan-out (`ConnectionManager`, `broadcast`, `broadcast_state`) is not modelled; only the socket's bet messages are.
- SQL, the connection pool and schema creation are not modelled. The tables are maps and sequences with the rules the statements state: a serial id, a foreign key to the user, column widths, and a unique reference code.
- SERIAL ids skipped by a failed insert are not modelled.
- 32-bit `INTEGER` overflow of credits and amounts is not modelled: integers are unbounded.
- The cash-in and cash-out tables have no in-memory branch in the source. They follow the SQL rules, and `approve_cashin_request` is modelled without its separate balance read.
- The failure of these operations when the database raises is not modelled: `save_bet_to_history`, `update_credits` and `set_credits`.
- The reference codes of cash requests are random in the source and a parameter here.
- bcrypt hashing is a parameter: the model takes the hash of the password.
- The clock, `datetime` stamps, bet ids and `total_seconds` are integers given by the caller.
- Urls.Resolve: promises that the result ends with the reference only for a plain relative reference (`ResolvePlainRelative`). In general `urljoin` drops empty inner segments, resolves `.` and `..` and leaves out an empty `?` or `#`, so the result need not end with the reference.
- Urls.SplitUrl: does not model `urlsplit`'s removal of surrounding control characters and spaces and of tabs and newlines, its checks on bracketed IPv6 hosts, or bytes arguments.
- Urls.ResolveParts: `;` parameters stay part of the path. CPython sets the last segment's parameters apart before the merge, so a last segment such as `..;p` is not resolved as `..` here.
- Urls.UsesRelative and Urls.UsesNetloc are the lists of CPython 3.x; other versions list other schemes.
- Proxy.StreamProxy.RequestUrl: the URL is stated only for a plain relative path against a plain base; otherwise it is `urljoin`'s result with no simpler form.
- Strings.Lower: ASCII only, because case folding beyond ASCII cannot turn a character into one of `stream`'s letters.
- Percent.Unquote is the strict UTF-8 decoder. urllib's `unquote` replaces bad sequences instead; only well-formed parameters are ever read back here.
- CookieSync.RefreshInterval: `int()` is modelled for an optional sign and ASCII digits, without underscores or non-ASCII digits.
- CookieSync.ReadFile: the file is given as its list of lines.
- Database.TicketMessages follows the in-memory branch, which keeps the last `limit` messages (`[-limit:]`, all of them for 0). The SQL branch's `LIMIT` keeps the first ones and joins the sender's name; that is not modelled.
- Automation.StreamCapture.StreamUrl: `enter_wcc_arena` (backend/automation.py:323), `find_stream_url_from_page` (backend/automation.py:475) and the server's reset (backend/server.py:679) also set the chosen playlist. They are not modelled, and after the page search the chosen address need not be a captured one.
- The last-call countdown, the stream delay and the settings routes are not modelled.
- `set_cookies_dict` and `set_cookies_from_string` only call `_apply_cookies`, which is modelled.
- The relay's cookie map is kept by reference in the source when it is applied. The model copies values, so later mutation through the caller's dict is not modelled.
- Proxy.StreamProxy.CookiesAgeSeconds: an integer difference on an integer clock, not the float `total_seconds` truncated by `int`.
- Server.AppState.AddBet: the 500 answer after a failed credit update cannot happen in the model, because the ledger updates any user it just found.
- The headers, media types and JSON shapes of the responses are not modelled.
- The state passed to the methods is assumed to meet its class's `Valid()` invariant. Each constructor establishes it and each method preserves it.
- `backend/config.py` contributes only the live playlist address. The backend address is a constructor parameter of the relay.

## Findings

| source | as written | input that shows it | evidently intended | confidence | as-written member | corrected member |
|---|---|---|---|---|---|---|
| backend/database.py:632-646 | the balance is deducted by a committed UPDATE before the INSERT of the request, outside a transaction; an INSERT that fails (GCash number over VARCHAR(20), name over VARCHAR(100), duplicate reference code) returns None after the credits are gone, and the route answers 400 | a user with at least 100 credits asks to cash out 100 to GCash number `012345678901234567890` (21 characters, accepted by the `len >= 10` check at backend/server.py:434) | the hold on the balance and the request row stand or fall together, so a refused request leaves the balance as it was | not executed | Database.Ledger.CreateCashoutRequestAsWritten, Server.CreateCashoutRouteAsWritten, Server.OverlongNumberLosesCredits | Database.Ledger.CreateCashoutRequest, Server.CreateCashoutRoute |

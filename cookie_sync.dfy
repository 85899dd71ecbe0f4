/** The cookie-sync client run beside the browser: its settings, read from
    a `KEY = value` file over built-in defaults and then from the
    environment; its refresh period; and the decisions that gate a push of
    fresh cookies to the backend. The backend's answers are parameters. */
module CookieSync {

  import opened Strings

  /** A setting: file and environment values are text; the built-in
      refresh period is a number. */
  datatype Value = Text(text: string) | Number(n: int)

  type Settings = map<string, Value>

  const BackendKey := "RAILWAY_BACKEND"
  const UsernameKey := "WCC_USERNAME"
  const PasswordKey := "WCC_PASSWORD"
  const RefreshKey := "REFRESH_HOURS"

  /** The mark the client looks for to tell that the backend address was
      never filled in. */
  const PlaceholderMark := "YOUR-"
  const PlaceholderBackend := "https://" + PlaceholderMark + "APP.up.railway.app"

  /** The settings before the file is read. */
  function Defaults(): (d: Settings)
    ensures d.Keys == {BackendKey, UsernameKey, PasswordKey, RefreshKey}
    ensures d[BackendKey] == Text(PlaceholderBackend) && d[RefreshKey] == Number(4)
    ensures d[UsernameKey] == Text("") && d[PasswordKey] == Text("")
  {
    map[BackendKey := Text(PlaceholderBackend), UsernameKey := Text(""), PasswordKey := Text(""),
        RefreshKey := Number(4)]
  }

  /** The setting a file line makes, if any; `LineEntrySplit` states its
      meaning. */
  function LineEntry(line: string): Option<(string, string)> {
    var l := Strip(line);
    if l == [] || StartsWith(l, "#") then None
    else
      match IndexOf(l, '=')
      case None => None
      case Some(i) => Some((Strip(l[..i]), Strip(l[i + 1..])))
  }

  /** Blank lines, comments and lines without `=` make no setting;
      otherwise the stripped line splits at its FIRST `=`, so the value
      may hold further `=`, and key and value are both stripped. */
  lemma LineEntrySplit(line: string)
    ensures var l := Strip(line);
            LineEntry(line).None? <==> l == [] || StartsWith(l, "#") || '=' !in l
    ensures LineEntry(line).Some? ==> var l := Strip(line);
              exists i :: 0 <= i < |l| && l[i] == '=' && '=' !in l[..i]
                          && LineEntry(line).value == (Strip(l[..i]), Strip(l[i + 1..]))
  {
    var l := Strip(line);
    if l != [] && !StartsWith(l, "#") && '=' in l {
      var i := IndexOf(l, '=').value;
      assert '=' !in l[..i];
    }
  }

  /** The setting each line makes. */
  function Entries(lines: seq<string>): (es: seq<Option<(string, string)>>)
    ensures |es| == |lines|
    ensures forall i :: 0 <= i < |lines| ==> es[i] == LineEntry(lines[i])
  {
    seq(|lines|, i requires 0 <= i < |lines| => LineEntry(lines[i]))
  }

  /** The settings after the given line settings, made in order. */
  function Assign(s: Settings, es: seq<Option<(string, string)>>): Settings
    decreases |es|
  {
    if es == [] then s
    else
      var before := Assign(s, es[..|es| - 1]);
      match es[|es| - 1]
      case None => before
      case Some(kv) => before[kv.0 := Text(kv.1)]
  }

  /** `load_config` applied to the lines of a file. */
  function ReadLines(s: Settings, lines: seq<string>): Settings {
    Assign(s, Entries(lines))
  }

  /** Line setting `i` names `key` and no later one does: it decides the value. */
  predicate LastSetter(es: seq<Option<(string, string)>>, key: string, i: int) {
    0 <= i < |es| && es[i].Some? && es[i].value.0 == key
    && forall j :: i < j < |es| ==> es[j].None? || es[j].value.0 != key
  }

  predicate SetBySome(es: seq<Option<(string, string)>>, key: string) {
    exists i :: 0 <= i < |es| && es[i].Some? && es[i].value.0 == key
  }

  /** Reading a file keeps every setting no line names, adds exactly the
      keys the lines name, and gives each the value of the last line that
      names it. */
  lemma {:induction false} AssignLastWins(s: Settings, es: seq<Option<(string, string)>>)
    ensures forall key :: key in Assign(s, es) <==> key in s || SetBySome(es, key)
    ensures forall key :: key in s && !SetBySome(es, key) ==> Assign(s, es)[key] == s[key]
    ensures forall key, i :: LastSetter(es, key, i) ==>
              key in Assign(s, es) && Assign(s, es)[key] == Text(es[i].value.1)
  {
    if es != [] {
      var n := |es| - 1;
      var init := es[..n];
      AssignLastWins(s, init);
      forall key ensures SetBySome(es, key) <==> (SetBySome(init, key) || (es[n].Some? && es[n].value.0 == key)) {
        if SetBySome(init, key) {
          var i :| 0 <= i < |init| && init[i].Some? && init[i].value.0 == key;
          assert es[i] == init[i];
        }
        if SetBySome(es, key) {
          var i :| 0 <= i < |es| && es[i].Some? && es[i].value.0 == key;
          if i < n {
            assert init[i] == es[i];
          }
        }
      }
      forall key, i | LastSetter(es, key, i)
        ensures key in Assign(s, es) && Assign(s, es)[key] == Text(es[i].value.1)
      {
        if i < n {
          assert init[i] == es[i];
          assert forall j :: i < j < |init| ==> init[j] == es[j];
          assert LastSetter(init, key, i);
        }
      }
    }
  }

  predicate IsEnvironmentKey(k: string) {
    k == BackendKey || k == UsernameKey || k == PasswordKey
  }

  /** The environment overrides the backend, the user name and the
      password, and nothing else. */
  function WithEnvironment(s: Settings, env: map<string, string>): (r: Settings)
    ensures forall k :: k in r <==> k in s || (IsEnvironmentKey(k) && k in env)
    ensures forall k :: IsEnvironmentKey(k) && k in env ==> r[k] == Text(env[k])
    ensures forall k :: k in s && !(IsEnvironmentKey(k) && k in env) ==> r[k] == s[k]
  {
    var r1 := if BackendKey in env then s[BackendKey := Text(env[BackendKey])] else s;
    var r2 := if UsernameKey in env then r1[UsernameKey := Text(env[UsernameKey])] else r1;
    if PasswordKey in env then r2[PasswordKey := Text(env[PasswordKey])] else r2
  }

  /** One pass of `load_config`'s loop: the setting a line makes. It is
      `LineEntry` again, statement by statement: the method is what the loop
      runs, the function is what the lemmas reason about. */
  method ParseLine(raw: string) returns (e: Option<(string, string)>)
    ensures e == LineEntry(raw)
  {
    var line := Strip(raw);
    if line != [] && !StartsWith(line, "#") && '=' in line {
      // `line.split('=', 1)`: around the first `=`
      var i := IndexOf(line, '=').value;
      var key, value := line[..i], line[i + 1..];
      e := Some((Strip(key), Strip(value)));
    } else {
      e := None;
    }
  }

  /** One more line setting applies on top of the earlier ones. */
  lemma AssignSnoc(s: Settings, es: seq<Option<(string, string)>>, n: nat)
    requires n < |es|
    ensures Assign(s, es[..n + 1]) == (match es[n]
                                       case None => Assign(s, es[..n])
                                       case Some(kv) => Assign(s, es[..n])[kv.0 := Text(kv.1)])
  {
    assert es[..n + 1][..n] == es[..n];
  }

  /** `load_config`'s loop over the lines of the file. */
  method ReadFile(lines: seq<string>) returns (config: Settings)
    ensures config == ReadLines(Defaults(), lines)
  {
    var d := Defaults();
    config := d;
    ghost var es := Entries(lines);
    for n := 0 to |lines|
      invariant config == Assign(d, es[..n])
    {
      var e := ParseLine(lines[n]);
      AssignSnoc(d, es, n);
      if e.Some? {
        config := config[e.value.0 := Text(e.value.1)];
      }
    }
    assert es[..|lines|] == es;
  }

  /** `load_config`: the defaults, the file's lines when there is a file,
      then the environment. */
  method LoadConfig(file: Option<seq<string>>, env: map<string, string>) returns (config: Settings)
    ensures config == WithEnvironment(if file.Some? then ReadLines(Defaults(), file.value) else Defaults(), env)
  {
    config := Defaults();
    if file.Some? {
      config := ReadFile(file.value);
    }
    if BackendKey in env {
      config := config[BackendKey := Text(env[BackendKey])];
    }
    if UsernameKey in env {
      config := config[UsernameKey := Text(env[UsernameKey])];
    }
    if PasswordKey in env {
      config := config[PasswordKey := Text(env[PasswordKey])];
    }
  }

  // ---------------------------------------------------------------------
  // Integers
  // ---------------------------------------------------------------------

  predicate IsDigit(c: char) {
    '0' <= c <= '9'
  }

  function DigitValue(c: char): nat
    requires IsDigit(c)
  {
    c as int - '0' as int
  }

  predicate AllDigits(s: string) {
    forall k :: 0 <= k < |s| ==> IsDigit(s[k])
  }

  /** The value of a run of decimal digits. */
  function DigitsValue(s: string): nat
    requires AllDigits(s)
    decreases |s|
  {
    if s == [] then 0
    else
      assert AllDigits(s[..|s| - 1]) && IsDigit(s[|s| - 1]);
      10 * DigitsValue(s[..|s| - 1]) + DigitValue(s[|s| - 1])
  }

  /** An optional sign, then one or more decimal digits. */
  function ParseSigned(t: string): Option<int> {
    var body := if StartsWith(t, "-") || StartsWith(t, "+") then t[1..] else t;
    if body != [] && AllDigits(body) then
      var v: int := DigitsValue(body);
      Some(if StartsWith(t, "-") then -v else v)
    else None
  }

  /** Python's `int(s)` on text: surrounding whitespace, an optional sign,
      then one or more decimal digits; None where it raises. */
  function ParseInt(s: string): Option<int> {
    ParseSigned(Strip(s))
  }

  /** Decimal digits of a natural number, most significant first. */
  function ShowNat(n: nat): (s: string)
    ensures s != [] && AllDigits(s)
  {
    if n < 10 then [('0' as int + n) as char]
    else ShowNat(n / 10) + [('0' as int + n % 10) as char]
  }

  function ShowInt(n: int): (s: string)
    ensures s != [] && IsDigit(s[|s| - 1]) && (IsDigit(s[0]) || s[0] == '-')
  {
    if n < 0 then "-" + ShowNat(-n) else ShowNat(n)
  }

  lemma {:induction false} DigitsValueShowNat(n: nat)
    ensures DigitsValue(ShowNat(n)) == n
  {
    if n >= 10 {
      DigitsValueShowNat(n / 10);
      var s := ShowNat(n);
      assert s[..|s| - 1] == ShowNat(n / 10);
    }
  }

  /** A text that neither starts nor ends with whitespace is its own
      stripped form. */
  lemma StripNoSpace(s: string)
    requires s != [] && !IsSpace(s[0]) && !IsSpace(s[|s| - 1])
    ensures Strip(s) == s
  {
    assert StripLeft(s) == s;
    assert StripRight(s) == s;
  }

  lemma ParseSignedShowInt(n: int)
    ensures ParseSigned(ShowInt(n)) == Some(n)
  {
    var s := ShowInt(n);
    if n < 0 {
      var d := ShowNat(-n);
      DigitsValueShowNat(-n);
      assert s == "-" + d;
      assert StartsWith(s, "-");
      assert s[1..] == d;
    } else {
      DigitsValueShowNat(n);
      assert !StartsWith(s, "-") && !StartsWith(s, "+") by {
        assert IsDigit(s[0]);
      }
    }
  }

  /** Reading back a written number gives the number. */
  lemma ParseShowInt(n: int)
    ensures ParseInt(ShowInt(n)) == Some(n)
  {
    var s := ShowInt(n);
    StripNoSpace(s);
    ParseSignedShowInt(n);
  }

  /** `REFRESH_INTERVAL`: the refresh period in seconds, `REFRESH_HOURS`
      hours (4 when the setting is missing); None where `int` raises. */
  function RefreshInterval(config: Settings): (r: Option<int>)
    ensures RefreshKey !in config ==> r == Some(4 * 3600)
    ensures RefreshKey in config && config[RefreshKey].Number? ==> r == Some(config[RefreshKey].n * 3600)
    ensures RefreshKey in config && config[RefreshKey].Text? ==>
              (r.Some? <==> ParseInt(config[RefreshKey].text).Some?)
              && (r.Some? ==> r.value == ParseInt(config[RefreshKey].text).value * 3600)
  {
    if RefreshKey !in config then Some(4 * 60 * 60)
    else match config[RefreshKey]
      case Number(h) => Some(h * 60 * 60)
      case Text(t) =>
        match ParseInt(t)
        case None => None
        case Some(h) => Some(h * 60 * 60)
  }

  /** A line `KEY=value` whose key and value need no stripping sets the
      key to the value. */
  lemma LineEntryOfAssignment(key: string, value: string)
    requires key != [] && value != [] && '=' !in key && key[0] != '#'
    requires !IsSpace(key[0]) && !IsSpace(key[|key| - 1]) && !IsSpace(value[0]) && !IsSpace(value[|value| - 1])
    ensures LineEntry(key + "=" + value) == Some((key, value))
  {
    var line := key + "=" + value;
    assert line[0] == key[0] && line[|line| - 1] == value[|value| - 1];
    StripNoSpace(line);
    assert !StartsWith(line, "#");
    var i := |key|;
    assert line[i] == '=';
    assert IndexOf(line, '=') == Some(i) by {
      assert forall k :: 0 <= k < i ==> line[k] == key[k];
    }
    assert line[..i] == key && line[i + 1..] == value;
    StripNoSpace(key);
    StripNoSpace(value);
  }

  /** The last line setting a key decides it. */
  lemma AssignLast(s: Settings, es: seq<Option<(string, string)>>, key: string, value: string)
    requires es != [] && es[|es| - 1] == Some((key, value))
    ensures key in Assign(s, es) && Assign(s, es)[key] == Text(value)
  {
  }

  /** Without a file or an environment the client refreshes every four
      hours. */
  lemma RefreshDefault()
    ensures RefreshInterval(WithEnvironment(Defaults(), map[])) == Some(14400)
  {
    var c := WithEnvironment(Defaults(), map[]);
    assert RefreshKey in c && c[RefreshKey] == Number(4);
  }

  /** A last file line naming the hours sets the period. */
  lemma RefreshFromFile(hours: int, before: seq<string>)
    ensures RefreshInterval(WithEnvironment(ReadLines(Defaults(), before + [RefreshKey + "=" + ShowInt(hours)]), map[]))
              == Some(hours * 3600)
  {
    var s := ShowInt(hours);
    var lines := before + [RefreshKey + "=" + s];
    assert !IsSpace(s[0]) && !IsSpace(s[|s| - 1]);
    LineEntryOfAssignment(RefreshKey, s);
    var es := Entries(lines);
    assert es[|es| - 1] == Some((RefreshKey, s));
    AssignLast(Defaults(), es, RefreshKey, s);
    var c := WithEnvironment(ReadLines(Defaults(), lines), map[]);
    assert RefreshKey in c && c[RefreshKey] == Text(s);
    ParseShowInt(hours);
  }

  // ---------------------------------------------------------------------
  // Decisions
  // ---------------------------------------------------------------------

  /** The backend's answer to a request: a status with the `success`
      field of its JSON body, or no usable answer (the request or the body
      decoding raising). */
  datatype Exchange = Answered(status: int, success: bool) | NoAnswer

  /** `test_cookies_on_railway`: the cookies pass unless the backend
      answers 200 saying they fail; a missing or failing test endpoint lets
      them through. */
  function CookiesPass(test: Exchange): (pass: bool)
    ensures !pass <==> test == Answered(200, false)
  {
    match test
    case NoAnswer => true
    case Answered(status, success) => if status == 200 then success else true
  }

  /** What `push_cookies_to_railway` does: whether it posts, and what it
      returns. */
  datatype PushOutcome = PushOutcome(tested: bool, posted: bool, ok: bool)

  /** Unless forced the cookies are tested first and a failed test stops
      the push; a push succeeds exactly when the backend answers 200. */
  function PushCookies(force: bool, test: Exchange, post: Exchange): (r: PushOutcome)
    ensures r.tested <==> !force
    ensures r.posted <==> force || CookiesPass(test)
    ensures !r.posted ==> !r.ok
    ensures r.posted ==> (r.ok <==> post.Answered? && post.status == 200)
  {
    if !force && !CookiesPass(test) then PushOutcome(true, false, false)
    else PushOutcome(!force, true, post.Answered? && post.status == 200)
  }

  /** The messages `main` prints before giving up, in order: a missing
      user name, a missing password, a backend address that is still the
      placeholder or is not `http`. */
  function ConfigErrors(username: string, password: string, backend: string): (errs: seq<string>)
    ensures errs == [] <==> username != "" && password != "" && !Contains(backend, PlaceholderMark) && StartsWith(backend, "http")
    ensures |errs| <= 3
    ensures username == "" ==> errs[0] == "WCC_USERNAME is not set"
  {
    (if username == "" then ["WCC_USERNAME is not set"] else [])
    + (if password == "" then ["WCC_PASSWORD is not set"] else [])
    + (if Contains(backend, PlaceholderMark) || !StartsWith(backend, "http") then ["RAILWAY_BACKEND URL is not configured"] else [])
  }

  /** The shipped backend address is the placeholder. */
  lemma PlaceholderIsMarked()
    ensures Contains(PlaceholderBackend, PlaceholderMark)
  {
    OccursBetween("https://", PlaceholderMark, "APP.up.railway.app");
    ContainsAt(PlaceholderBackend, PlaceholderMark);
  }

  /** The settings as shipped stop the client with all three errors. */
  lemma DefaultsAreIncomplete()
    ensures ConfigErrors(Defaults()[UsernameKey].text, Defaults()[PasswordKey].text, Defaults()[BackendKey].text)
              == ["WCC_USERNAME is not set", "WCC_PASSWORD is not set", "RAILWAY_BACKEND URL is not configured"]
  {
    PlaceholderIsMarked();
  }

  /** One round of `main`'s loop after the login. */
  datatype Round = NoCookies | Rejected | Pushed(ok: bool)

  /** A round pushes only a non-empty cookie set, and only when it passes
      the test. */
  function SyncRound(cookies: map<string, string>, test: Exchange, post: Exchange): (r: Round)
    ensures r == NoCookies <==> |cookies| == 0
    ensures r == Rejected <==> |cookies| > 0 && test == Answered(200, false)
    ensures r.Pushed? ==> (r.ok <==> post.Answered? && post.status == 200)
  {
    if |cookies| == 0 then NoCookies
    else
      var p := PushCookies(false, test, post);
      if !p.posted then Rejected else Pushed(p.ok)
  }
}

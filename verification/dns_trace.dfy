/**
 What the two Cloudflare DNS updaters have in common: the environment they read,
 the requests they send, the messages they print, and the trace of observable
 events a run of either script produces.

 A run is a pure function of its inputs. The environment is a finite map, the
 HTTP replies and the public-IP lookup are oracles, and every effect (a GET, a
 PUT, a line printed, the process ending) is an event appended to a trace.
 */
module DnsTrace {
  import opened Wrappers
  import opened PyStr

  const ApiEndpoint := "https://api.cloudflare.com/client/v4"
  const PublicIpUrl := "https://ipv4.icanhazip.com"

  const TokenVar := "CF_DNS_API_TOKEN"
  const ZoneVar := "CF_DNS_ZONE_ID"
  const RecordVar := "CF_DNS_RECORD_ID"

  /** Record content both scripts assume when no request is sent (dry run). */
  const DryRunContent := "127.0.0.1"

  /** What the verbose header log shows in place of the credential. */
  const RedactedAuth := "Bearer ***"

  // ---------------------------------------------------------------------------
  // Environment
  // ---------------------------------------------------------------------------

  /** The process environment: variable name to value. */
  type Env = map<string, string>

  /** `os.getenv(name)`. */
  function Getenv(env: Env, name: string): Option<string> {
    if name in env then Some(env[name]) else None
  }

  /** `os.getenv(name)` is truthy: present and not the empty string. */
  predicate IsSet(env: Env, name: string) {
    name in env && env[name] != ""
  }

  /** `str(x)` / f-string interpolation of what `os.getenv` returned. */
  function Show(v: Option<string>): string {
    match v
    case Some(s) => s
    case None => "None"
  }

  /** `a` is `b` with some elements left out, the rest kept in order. */
  predicate IsSubsequence(a: seq<string>, b: seq<string>)
    decreases |b|
  {
    a == [] || (b != [] && if a[0] == b[0] then IsSubsequence(a[1..], b[1..])
                           else IsSubsequence(a, b[1..]))
  }

  /** The variables of `names` that are unset or empty, in the order given:
      what `assert_env_vars` collects before deciding to exit. */
  function MissingVars(names: seq<string>, env: Env): (r: seq<string>)
    ensures forall v :: v in r <==> v in names && !IsSet(env, v)
    ensures IsSubsequence(r, names)
  {
    if names == [] then []
    else
      var rest := MissingVars(names[1..], env);
      if IsSet(env, names[0]) then rest else [names[0]] + rest
  }

  // ---------------------------------------------------------------------------
  // Requests
  // ---------------------------------------------------------------------------

  /** The TTL is passed through untouched: an integer by default, the raw
      command-line text when given. */
  datatype Ttl = TtlSeconds(seconds: int) | TtlText(text: string)

  /** `requests.put(..., json=...)` versus `requests.put(..., data=...)`. */
  datatype Encoding = JsonBody | FormBody

  /** The fields of a record update; `proxied` is absent when the script does
      not send it. */
  datatype Payload = Payload(recordType: string, name: string, content: string,
                             ttl: Ttl, proxied: Option<bool>)

  datatype Headers = Headers(authorization: string, contentType: string)

  type Query = seq<(string, string)>

  /** The headers every Cloudflare request carries, built from the token. */
  function AuthHeaders(env: Env): (h: Headers) {
    Headers("Bearer " + Show(Getenv(env, TokenVar)), "application/json")
  }

  /** The same headers with the credential replaced. */
  function Censor(h: Headers): (c: Headers) {
    h.(authorization := RedactedAuth)
  }

  /** `str(pathlib.PurePath(*segments))` for segments without a `/`: empty and
      `.` segments vanish, the rest are joined with `/`. */
  function PathJoin(segments: seq<string>): (path: string) {
    var parts := PathParts(segments);
    if parts == [] then "." else parts[0] + SlashPrefixed(parts[1..])
  }

  function PathParts(segments: seq<string>): (parts: seq<string>)
    ensures forall p :: p in parts <==> p in segments && p != "" && p != "."
  {
    if segments == [] then []
    else
      var rest := PathParts(segments[1..]);
      if segments[0] == "" || segments[0] == "." then rest else [segments[0]] + rest
  }

  function SlashPrefixed(parts: seq<string>): string {
    if parts == [] then "" else "/" + parts[0] + SlashPrefixed(parts[1..])
  }

  /** The URL of one record of one zone. */
  function RecordUrl(zone: string, recordId: string): (url: string) {
    ApiEndpoint + "/" + PathJoin(["zones", zone, "dns_records", recordId])
  }

  /** A path segment `PurePath` keeps. */
  predicate Kept(seg: string) {
    seg != "" && seg != "."
  }

  lemma PathPartsCons(seg: string, rest: seq<string>)
    ensures PathParts([seg] + rest)
            == (if Kept(seg) then [seg] else []) + PathParts(rest)
  {
    assert ([seg] + rest)[1..] == rest;
  }

  lemma SlashPrefixedCons(part: string, rest: seq<string>)
    ensures SlashPrefixed([part] + rest) == "/" + part + SlashPrefixed(rest)
  {
    assert ([part] + rest)[1..] == rest;
  }

  /** For ordinary identifiers the record URL is
      `API_ENDPOINT/zones/<zone>/dns_records/<record>`. */
  lemma RecordUrlShape(zone: string, recordId: string)
    requires Kept(zone) && Kept(recordId)
    ensures RecordUrl(zone, recordId)
            == ApiEndpoint + "/" + "zones" + "/" + zone + "/" + "dns_records" + "/" + recordId
  {
    var r0: seq<string> := [];
    var r1 := [recordId] + r0;
    var r2 := ["dns_records"] + r1;
    var r3 := [zone] + r2;
    var r4 := ["zones"] + r3;
    assert PathParts(r4) == r4 by {
      PathPartsCons(recordId, r0);
      PathPartsCons("dns_records", r1);
      PathPartsCons(zone, r2);
      PathPartsCons("zones", r3);
    }
    var tail := "/" + zone + ("/" + "dns_records" + ("/" + recordId + ""));
    assert SlashPrefixed(r3) == tail by {
      SlashPrefixedCons(recordId, r0);
      SlashPrefixedCons("dns_records", r1);
      SlashPrefixedCons(zone, r2);
    }
    assert PathJoin(r4) == "zones" + tail by {
      assert r4[1..] == r3;
    }
    assert tail == "/" + zone + "/" + "dns_records" + "/" + recordId;
    assert r4 == ["zones", zone, "dns_records", recordId];
  }

  /** An empty record identifier yields the zone's record collection
      instead. */
  lemma RecordUrlOfEmptyId(zone: string)
    requires Kept(zone)
    ensures RecordUrl(zone, "")
            == ApiEndpoint + "/" + "zones" + "/" + zone + "/" + "dns_records"
  {
    var r0: seq<string> := [];
    var r1 := [""] + r0;
    var r2 := ["dns_records"] + r1;
    var r3 := [zone] + r2;
    var r4 := ["zones"] + r3;
    PathPartsCons("", r0);
    PathPartsCons("dns_records", r1);
    PathPartsCons(zone, r2);
    PathPartsCons("zones", r3);
    var p2 := ["dns_records"] + r0;
    var p3 := [zone] + p2;
    var p4 := ["zones"] + p3;
    assert PathParts(r4) == p4;
    assert p4[1..] == p3;
    SlashPrefixedCons("dns_records", r0);
    SlashPrefixedCons(zone, p2);
    var tail := "/" + zone + ("/" + "dns_records" + "");
    assert PathJoin(r4) == "zones" + tail;
    assert tail == "/" + zone + "/" + "dns_records";
    assert r4 == ["zones", zone, "dns_records", ""];
  }

  // ---------------------------------------------------------------------------
  // Oracles
  // ---------------------------------------------------------------------------

  /** The parts of a response body the scripts read. `RecordList` is a lookup
      result (`result` is a list; only each record's `id` is kept),
      `RecordDetail` a single record (`result.content`), `JsonText` a JSON
      string, `OtherJson` any other JSON value, `NotJson` an unparsable body. */
  datatype Body =
    | RecordList(ids: seq<string>)
    | RecordDetail(content: string)
    | JsonText(text: string)
    | OtherJson
    | NotJson

  datatype Reply = Reply(ok: bool, body: Body)

  datatype Request = GetRequest(url: string, query: Query) | PutRequest(url: string, payload: Payload)

  /** The network as seen by the scripts: the body the public-IP service
      returns, and Cloudflare's reply to each request. */
  datatype Net = Net(publicIpText: string, answer: Request -> Reply)

  // ---------------------------------------------------------------------------
  // Events
  // ---------------------------------------------------------------------------

  datatype Stream = Stdout | Stderr

  datatype Msg =
    | Text(text: string)
    | MissingVariables(names: seq<string>)
    | HeaderLog(headers: Headers)
    | RequestDump(verb: string, url: string, query: Query, headers: Headers)
    | ResponseDump(body: Body)

  /** The uncaught exceptions the scripts can die with. */
  datatype Exception =
    | IndexError       // `[0]` of an empty list
    | ShapeError       // subscripting JSON of the wrong shape (KeyError, TypeError)
    | JsonDecodeError  // `.json()` of a body that is not JSON
    | ConcatTypeError  // `str + dict`

  datatype Event =
    | Get(url: string, query: Query, auth: Option<Headers>)
    | Put(url: string, headers: Headers, payload: Payload, encoding: Encoding)
    | Print(stream: Stream, msg: Msg)
    | Exit(code: int)
    | Raise(exc: Exception)

  /** A step of a run: the events so far and, unless the process ended, the
      value the step computed. */
  datatype Run<T> = Run(trace: seq<Event>, value: Option<T>)

  predicate Terminal(e: Event) {
    e.Exit? || e.Raise?
  }

  predicate NoTerminal(t: seq<Event>) {
    forall e | e in t :: !Terminal(e)
  }

  /** The trace of a process that ended: one terminal event, at the end. */
  predicate Terminated(t: seq<Event>) {
    |t| > 0 && Terminal(t[|t| - 1]) && NoTerminal(t[..|t| - 1])
  }

  /** An ending that is not a successful exit. */
  predicate Abnormal(e: Event) {
    e.Raise? || (e.Exit? && e.code != 0)
  }

  /** A step either continues with a value and has not ended the process, or
      has ended it with a failure (only `main` itself exits successfully). */
  predicate ValidRun<T>(r: Run<T>) {
    if r.value.Some? then NoTerminal(r.trace)
    else Terminated(r.trace) && Abnormal(r.trace[|r.trace| - 1])
  }

  function Halt<T>(t: seq<Event>): Run<T> {
    Run(t, None)
  }

  function Done<T>(t: seq<Event>, v: T): Run<T> {
    Run(t, Some(v))
  }

  /** The process ends with `e` after the events `t`. */
  function Crash<T>(t: seq<Event>, e: Event): (r: Run<T>)
    requires NoTerminal(t) && Abnormal(e)
    ensures ValidRun(r) && r.value.None? && r.trace == t + [e]
  {
    TerminatedEnd(t, e);
    Halt(t + [e])
  }

  /** A step that continues after `pre` keeps the run valid. */
  lemma TerminatedAppendRun<T>(pre: seq<Event>, s: Run<T>)
    requires NoTerminal(pre) && ValidRun(s)
    ensures ValidRun(Run(pre + s.trace, s.value))
  {
    if s.value.None? {
      TerminatedAppend(pre, s.trace);
      assert (pre + s.trace)[|pre + s.trace| - 1] == s.trace[|s.trace| - 1];
    }
  }

  lemma TerminatedAppend(pre: seq<Event>, t: seq<Event>)
    requires NoTerminal(pre) && Terminated(t)
    ensures Terminated(pre + t)
  {
    assert (pre + t)[..|pre + t| - 1] == pre + t[..|t| - 1];
  }

  lemma TerminatedEnd(pre: seq<Event>, e: Event)
    requires NoTerminal(pre) && Terminal(e)
    ensures Terminated(pre + [e])
  {
    assert (pre + [e])[..|pre|] == pre;
  }

  /** The last event of `a + b` is the last of `b`. */
  lemma LastOfAppend(a: seq<Event>, b: seq<Event>)
    requires |b| > 0
    ensures (a + b)[|a + b| - 1] == b[|b| - 1]
  {
  }

  /** The last two events of `a + [e]` are the last of `a` and `e`. */
  lemma LastTwo(a: seq<Event>, e: Event)
    requires |a| > 0
    ensures (a + [e])[|a + [e]| - 2..] == [a[|a| - 1], e]
  {
  }

  // ---------------------------------------------------------------------------
  // Trace properties
  // ---------------------------------------------------------------------------

  predicate NoNetwork(t: seq<Event>) {
    forall e | e in t :: !e.Get? && !e.Put?
  }

  /** The request for this host's public address. */
  const PublicIpLookup := Get(PublicIpUrl, [], None)

  /** Nothing reaches Cloudflare: the only request is the public-IP lookup. */
  predicate Offline(t: seq<Event>) {
    forall e | e in t :: !e.Put? && (e.Get? ==> e == PublicIpLookup)
  }

  lemma OfflineAppend(a: seq<Event>, b: seq<Event>)
    requires Offline(a) && Offline(b)
    ensures Offline(a + b)
  {
  }

  /** `r` is `t` followed by events that send nothing. */
  predicate Extends(r: seq<Event>, t: seq<Event>) {
    |t| <= |r| && r[..|t|] == t && NoNetwork(r[|t|..])
  }

  lemma ExtendsBy(t: seq<Event>, x: seq<Event>)
    requires NoNetwork(x)
    ensures Extends(t + x, t)
  {
    assert (t + x)[|t|..] == x;
  }

  lemma ExtendsTrans(r: seq<Event>, s: seq<Event>, t: seq<Event>)
    requires Extends(r, s) && Extends(s, t)
    ensures Extends(r, t)
  {
    assert r[..|t|] == s[..|t|];
    assert r[|t|..] == s[|t|..] + r[|s|..];
  }

  predicate NoPut(t: seq<Event>) {
    forall e | e in t :: !e.Put?
  }

  /** The PUT events of a trace, in order. */
  function Puts(t: seq<Event>): seq<Event> {
    if t == [] then []
    else (if t[0].Put? then [t[0]] else []) + Puts(t[1..])
  }

  /** `Puts` keeps exactly the PUT events. */
  lemma {:induction false} PutsMembers(t: seq<Event>)
    ensures forall e :: e in Puts(t) <==> e in t && e.Put?
  {
    if t != [] {
      PutsMembers(t[1..]);
      assert t == [t[0]] + t[1..];
    }
  }

  lemma {:induction false} PutsAppend(a: seq<Event>, b: seq<Event>)
    ensures Puts(a + b) == Puts(a) + Puts(b)
  {
    if a == [] {
      assert a + b == b;
    } else {
      var head := if a[0].Put? then [a[0]] else [];
      assert (a + b)[0] == a[0];
      assert (a + b)[1..] == a[1..] + b;
      PutsAppend(a[1..], b);
      assert Puts(a + b) == head + Puts(a[1..] + b);
    }
  }

  lemma PutsOfOne(e: Event)
    ensures Puts([e]) == if e.Put? then [e] else []
  {
    assert [e][1..] == [];
  }

  /** Ending the process sends nothing. */
  lemma PutsOfTerminal(t: seq<Event>, e: Event)
    requires Terminal(e)
    ensures Puts(t + [e]) == Puts(t)
  {
    PutsAppend(t, [e]);
    PutsOfOne(e);
  }

  lemma {:induction false} NoPutsIsEmpty(t: seq<Event>)
    requires NoPut(t)
    ensures Puts(t) == []
  {
    if t != [] {
      assert t[0] in t;
      assert NoPut(t[1..]) by {
        forall e | e in t[1..] ensures !e.Put? {
          assert e in t;
        }
      }
      NoPutsIsEmpty(t[1..]);
    }
  }

  /** No event reports missing environment variables. */
  predicate NoEnvReport(t: seq<Event>) {
    forall e | e in t :: !(e.Print? && e.msg.MissingVariables?)
  }

  /** The headers a printed message shows, if it shows any. */
  function ShownHeaders(m: Msg): Option<Headers> {
    match m
    case HeaderLog(h) => Some(h)
    case RequestDump(_, _, _, h) => Some(h)
    case _ => None
  }

  /** The verbose header log never shows the credential. */
  predicate HeaderLogsRedacted(t: seq<Event>) {
    forall e | e in t :: e.Print? && e.msg.HeaderLog? ==> e.msg.headers.authorization == RedactedAuth
  }

  /** No printed message of any kind shows the credential. */
  predicate AllShownHeadersRedacted(t: seq<Event>) {
    forall e | e in t :: e.Print? && ShownHeaders(e.msg).Some?
                         ==> ShownHeaders(e.msg).value.authorization == RedactedAuth
  }

  /** Some printed message shows the header line carrying `token`. */
  predicate ShowsToken(t: seq<Event>, token: string) {
    exists e | e in t :: e.Print? && ShownHeaders(e.msg).Some?
                         && ShownHeaders(e.msg).value.authorization == "Bearer " + token
  }

  // ---------------------------------------------------------------------------
  // assert_env_vars
  // ---------------------------------------------------------------------------

  /** `assert_env_vars(names)`: when any listed variable is unset or empty,
      print all of them (in the order listed) and exit with status 1. */
  function AssertEnvVars(names: seq<string>, env: Env): (r: Run<()>)
    ensures ValidRun(r)
    ensures r.value.None? <==> exists v :: v in names && !IsSet(env, v)
    ensures r.value.None? ==> r.trace == [Print(Stderr, MissingVariables(MissingVars(names, env))), Exit(1)]
    ensures r.value.Some? ==> r.trace == []
  {
    var missing := MissingVars(names, env);
    if missing != [] then
      assert missing[0] in missing;
      Halt([Print(Stderr, MissingVariables(missing)), Exit(1)])
    else
      Done([], ())
  }
}

/**
 ddns/cloudflare/update_dns_record.py, the current revision of the Cloudflare
 updater: fetch the record (its identifier looked up by hostname and the
 requested type), compare its content with this host's address, and replace
 the record when they differ. The replacement looks the identifier up again,
 and as written that second lookup asks for type `A` whatever type was
 requested.

 `Main` maps the options, the environment and the network oracle to the trace
 of events the script produces. Two flags select corrections: `redactDump`
 the error path that censors the credential (see `ErrorDumpShowsToken` and
 `CorrectedHidesToken`), `typedUpdate` the update that looks its record up by
 the requested type (see `UntypedUpdateMissesRecord` and
 `TypedUpdateTargetsFetchedRecord`). With both false the model is the script
 as written.
 */
module CloudflareDns {
  import opened Wrappers
  import opened PyStr
  import opened DnsTrace

  /** Identifiers the script substitutes in a dry run. */
  const DummyRecordId := "372e67954025e0ba6aaa6d586b9e0b59"
  const DummyZoneId := "023e105f4ecef8ad9ca31a8372d0c353"

  const RequiredVars := [TokenVar, ZoneVar]

  const SendErrorText := "ERROR: got an error when sending request."
  const UnchangedText := "DNS record unchanged."

  function UpdatedText(hostname: string, content: string): string {
    "Successfully updated DNS record of " + hostname + " to point to " + content
  }

  /** The command-line options `main` receives. */
  datatype Options = Options(hostname: string, ipAddress: Option<string>, ttl: Ttl,
                             recordType: string, dryrun: bool, verbose: bool)

  /** Everything one run depends on. */
  datatype Context = Context(opts: Options, env: Env, net: Net, redactDump: bool, typedUpdate: bool)

  /** A request `send_request` is asked to make. */
  datatype Call = GetCall(query: Query) | PutCall(payload: Payload)

  /** What `send_request` hands back: the reply, or in a dry run the empty
      `requests.Response()` placeholder. */
  datatype Response = Placeholder | Received(reply: Reply)

  function RequestOf(call: Call, url: string): Request {
    match call
    case GetCall(q) => GetRequest(url, q)
    case PutCall(p) => PutRequest(url, p)
  }

  function CallEvent(call: Call, url: string, h: Headers): Event {
    match call
    case GetCall(q) => Get(url, q, Some(h))
    case PutCall(p) => Put(url, h, p, JsonBody)
  }

  /** The JSON a response carries; the placeholder carries none. */
  function BodyOf(resp: Response): Body {
    match resp
    case Placeholder => NotJson
    case Received(reply) => reply.body
  }

  // ---------------------------------------------------------------------------
  // The script's functions
  // ---------------------------------------------------------------------------

  /** `make_headers`: the real headers go back to the caller; the verbose log
      shows them with the credential replaced by `Bearer ***`. */
  function MakeHeaders(env: Env, verbose: bool): (r: (Headers, seq<Event>)) {
    var h := AuthHeaders(env);
    (h, if verbose then [Print(Stdout, HeaderLog(Censor(h)))] else [])
  }

  /** `get_zone_id`. */
  function GetZoneId(env: Env, dryrun: bool): (zone: string) {
    if dryrun then DummyZoneId else Show(Getenv(env, ZoneVar))
  }

  /** The request line `send_request` dumps when a reply is not ok. The script
      as written dumps the headers it sent; the corrected script censors
      them. */
  function RequestDumpOf(c: Context, call: Call, url: string, h: Headers): (m: Msg) {
    var shown := if c.redactDump then Censor(h) else h;
    match call
    case GetCall(q) => RequestDump("GET", url, q, shown)
    case PutCall(_) => RequestDump("PUT", url, [], shown)
  }

  /** `send_request` once the URL is known: log the headers, then in a dry
      run send nothing; otherwise send the request. An ok reply is handed
      back (printing its JSON first when verbose, which raises when there is
      none); any other reply is dumped and the process exits. */
  function SendTo(c: Context, call: Call, url: string): (r: Run<Response>)
    ensures ValidRun(r)
  {
    var (h, log) := MakeHeaders(c.env, c.opts.verbose);
    if c.opts.dryrun then Done(log, Placeholder)
    else
      var t := log + [CallEvent(call, url, h)];
      var reply := c.net.answer(RequestOf(call, url));
      if !reply.ok then FailureReport(t, RequestDumpOf(c, call, url, h), reply.body)
      else if !c.opts.verbose then Done(t, Received(reply))
      else if reply.body.NotJson? then Crash(t, Raise(JsonDecodeError))
      else Done(t + [Print(Stdout, ResponseDump(reply.body))], Received(reply))
  }

  /** The error path of `send_request`: dump the request, then the reply's
      JSON (which raises when there is none), then exit with status 1. */
  function FailureReport(t: seq<Event>, dump: Msg, body: Body): (r: Run<Response>)
    requires NoTerminal(t)
    ensures ValidRun(r) && r.value.None?
  {
    var shown := t + [Print(Stderr, dump)];
    if body.NotJson? then Crash(shown, Raise(JsonDecodeError))
    else Crash(shown + [Print(Stderr, ResponseDump(body)), Print(Stderr, Text(SendErrorText))],
               Exit(1))
  }

  /** `res.json()['result'][0]['id']`. */
  function FirstId(t: seq<Event>, body: Body): (r: Run<string>)
    requires NoTerminal(t)
    ensures ValidRun(r)
  {
    match body
    case RecordList(ids) =>
      if |ids| == 0 then Crash(t, Raise(IndexError)) else Done(t, ids[0])
    case NotJson => Crash(t, Raise(JsonDecodeError))
    case _ => Crash(t, Raise(ShapeError))
  }

  function LookupUrl(env: Env): (url: string) {
    ApiEndpoint + "/zones/" + Show(Getenv(env, ZoneVar)) + "/dns_records"
  }

  function LookupQuery(hostname: string, recordType: string): (q: Query) {
    [("type", recordType), ("name", hostname)]
  }

  /** `get_record_id`: the dummy in a dry run; otherwise a lookup filtered by
      type and name, of which the first record is taken. */
  function GetRecordId(c: Context, recordType: string): (r: Run<string>)
    ensures ValidRun(r)
  {
    if c.opts.dryrun then Done([], DummyRecordId)
    else
      var s := SendTo(c, GetCall(LookupQuery(c.opts.hostname, recordType)), LookupUrl(c.env));
      match s.value
      case None => Halt(s.trace)
      case Some(resp) => FirstId(s.trace, BodyOf(resp))
  }

  /** `make_api_url`: `API_ENDPOINT/zones/<zone>/dns_records/<record>`. */
  function MakeApiUrl(c: Context, recordType: string): (r: Run<string>)
    ensures ValidRun(r)
  {
    var zone := GetZoneId(c.env, c.opts.dryrun);
    var id := GetRecordId(c, recordType);
    match id.value
    case None => Halt(id.trace)
    case Some(rid) => Done(id.trace, RecordUrl(zone, rid))
  }

  /** `send_request` without an explicit URL: resolve the URL of the record
      of type `recordType` (which may itself send the lookup), then send. */
  function SendRequest(c: Context, recordType: string, call: Call): (r: Run<Response>)
    ensures ValidRun(r)
  {
    var u := MakeApiUrl(c, recordType);
    match u.value
    case None => Halt(u.trace)
    case Some(url) =>
      var s := SendTo(c, call, url);
      TerminatedAppendRun(u.trace, s);
      Run(u.trace + s.trace, s.value)
  }

  /** `get_record_json`: the dummy record in a dry run, else the fetched one. */
  function GetRecordJson(c: Context): (r: Run<Body>)
    ensures ValidRun(r)
  {
    if c.opts.dryrun then Done([], RecordDetail(DryRunContent))
    else
      var s := SendRequest(c, c.opts.recordType, GetCall([]));
      match s.value
      case None => Halt(s.trace)
      case Some(resp) =>
        if BodyOf(resp).NotJson? then Crash(s.trace, Raise(JsonDecodeError))
        else Done(s.trace, BodyOf(resp))
  }

  /** `ip_address or current_public_ip()`: the override when non-empty,
      otherwise the stripped answer of the public-IP service. */
  function ResolveAddress(opts: Options, net: Net): (r: (string, seq<Event>)) {
    match opts.ipAddress
    case Some(a) =>
      if a != "" then (a, []) else (Strip(net.publicIpText), [PublicIpLookup])
    case None => (Strip(net.publicIpText), [PublicIpLookup])
  }

  /** The payload of the record update for a new content. */
  function UpdatePayload(opts: Options, content: string): (p: Payload) {
    Payload(opts.recordType, opts.hostname, content, opts.ttl, Some(false))
  }

  /** The record type `update_record` has its record looked up by. As
      written it does not pass the requested type to `send_request`, whose
      default is `A`; the corrected script passes it on. */
  function UpdateLookupType(c: Context): (t: string) {
    if c.typedUpdate then c.opts.recordType else "A"
  }

  /** `update_record`: send the PUT, then report success. */
  function UpdateRecord(c: Context, content: string): (r: Run<()>)
    ensures ValidRun(r)
  {
    var s := SendRequest(c, UpdateLookupType(c), PutCall(UpdatePayload(c.opts, content)));
    match s.value
    case None => Halt(s.trace)
    case Some(_) => Done(s.trace + [Print(Stdout, Text(UpdatedText(c.opts.hostname, content)))], ())
  }

  /** The end of `main` once the record's content is known: resolve this
      host's address and update the record only when the two differ. */
  function Compare(c: Context, pre: seq<Event>, content: string): (t: seq<Event>)
    requires NoTerminal(pre)
    ensures Terminated(t)
  {
    var (addr, lookup) := ResolveAddress(c.opts, c.net);
    var t := pre + lookup;
    assert NoTerminal(t);
    if addr != content then
      var u := UpdateRecord(c, addr);
      if u.value.None? then
        TerminatedAppend(t, u.trace);
        t + u.trace
      else
        TerminatedEnd(t + u.trace, Exit(0));
        t + u.trace + [Exit(0)]
    else
      var said := t + [Print(Stdout, Text(UnchangedText))];
      TerminatedEnd(said, Exit(0));
      said + [Exit(0)]
  }

  /** `main`: the whole run, from the environment check to the exit. */
  function Main(c: Context): (t: seq<Event>)
    ensures Terminated(t)
  {
    var check := AssertEnvVars(RequiredVars, c.env);
    if check.value.None? then check.trace
    else
      var rec := GetRecordJson(c);
      match rec.value
      case None => rec.trace
      case Some(body) =>
        if body.RecordDetail? then Compare(c, rec.trace, body.content)
        else Crash<()>(rec.trace, Raise(ShapeError)).trace
  }

  // ---------------------------------------------------------------------------
  // What a run observes, described independently of the script's structure
  // ---------------------------------------------------------------------------

  /** Both required variables are set and non-empty. */
  predicate EnvOk(env: Env) {
    forall v | v in RequiredVars :: IsSet(env, v)
  }

  /** The identifier a lookup for records of type `recordType` yields: the
      dummy in a dry run, else the first result of a successful lookup. */
  function LookupId(c: Context, recordType: string): Option<string> {
    if c.opts.dryrun then Some(DummyRecordId)
    else
      var reply := c.net.answer(GetRequest(LookupUrl(c.env), LookupQuery(c.opts.hostname, recordType)));
      if reply.ok && reply.body.RecordList? && |reply.body.ids| > 0
      then Some(reply.body.ids[0]) else None
  }

  /** The content a run compares this host's address with: `127.0.0.1` in a
      dry run, else the content of the record fetched by identifier. */
  function RecordContent(c: Context): Option<string> {
    if c.opts.dryrun then Some(DryRunContent)
    else match LookupId(c, c.opts.recordType)
      case None => None
      case Some(id) =>
        var reply := c.net.answer(GetRequest(RecordUrl(GetZoneId(c.env, false), id), []));
        if reply.ok && reply.body.RecordDetail? then Some(reply.body.content) else None
  }

  /** The address this host is taken to have. */
  function Resolved(c: Context): string {
    ResolveAddress(c.opts, c.net).0
  }

  /** Cloudflare accepts a PUT (and, when verbose, its reply is JSON). */
  predicate Accepted(c: Context, req: Request) {
    var reply := c.net.answer(req);
    reply.ok && !(c.opts.verbose && reply.body.NotJson?)
  }

  /** The record update a run sends for record `id`. */
  function UpdateEvent(c: Context, id: string): Event {
    Put(RecordUrl(GetZoneId(c.env, c.opts.dryrun), id), AuthHeaders(c.env),
        UpdatePayload(c.opts, Resolved(c)), JsonBody)
  }

  /** The run ends well: the environment is complete, the record's content is
      known, and either it already matches this host's address, or this is a
      dry run, or the update's own lookup finds a record and Cloudflare
      accepts the update of it. */
  predicate Succeeds(c: Context) {
    && EnvOk(c.env)
    && RecordContent(c).Some?
    && (|| Resolved(c) == RecordContent(c).value
        || c.opts.dryrun
        || (var id := LookupId(c, UpdateLookupType(c));
            && id.Some?
            && Accepted(c, PutRequest(RecordUrl(GetZoneId(c.env, c.opts.dryrun), id.value),
                                      UpdatePayload(c.opts, Resolved(c))))))
  }

  /** No event reports missing variables, no header log shows the
      credential, and with the corrected error path no message at all shows
      it. */
  predicate SafeEvent(c: Context, e: Event) {
    && !(e.Print? && e.msg.MissingVariables?)
    && (e.Print? && e.msg.HeaderLog? ==> e.msg.headers.authorization == RedactedAuth)
    && (c.redactDump && e.Print? && ShownHeaders(e.msg).Some?
        ==> ShownHeaders(e.msg).value.authorization == RedactedAuth)
  }

  predicate Safe(c: Context, t: seq<Event>) {
    forall e | e in t :: SafeEvent(c, e)
  }

  /** Every request the event makes goes to Cloudflare with the real
      credential. */
  predicate Credentialed(c: Context, e: Event) {
    && (e.Get? ==> e.auth == Some(AuthHeaders(c.env)))
    && (e.Put? ==> e.headers == AuthHeaders(c.env))
  }

  predicate Authenticated(c: Context, t: seq<Event>) {
    forall e | e in t :: Credentialed(c, e)
  }

  // ---------------------------------------------------------------------------
  // send_request
  // ---------------------------------------------------------------------------

  lemma SafeAppend(c: Context, a: seq<Event>, b: seq<Event>)
    requires Safe(c, a) && Safe(c, b)
    ensures Safe(c, a + b)
  {
  }

  lemma AuthenticatedAppend(c: Context, a: seq<Event>, b: seq<Event>)
    requires Authenticated(c, a) && Authenticated(c, b)
    ensures Authenticated(c, a + b)
  {
  }

  lemma FailureReportSafe(c: Context, t: seq<Event>, dump: Msg, body: Body)
    requires NoTerminal(t) && Safe(c, t) && SafeEvent(c, Print(Stderr, dump))
    requires Authenticated(c, t)
    ensures Safe(c, FailureReport(t, dump, body).trace)
    ensures Authenticated(c, FailureReport(t, dump, body).trace)
  {
    var shown := t + [Print(Stderr, dump)];
    SafeAppend(c, t, [Print(Stderr, dump)]);
    AuthenticatedAppend(c, t, [Print(Stderr, dump)]);
    if body.NotJson? {
      SafeAppend(c, shown, [Raise(JsonDecodeError)]);
      AuthenticatedAppend(c, shown, [Raise(JsonDecodeError)]);
    } else {
      var tail := [Print(Stderr, ResponseDump(body)), Print(Stderr, Text(SendErrorText)), Exit(1)];
      assert shown + [Print(Stderr, ResponseDump(body)), Print(Stderr, Text(SendErrorText))] + [Exit(1)]
             == shown + tail;
      SafeAppend(c, shown, tail);
      AuthenticatedAppend(c, shown, tail);
    }
  }

  lemma SendToSafe(c: Context, call: Call, url: string)
    ensures Safe(c, SendTo(c, call, url).trace)
    ensures Authenticated(c, SendTo(c, call, url).trace)
  {
    var (h, log) := MakeHeaders(c.env, c.opts.verbose);
    assert Safe(c, log) && Authenticated(c, log);
    if !c.opts.dryrun {
      var t := log + [CallEvent(call, url, h)];
      SafeAppend(c, log, [CallEvent(call, url, h)]);
      AuthenticatedAppend(c, log, [CallEvent(call, url, h)]);
      var reply := c.net.answer(RequestOf(call, url));
      if !reply.ok {
        FailureReportSafe(c, t, RequestDumpOf(c, call, url, h), reply.body);
      } else if c.opts.verbose {
        var e := if reply.body.NotJson? then Raise(JsonDecodeError)
                 else Print(Stdout, ResponseDump(reply.body));
        SafeAppend(c, t, [e]);
        AuthenticatedAppend(c, t, [e]);
      }
    }
  }

  lemma FailureReportPuts(t: seq<Event>, dump: Msg, body: Body)
    requires NoTerminal(t)
    ensures Puts(FailureReport(t, dump, body).trace) == Puts(t)
  {
    var shown := t + [Print(Stderr, dump)];
    PutsAppend(t, [Print(Stderr, dump)]);
    PutsOfOne(Print(Stderr, dump));
    if body.NotJson? {
      PutsAppend(shown, [Raise(JsonDecodeError)]);
      PutsOfOne(Raise(JsonDecodeError));
    } else {
      var a := [Print(Stderr, ResponseDump(body)), Print(Stderr, Text(SendErrorText))];
      PutsAppend(shown, a);
      PutsAppend(shown + a, [Exit(1)]);
      PutsOfOne(Exit(1));
      assert a == [a[0]] + [a[1]];
      PutsAppend([a[0]], [a[1]]);
      PutsOfOne(a[0]);
      PutsOfOne(a[1]);
    }
  }

  /** A call sends at most one PUT: the requested one, outside a dry run. */
  lemma SendToPuts(c: Context, call: Call, url: string)
    ensures Puts(SendTo(c, call, url).trace)
            == if !c.opts.dryrun && call.PutCall?
               then [Put(url, AuthHeaders(c.env), call.payload, JsonBody)] else []
  {
    var (h, log) := MakeHeaders(c.env, c.opts.verbose);
    assert Puts(log) == [] by {
      if c.opts.verbose {
        PutsOfOne(log[0]);
      }
    }
    if !c.opts.dryrun {
      var ev := CallEvent(call, url, h);
      var t := log + [ev];
      PutsAppend(log, [ev]);
      PutsOfOne(ev);
      var reply := c.net.answer(RequestOf(call, url));
      if !reply.ok {
        FailureReportPuts(t, RequestDumpOf(c, call, url, h), reply.body);
      } else if c.opts.verbose {
        var e := if reply.body.NotJson? then Raise(JsonDecodeError)
                 else Print(Stdout, ResponseDump(reply.body));
        PutsAppend(t, [e]);
        PutsOfOne(e);
      }
    }
  }

  /** A dry run sends nothing and hands back the placeholder; otherwise the
      call goes on exactly when Cloudflare accepts the request. */
  lemma SendToValue(c: Context, call: Call, url: string)
    ensures c.opts.dryrun ==> SendTo(c, call, url) == Done(MakeHeaders(c.env, c.opts.verbose).1, Placeholder)
    ensures !c.opts.dryrun ==>
              (SendTo(c, call, url).value.Some? <==> Accepted(c, RequestOf(call, url)))
              && (SendTo(c, call, url).value.Some? ==>
                    SendTo(c, call, url).value.value == Received(c.net.answer(RequestOf(call, url))))
  {
  }

  /** On a refused request the dump names the headers that were sent. */
  lemma SendToDumps(c: Context, call: Call, url: string)
    requires !c.opts.dryrun && !c.net.answer(RequestOf(call, url)).ok
    ensures Print(Stderr, RequestDumpOf(c, call, url, AuthHeaders(c.env)))
            in SendTo(c, call, url).trace
  {
    var (h, log) := MakeHeaders(c.env, c.opts.verbose);
    var t := log + [CallEvent(call, url, h)];
    var dump := Print(Stderr, RequestDumpOf(c, call, url, h));
    var body := c.net.answer(RequestOf(call, url)).body;
    assert (t + [dump])[|t|] == dump;
    if !body.NotJson? {
      var tail := [Print(Stderr, ResponseDump(body)), Print(Stderr, Text(SendErrorText))];
      assert (t + [dump] + tail + [Exit(1)])[|t|] == dump;
    } else {
      assert (t + [dump] + [Raise(JsonDecodeError)])[|t|] == dump;
    }
  }

  // ---------------------------------------------------------------------------
  // get_record_id and make_api_url
  // ---------------------------------------------------------------------------

  /** The identifier found is the first of a successful lookup. */
  lemma GetRecordIdValue(c: Context, recordType: string)
    ensures GetRecordId(c, recordType).value == LookupId(c, recordType)
  {
    if !c.opts.dryrun {
      SendToValue(c, GetCall(LookupQuery(c.opts.hostname, recordType)), LookupUrl(c.env));
    }
  }

  lemma GetRecordIdSafe(c: Context, recordType: string)
    ensures Safe(c, GetRecordId(c, recordType).trace)
    ensures Authenticated(c, GetRecordId(c, recordType).trace)
  {
    if !c.opts.dryrun {
      var call := GetCall(LookupQuery(c.opts.hostname, recordType));
      var s := SendTo(c, call, LookupUrl(c.env));
      SendToSafe(c, call, LookupUrl(c.env));
      if s.value.Some? {
        forall x | x in [IndexError, JsonDecodeError, ShapeError]
          ensures Safe(c, s.trace + [Raise(x)]) && Authenticated(c, s.trace + [Raise(x)])
        {
          SafeAppend(c, s.trace, [Raise(x)]);
          AuthenticatedAppend(c, s.trace, [Raise(x)]);
        }
      }
    }
  }

  /** Reading the first id adds no PUT to the trace. */
  lemma FirstIdPuts(t: seq<Event>, body: Body)
    requires NoTerminal(t)
    ensures Puts(FirstId(t, body).trace) == Puts(t)
  {
    var r := FirstId(t, body);
    if r.trace != t {
      PutsOfTerminal(t, r.trace[|t|]);
    }
  }

  /** The lookup never updates anything. */
  lemma GetRecordIdPuts(c: Context, recordType: string)
    ensures Puts(GetRecordId(c, recordType).trace) == []
  {
    if !c.opts.dryrun {
      var call := GetCall(LookupQuery(c.opts.hostname, recordType));
      var s := SendTo(c, call, LookupUrl(c.env));
      SendToPuts(c, call, LookupUrl(c.env));
      if s.value.Some? {
        FirstIdPuts(s.trace, BodyOf(s.value.value));
      }
    }
  }

  /** A lookup that finds no record ends the run with an `IndexError`. */
  lemma EmptyLookupRaises(c: Context, recordType: string)
    requires !c.opts.dryrun
    requires c.net.answer(GetRequest(LookupUrl(c.env), LookupQuery(c.opts.hostname, recordType)))
             == Reply(true, RecordList([]))
    ensures var t := GetRecordId(c, recordType).trace;
            |t| > 0 && t[|t| - 1] == Raise(IndexError)
  {
    SendToValue(c, GetCall(LookupQuery(c.opts.hostname, recordType)), LookupUrl(c.env));
  }

  lemma MakeApiUrlFacts(c: Context, recordType: string)
    ensures MakeApiUrl(c, recordType).trace == GetRecordId(c, recordType).trace
    ensures MakeApiUrl(c, recordType).value.Some? <==> LookupId(c, recordType).Some?
    ensures MakeApiUrl(c, recordType).value.Some? ==>
              MakeApiUrl(c, recordType).value.value
              == RecordUrl(GetZoneId(c.env, c.opts.dryrun), LookupId(c, recordType).value)
  {
    GetRecordIdValue(c, recordType);
  }

  // ---------------------------------------------------------------------------
  // send_request to the record URL, get_record_json, update_record
  // ---------------------------------------------------------------------------

  /** The record URL a run resolves, once it has an identifier. */
  function RecordUrlOf(c: Context, id: string): (url: string) {
    RecordUrl(GetZoneId(c.env, c.opts.dryrun), id)
  }

  lemma SendRequestSafe(c: Context, recordType: string, call: Call)
    ensures Safe(c, SendRequest(c, recordType, call).trace)
    ensures Authenticated(c, SendRequest(c, recordType, call).trace)
  {
    MakeApiUrlFacts(c, recordType);
    GetRecordIdSafe(c, recordType);
    var u := MakeApiUrl(c, recordType);
    if u.value.Some? {
      var s := SendTo(c, call, u.value.value);
      SendToSafe(c, call, u.value.value);
      SafeAppend(c, u.trace, s.trace);
      AuthenticatedAppend(c, u.trace, s.trace);
    }
  }

  /** Besides the lookup, the only request is the one asked for, at the URL
      of the record the lookup found. */
  lemma SendRequestPuts(c: Context, recordType: string, call: Call)
    ensures var id := LookupId(c, recordType);
            Puts(SendRequest(c, recordType, call).trace)
            == if !c.opts.dryrun && call.PutCall? && id.Some?
               then [Put(RecordUrlOf(c, id.value), AuthHeaders(c.env), call.payload, JsonBody)]
               else []
  {
    MakeApiUrlFacts(c, recordType);
    GetRecordIdPuts(c, recordType);
    var u := MakeApiUrl(c, recordType);
    if u.value.Some? {
      SendToPuts(c, call, u.value.value);
      PutsAppend(u.trace, SendTo(c, call, u.value.value).trace);
    }
  }

  lemma SendRequestValue(c: Context, recordType: string, call: Call)
    ensures c.opts.dryrun ==>
              SendRequest(c, recordType, call) == Done(MakeHeaders(c.env, c.opts.verbose).1, Placeholder)
    ensures !c.opts.dryrun ==>
              var id := LookupId(c, recordType);
              var r := SendRequest(c, recordType, call);
              && (r.value.Some? <==> id.Some? && Accepted(c, RequestOf(call, RecordUrlOf(c, id.value))))
              && (r.value.Some? ==>
                    r.value.value == Received(c.net.answer(RequestOf(call, RecordUrlOf(c, id.value)))))
  {
    MakeApiUrlFacts(c, recordType);
    var u := MakeApiUrl(c, recordType);
    if u.value.Some? {
      SendToValue(c, call, u.value.value);
    }
    if c.opts.dryrun {
      assert u.trace == [];
      assert [] + MakeHeaders(c.env, c.opts.verbose).1 == MakeHeaders(c.env, c.opts.verbose).1;
    }
  }

  lemma GetRecordJsonSafe(c: Context)
    ensures Safe(c, GetRecordJson(c).trace)
    ensures Authenticated(c, GetRecordJson(c).trace)
  {
    if !c.opts.dryrun {
      var s := SendRequest(c, c.opts.recordType, GetCall([]));
      SendRequestSafe(c, c.opts.recordType, GetCall([]));
      SafeAppend(c, s.trace, [Raise(JsonDecodeError)]);
      AuthenticatedAppend(c, s.trace, [Raise(JsonDecodeError)]);
    }
  }

  /** Fetching the record never updates anything. */
  lemma GetRecordJsonPuts(c: Context)
    ensures Puts(GetRecordJson(c).trace) == []
  {
    if !c.opts.dryrun {
      var s := SendRequest(c, c.opts.recordType, GetCall([]));
      SendRequestPuts(c, c.opts.recordType, GetCall([]));
      if s.value.Some? {
        PutsOfTerminal(s.trace, Raise(JsonDecodeError));
      }
    }
  }

  /** `get_record_json` yields a record exactly when a record's content is
      available, and then it is that content. */
  lemma GetRecordJsonValue(c: Context)
    ensures var r := GetRecordJson(c);
            && (r.value.Some? && r.value.value.RecordDetail? <==> RecordContent(c).Some?)
            && (RecordContent(c).Some? ==> r.value.value.content == RecordContent(c).value)
    ensures c.opts.dryrun ==> GetRecordJson(c).trace == []
  {
    if !c.opts.dryrun {
      SendRequestValue(c, c.opts.recordType, GetCall([]));
    }
  }

  lemma UpdateRecordSafe(c: Context, content: string)
    ensures Safe(c, UpdateRecord(c, content).trace)
    ensures Authenticated(c, UpdateRecord(c, content).trace)
  {
    var call := PutCall(UpdatePayload(c.opts, content));
    var s := SendRequest(c, UpdateLookupType(c), call);
    SendRequestSafe(c, UpdateLookupType(c), call);
    SafeAppend(c, s.trace, [Print(Stdout, Text(UpdatedText(c.opts.hostname, content)))]);
    AuthenticatedAppend(c, s.trace, [Print(Stdout, Text(UpdatedText(c.opts.hostname, content)))]);
  }

  /** `update_record` sends one PUT, with the new content, to the URL of the
      record its own lookup finds; none in a dry run or when that lookup
      fails. */
  lemma UpdateRecordPuts(c: Context, content: string)
    ensures var id := LookupId(c, UpdateLookupType(c));
            Puts(UpdateRecord(c, content).trace)
            == if !c.opts.dryrun && id.Some?
               then [Put(RecordUrlOf(c, id.value), AuthHeaders(c.env),
                         UpdatePayload(c.opts, content), JsonBody)]
               else []
  {
    var call := PutCall(UpdatePayload(c.opts, content));
    var s := SendRequest(c, UpdateLookupType(c), call);
    SendRequestPuts(c, UpdateLookupType(c), call);
    if s.value.Some? {
      var said := Print(Stdout, Text(UpdatedText(c.opts.hostname, content)));
      PutsAppend(s.trace, [said]);
      PutsOfOne(said);
    }
  }

  /** `update_record` reports success exactly when its lookup finds a record
      and Cloudflare accepts the PUT, or always in a dry run, whose only
      events are the header log and the report. */
  lemma UpdateRecordValue(c: Context, content: string)
    ensures var r := UpdateRecord(c, content);
            var id := LookupId(c, UpdateLookupType(c));
            && (r.value.Some? <==>
                  c.opts.dryrun
                  || (id.Some? && Accepted(c, PutRequest(RecordUrlOf(c, id.value),
                                                         UpdatePayload(c.opts, content)))))
            && (r.value.Some? ==> r.trace[|r.trace| - 1]
                                  == Print(Stdout, Text(UpdatedText(c.opts.hostname, content))))
    ensures c.opts.dryrun ==>
              UpdateRecord(c, content).trace
              == MakeHeaders(c.env, c.opts.verbose).1
                 + [Print(Stdout, Text(UpdatedText(c.opts.hostname, content)))]
  {
    SendRequestValue(c, UpdateLookupType(c), PutCall(UpdatePayload(c.opts, content)));
  }

  /** When the update's own lookup finds no record, the update ends the run
      with an `IndexError` and sends nothing. */
  lemma UpdateLookupEmpty(c: Context, content: string)
    requires !c.opts.dryrun
    requires c.net.answer(GetRequest(LookupUrl(c.env), LookupQuery(c.opts.hostname, UpdateLookupType(c))))
             == Reply(true, RecordList([]))
    ensures var r := UpdateRecord(c, content);
            r.value.None? && r.trace[|r.trace| - 1] == Raise(IndexError)
  {
    MakeApiUrlFacts(c, UpdateLookupType(c));
    EmptyLookupRaises(c, UpdateLookupType(c));
  }

  // ---------------------------------------------------------------------------
  // main
  // ---------------------------------------------------------------------------

  /** The events `main` adds once the record is fetched, case by case. */
  lemma CompareTrace(c: Context, pre: seq<Event>, content: string)
    requires NoTerminal(pre)
    ensures var lookup := ResolveAddress(c.opts, c.net).1;
            var u := UpdateRecord(c, Resolved(c));
            Compare(c, pre, content)
            == if Resolved(c) == content
               then pre + lookup + [Print(Stdout, Text(UnchangedText)), Exit(0)]
               else if u.value.None? then pre + lookup + u.trace
               else pre + lookup + u.trace + [Exit(0)]
  {
    var (addr, lookup) := ResolveAddress(c.opts, c.net);
    if addr == content {
      var said := Print(Stdout, Text(UnchangedText));
      assert pre + lookup + [said] + [Exit(0)] == pre + lookup + [said, Exit(0)];
    }
  }

  lemma CompareSafe(c: Context, pre: seq<Event>, content: string)
    requires NoTerminal(pre) && Safe(c, pre)
    ensures Safe(c, Compare(c, pre, content))
  {
    var (addr, lookup) := ResolveAddress(c.opts, c.net);
    var t := pre + lookup;
    SafeAppend(c, pre, lookup);
    if addr != content {
      var u := UpdateRecord(c, addr);
      UpdateRecordSafe(c, addr);
      SafeAppend(c, t, u.trace);
      SafeAppend(c, t + u.trace, [Exit(0)]);
    } else {
      SafeAppend(c, t, [Print(Stdout, Text(UnchangedText))]);
      SafeAppend(c, t + [Print(Stdout, Text(UnchangedText))], [Exit(0)]);
    }
  }

  lemma ComparePuts(c: Context, pre: seq<Event>, content: string)
    requires NoTerminal(pre)
    ensures var id := LookupId(c, UpdateLookupType(c));
            Puts(Compare(c, pre, content))
            == Puts(pre) + if Resolved(c) != content && !c.opts.dryrun && id.Some?
                           then [UpdateEvent(c, id.value)] else []
  {
    var (addr, lookup) := ResolveAddress(c.opts, c.net);
    var t := pre + lookup;
    assert Puts(t) == Puts(pre) by {
      PutsAppend(pre, lookup);
      if lookup != [] {
        PutsOfOne(lookup[0]);
      }
    }
    if addr != content {
      var u := UpdateRecord(c, addr);
      UpdateRecordPuts(c, addr);
      PutsAppend(t, u.trace);
      if u.value.Some? {
        PutsOfTerminal(t + u.trace, Exit(0));
      }
    } else {
      var said := Print(Stdout, Text(UnchangedText));
      PutsAppend(t, [said]);
      PutsOfOne(said);
      PutsOfTerminal(t + [said], Exit(0));
    }
  }

  /** When the content already matches, `main` says so and exits with 0. */
  lemma CompareUnchanged(c: Context, pre: seq<Event>, content: string)
    requires NoTerminal(pre) && Resolved(c) == content
    ensures var t := Compare(c, pre, content);
            t[|t| - 2..] == [Print(Stdout, Text(UnchangedText)), Exit(0)]
  {
    CompareTrace(c, pre, content);
  }

  /** A successful update ends with its report. */
  lemma UpdateRecordReport(c: Context, content: string)
    requires UpdateRecord(c, content).value.Some?
    ensures var t := UpdateRecord(c, content).trace;
            |t| > 0 && t[|t| - 1] == Print(Stdout, Text(UpdatedText(c.opts.hostname, content)))
  {
  }

  /** When it differs and the update goes through, `main` reports the new
      content and exits with 0. */
  lemma CompareUpdateAccepted(c: Context, pre: seq<Event>, content: string)
    requires NoTerminal(pre) && Resolved(c) != content
    requires UpdateRecord(c, Resolved(c)).value.Some?
    ensures var t := Compare(c, pre, content);
            t[|t| - 2..] == [Print(Stdout, Text(UpdatedText(c.opts.hostname, Resolved(c)))), Exit(0)]
  {
    var t := pre + ResolveAddress(c.opts, c.net).1;
    var u := UpdateRecord(c, Resolved(c));
    CompareTrace(c, pre, content);
    UpdateRecordReport(c, Resolved(c));
    LastTwo(t + u.trace, Exit(0));
    LastOfAppend(t, u.trace);
  }

  /** When it differs and the update fails, the run ends in that failure. */
  lemma CompareUpdateRefused(c: Context, pre: seq<Event>, content: string)
    requires NoTerminal(pre) && Resolved(c) != content
    requires UpdateRecord(c, Resolved(c)).value.None?
    ensures var t := Compare(c, pre, content);
            Abnormal(t[|t| - 1])
  {
    var t := pre + ResolveAddress(c.opts, c.net).1;
    var u := UpdateRecord(c, Resolved(c));
    CompareTrace(c, pre, content);
    LastOfAppend(t, u.trace);
  }

  /** When the environment check fails, nothing else happens; when it
      passes, nothing reports missing variables. */
  lemma EnvFailFast(c: Context)
    ensures !EnvOk(c.env) ==>
              Main(c) == [Print(Stderr, MissingVariables(MissingVars(RequiredVars, c.env))), Exit(1)]
    ensures EnvOk(c.env) ==> NoEnvReport(Main(c))
  {
    if EnvOk(c.env) {
      MainSafe(c);
    }
  }

  lemma MainSafe(c: Context)
    requires EnvOk(c.env)
    ensures Safe(c, Main(c))
  {
    var rec := GetRecordJson(c);
    GetRecordJsonSafe(c);
    if rec.value.Some? {
      var body := rec.value.value;
      if body.RecordDetail? {
        CompareSafe(c, rec.trace, body.content);
      } else {
        SafeAppend(c, rec.trace, [Raise(ShapeError)]);
      }
    }
  }

  /** The verbose header log never shows the credential, on any run. */
  lemma HeaderLogsNeverShowToken(c: Context)
    ensures HeaderLogsRedacted(Main(c))
  {
    if EnvOk(c.env) {
      MainSafe(c);
    }
  }

  /** With the corrected error path, no message of any run shows the
      credential. */
  lemma CorrectedHidesToken(c: Context)
    requires c.redactDump
    ensures AllShownHeadersRedacted(Main(c))
  {
    if EnvOk(c.env) {
      MainSafe(c);
    }
  }

  /** When the fetch's lookup fails, the run is that lookup's trace. */
  lemma LookupFailureEndsRun(c: Context)
    requires EnvOk(c.env) && !c.opts.dryrun && LookupId(c, c.opts.recordType).None?
    ensures Main(c) == GetRecordId(c, c.opts.recordType).trace
  {
    GetRecordIdValue(c, c.opts.recordType);
    MakeApiUrlFacts(c, c.opts.recordType);
  }

  /** As written, a refused lookup dumps the request headers with the
      credential in them. */
  lemma ErrorDumpShowsToken(c: Context)
    requires !c.redactDump && !c.opts.dryrun && EnvOk(c.env)
    requires !c.net.answer(GetRequest(LookupUrl(c.env), LookupQuery(c.opts.hostname, c.opts.recordType))).ok
    ensures ShowsToken(Main(c), Show(Getenv(c.env, TokenVar)))
  {
    LookupFailureEndsRun(c);
    var call := GetCall(LookupQuery(c.opts.hostname, c.opts.recordType));
    SendToDumps(c, call, LookupUrl(c.env));
    var e := Print(Stderr, RequestDumpOf(c, call, LookupUrl(c.env), AuthHeaders(c.env)));
    assert e in SendTo(c, call, LookupUrl(c.env)).trace;
    SendToValue(c, call, LookupUrl(c.env));
    assert e in GetRecordId(c, c.opts.recordType).trace;
  }

  /** A lookup that finds no record ends the run with an `IndexError`. */
  lemma EmptyLookupEndsRun(c: Context)
    requires EnvOk(c.env) && !c.opts.dryrun
    requires c.net.answer(GetRequest(LookupUrl(c.env), LookupQuery(c.opts.hostname, c.opts.recordType)))
             == Reply(true, RecordList([]))
    ensures Main(c)[|Main(c)| - 1] == Raise(IndexError)
  {
    LookupFailureEndsRun(c);
    EmptyLookupRaises(c, c.opts.recordType);
  }

  /** The run sends exactly one PUT when the environment is complete, this is
      not a dry run, the record's content is known and differs from this
      host's address, and the update's own lookup finds a record; that PUT
      carries the address to that record's URL with the real credential.
      Otherwise the run sends none. */
  lemma UpdateIffDiffer(c: Context)
    ensures var id := LookupId(c, UpdateLookupType(c));
            Puts(Main(c))
            == if EnvOk(c.env) && !c.opts.dryrun && RecordContent(c).Some?
                  && Resolved(c) != RecordContent(c).value && id.Some?
               then [UpdateEvent(c, id.value)] else []
  {
    if !EnvOk(c.env) {
      EnvFailFast(c);
      var a := Print(Stderr, MissingVariables(MissingVars(RequiredVars, c.env)));
      PutsOfTerminal([a], Exit(1));
      PutsOfOne(a);
    } else {
      var rec := GetRecordJson(c);
      GetRecordJsonPuts(c);
      GetRecordJsonValue(c);
      if rec.value.Some? {
        var body := rec.value.value;
        if body.RecordDetail? {
          ComparePuts(c, rec.trace, body.content);
        } else {
          PutsOfTerminal(rec.trace, Raise(ShapeError));
        }
      }
    }
  }

  /** With a complete environment and a known record content, `main` goes on
      to the comparison after the fetch. */
  lemma MainFetched(c: Context)
    requires EnvOk(c.env) && RecordContent(c).Some?
    ensures NoTerminal(GetRecordJson(c).trace)
    ensures Main(c) == Compare(c, GetRecordJson(c).trace, RecordContent(c).value)
  {
    GetRecordJsonValue(c);
  }

  /** After the record is fetched, the run exits with 0 exactly when the
      content already matches or the update goes through. */
  lemma CompareExit(c: Context, pre: seq<Event>, content: string)
    requires NoTerminal(pre)
    ensures var t := Compare(c, pre, content);
            t[|t| - 1] == Exit(0)
            <==> Resolved(c) == content || UpdateRecord(c, Resolved(c)).value.Some?
  {
    if Resolved(c) == content {
      CompareUnchanged(c, pre, content);
    } else if UpdateRecord(c, Resolved(c)).value.Some? {
      CompareUpdateAccepted(c, pre, content);
    } else {
      CompareUpdateRefused(c, pre, content);
    }
  }

  /** The run exits with status 0 exactly when it succeeds. */
  lemma ExitsZeroIffSucceeds(c: Context)
    ensures Main(c)[|Main(c)| - 1] == Exit(0) <==> Succeeds(c)
  {
    if !EnvOk(c.env) {
      EnvFailFast(c);
    } else {
      var rec := GetRecordJson(c);
      GetRecordJsonValue(c);
      if RecordContent(c).Some? {
        var content := RecordContent(c).value;
        MainFetched(c);
        CompareExit(c, rec.trace, content);
        UpdateRecordValue(c, Resolved(c));
      } else if rec.value.Some? {
        assert Main(c) == rec.trace + [Raise(ShapeError)];
      } else {
        assert Main(c) == rec.trace;
      }
    }
  }

  /** A successful run's last message says whether the record was already
      right or has been updated to this host's address. */
  lemma SuccessReport(c: Context)
    requires Succeeds(c)
    ensures |Main(c)| >= 2
    ensures var t := Main(c);
            && (Resolved(c) == RecordContent(c).value ==>
                  t[|t| - 2..] == [Print(Stdout, Text(UnchangedText)), Exit(0)])
            && (Resolved(c) != RecordContent(c).value ==>
                  t[|t| - 2..] == [Print(Stdout, Text(UpdatedText(c.opts.hostname, Resolved(c)))), Exit(0)])
  {
    var rec := GetRecordJson(c);
    var content := RecordContent(c).value;
    MainFetched(c);
    if Resolved(c) == content {
      CompareUnchanged(c, rec.trace, content);
    } else {
      UpdateRecordValue(c, Resolved(c));
      CompareUpdateAccepted(c, rec.trace, content);
    }
  }

  lemma UpdateRecordOffline(c: Context, content: string)
    requires c.opts.dryrun
    ensures Offline(UpdateRecord(c, content).trace)
  {
    UpdateRecordValue(c, content);
  }

  lemma CompareRestOffline(c: Context, content: string)
    requires c.opts.dryrun
    ensures Offline(CompareRest(c, content))
  {
    var u := UpdateRecord(c, Resolved(c)).trace;
    UpdateRecordOffline(c, Resolved(c));
    OfflineAppend(u, [Exit(0)]);
  }

  lemma CompareOffline(c: Context, content: string)
    requires c.opts.dryrun
    ensures Offline(Compare(c, [], content))
  {
    var lookup := ResolveAddress(c.opts, c.net).1;
    CompareIsRest(c, [], content);
    CompareRestOffline(c, content);
    OfflineAppend([] + lookup, CompareRest(c, content));
  }

  /** Nothing a dry run does reaches Cloudflare, and with a complete
      environment a dry run succeeds. */
  lemma DryRunOffline(c: Context)
    requires c.opts.dryrun
    ensures Offline(Main(c))
    ensures EnvOk(c.env) ==> Main(c)[|Main(c)| - 1] == Exit(0)
  {
    if !EnvOk(c.env) {
      EnvFailFast(c);
    } else {
      MainFetched(c);
      GetRecordJsonValue(c);
      CompareOffline(c, DryRunContent);
      ExitsZeroIffSucceeds(c);
    }
  }

  // ---------------------------------------------------------------------------
  // Credentials and the address override
  // ---------------------------------------------------------------------------

  /** Credentialed requests around at most the public-IP lookup. */
  lemma AroundLookup(c: Context, pre: seq<Event>, lookup: seq<Event>, rest: seq<Event>)
    requires Authenticated(c, pre) && Authenticated(c, rest)
    requires lookup == [] || lookup == [PublicIpLookup]
    ensures forall e | e in pre + lookup + rest :: e == PublicIpLookup || Credentialed(c, e)
    ensures PublicIpLookup in pre + lookup + rest <==> lookup != []
  {
    assert !Credentialed(c, PublicIpLookup);
  }

  /** What `main` adds after the fetch and the address lookup. */
  function CompareRest(c: Context, content: string): seq<Event> {
    var u := UpdateRecord(c, Resolved(c));
    if Resolved(c) == content then [Print(Stdout, Text(UnchangedText)), Exit(0)]
    else if u.value.None? then u.trace
    else u.trace + [Exit(0)]
  }

  lemma CompareIsRest(c: Context, pre: seq<Event>, content: string)
    requires NoTerminal(pre)
    ensures Compare(c, pre, content) == pre + ResolveAddress(c.opts, c.net).1 + CompareRest(c, content)
  {
    CompareTrace(c, pre, content);
    var u := UpdateRecord(c, Resolved(c)).trace;
    assert pre + ResolveAddress(c.opts, c.net).1 + u + [Exit(0)]
           == pre + ResolveAddress(c.opts, c.net).1 + (u + [Exit(0)]);
  }

  lemma CompareRestAuthenticated(c: Context, content: string)
    ensures Authenticated(c, CompareRest(c, content))
  {
    UpdateRecordSafe(c, Resolved(c));
    AuthenticatedAppend(c, UpdateRecord(c, Resolved(c)).trace, [Exit(0)]);
  }

  /** After the fetch, `main` adds the public-IP lookup, if it asks for one,
      and otherwise only requests with the real credential or no request. */
  lemma CompareAuthenticated(c: Context, pre: seq<Event>, content: string)
    requires NoTerminal(pre) && Authenticated(c, pre)
    ensures forall e | e in Compare(c, pre, content) :: e == PublicIpLookup || Credentialed(c, e)
    ensures PublicIpLookup in Compare(c, pre, content) <==> ResolveAddress(c.opts, c.net).1 != []
  {
    CompareIsRest(c, pre, content);
    CompareRestAuthenticated(c, content);
    AroundLookup(c, pre, ResolveAddress(c.opts, c.net).1, CompareRest(c, content));
  }

  /** Every request a run makes, other than the public-IP lookup, goes to
      Cloudflare with the real credential (the verbose log shows it
      redacted, see `HeaderLogsNeverShowToken`). */
  lemma RequestsCarryCredential(c: Context)
    ensures forall e | e in Main(c) :: e == PublicIpLookup || Credentialed(c, e)
  {
    if !EnvOk(c.env) {
      EnvFailFast(c);
    } else {
      var rec := GetRecordJson(c);
      GetRecordJsonSafe(c);
      if rec.value.Some? {
        var body := rec.value.value;
        if body.RecordDetail? {
          CompareAuthenticated(c, rec.trace, body.content);
        } else {
          AuthenticatedAppend(c, rec.trace, [Raise(ShapeError)]);
        }
      }
    }
  }

  /** Once the record's content is known, the run asks the public-IP service
      exactly when no non-empty `--ip-address` is given, and an update
      carries the given address, or else the service's stripped answer. */
  lemma AddressSource(c: Context)
    requires EnvOk(c.env) && RecordContent(c).Some?
    ensures var given := c.opts.ipAddress.Some? && c.opts.ipAddress.value != "";
            && (PublicIpLookup in Main(c) <==> !given)
            && forall e | e in Puts(Main(c)) ::
                 e.Put? && e.payload.content
                           == if given then c.opts.ipAddress.value else Strip(c.net.publicIpText)
  {
    var rec := GetRecordJson(c);
    MainFetched(c);
    GetRecordJsonSafe(c);
    CompareAuthenticated(c, rec.trace, RecordContent(c).value);
    UpdateIffDiffer(c);
  }

  // ---------------------------------------------------------------------------
  // The record type of the update
  // ---------------------------------------------------------------------------

  /** As written, the update looks its record up by type `A`. When another
      type was requested and the host has no `A` record, a run that needs an
      update fetches and compares the record, then dies with an `IndexError`
      without sending the update. */
  lemma UntypedUpdateMissesRecord(c: Context)
    requires !c.typedUpdate && EnvOk(c.env) && !c.opts.dryrun
    requires RecordContent(c).Some? && Resolved(c) != RecordContent(c).value
    requires c.net.answer(GetRequest(LookupUrl(c.env), LookupQuery(c.opts.hostname, "A")))
             == Reply(true, RecordList([]))
    ensures c.opts.recordType != "A"
    ensures Puts(Main(c)) == []
    ensures Main(c)[|Main(c)| - 1] == Raise(IndexError)
  {
    var rec := GetRecordJson(c);
    var pre := rec.trace + ResolveAddress(c.opts, c.net).1;
    UpdateIffDiffer(c);
    MainFetched(c);
    CompareTrace(c, rec.trace, RecordContent(c).value);
    UpdateLookupEmpty(c, Resolved(c));
    LastOfAppend(pre, UpdateRecord(c, Resolved(c)).trace);
  }

  /** As written, when another type was requested and the host also has an
      `A` record, the update sends the requested type's payload to the `A`
      record. */
  lemma UntypedUpdateRetargets(c: Context)
    requires !c.typedUpdate && EnvOk(c.env) && !c.opts.dryrun
    requires RecordContent(c).Some? && Resolved(c) != RecordContent(c).value
    requires LookupId(c, "A").Some?
    ensures Puts(Main(c))
            == [Put(RecordUrlOf(c, LookupId(c, "A").value), AuthHeaders(c.env),
                    UpdatePayload(c.opts, Resolved(c)), JsonBody)]
  {
    UpdateIffDiffer(c);
  }

  /** Corrected, the update goes to the very record the run fetched and
      compared, whatever its type. */
  lemma TypedUpdateTargetsFetchedRecord(c: Context)
    requires c.typedUpdate
    ensures Puts(Main(c))
            == if EnvOk(c.env) && !c.opts.dryrun && RecordContent(c).Some?
                  && Resolved(c) != RecordContent(c).value
               then [UpdateEvent(c, LookupId(c, c.opts.recordType).value)] else []
  {
    UpdateIffDiffer(c);
  }

  /** A host with only an `AAAA` record, updated with `--type AAAA` and
      `--ip-address 2001:db8::2` while the record holds `2001:db8::1`. */
  function AaaaOnlyHost(typedUpdate: bool): (c: Context)
    ensures c.opts.recordType == "AAAA" && c.typedUpdate == typedUpdate
  {
    var opts := Options("host.example.com", Some("2001:db8::2"), TtlSeconds(3600), "AAAA", false, false);
    var env := map[TokenVar := "token", ZoneVar := "zone"];
    var answer := (req: Request) =>
      if req.PutRequest? then Reply(true, OtherJson)
      else if req.query == [] then Reply(true, RecordDetail("2001:db8::1"))
      else if req.query == LookupQuery("host.example.com", "AAAA") then Reply(true, RecordList(["aaaa-id"]))
      else Reply(true, RecordList([]));
    Context(opts, env, Net("", answer), false, typedUpdate)
  }

  /** What the network says about that host. */
  lemma AaaaOnlyHostFacts(typedUpdate: bool)
    ensures var c := AaaaOnlyHost(typedUpdate);
            && EnvOk(c.env) && !c.opts.dryrun
            && c.net.answer(GetRequest(LookupUrl(c.env), LookupQuery(c.opts.hostname, "A")))
               == Reply(true, RecordList([]))
            && LookupId(c, "AAAA") == Some("aaaa-id")
            && RecordContent(c) == Some("2001:db8::1")
            && Resolved(c) == "2001:db8::2"
  {
    var c := AaaaOnlyHost(typedUpdate);
    assert LookupQuery(c.opts.hostname, "A") != LookupQuery("host.example.com", "AAAA") by {
      assert LookupQuery(c.opts.hostname, "A")[0].1 == "A";
    }
  }

  /** On that host the script as written sends no update and dies with an
      `IndexError`, while the corrected script updates the `AAAA` record. */
  lemma AaaaOnlyHostExample()
    ensures var c := AaaaOnlyHost(false);
            Puts(Main(c)) == [] && Main(c)[|Main(c)| - 1] == Raise(IndexError)
    ensures var c := AaaaOnlyHost(true);
            Puts(Main(c)) == [UpdateEvent(c, "aaaa-id")]
  {
    AaaaOnlyHostFacts(false);
    AaaaOnlyHostFacts(true);
    UntypedUpdateMissesRecord(AaaaOnlyHost(false));
    TypedUpdateTargetsFetchedRecord(AaaaOnlyHost(true));
  }
}

/**
 ddns/cloudflare/update-dns-record.py, the older revision of the Cloudflare
 updater: the record is named by the environment (zone and record
 identifiers), the script compares this host's public address with the
 record's content and, when they differ, replaces the record with the content
 given on the command line.

 Unlike the current revision it needs three variables, always asks for the
 public address first, sends the update as form fields without `proxied`,
 logs the headers unredacted, and prints replies with `'...' + res.json()`,
 which only a JSON string survives.
 */
module CloudflareDnsLegacy {
  import opened Wrappers
  import opened PyStr
  import opened DnsTrace

  const RequiredVars := [TokenVar, ZoneVar, RecordVar]

  function GetErrorText(hostname: string): string {
    "ERROR: could not get DNS record for " + hostname
  }

  function UpdateErrorText(hostname: string): string {
    "ERROR: could not update DNS record for " + hostname
  }

  /** The arguments `main` receives. */
  datatype Options = Options(content: string, hostname: string, ttl: Ttl,
                             recordType: string, dryrun: bool, verbose: bool)

  /** Everything one run depends on. */
  datatype Context = Context(opts: Options, env: Env, net: Net)

  // ---------------------------------------------------------------------------
  // The script's functions
  // ---------------------------------------------------------------------------

  /** The one record both requests address:
      `API_ENDPOINT/zones/<CF_DNS_ZONE_ID>/dns_records/<CF_DNS_RECORD_ID>`. */
  function TargetUrl(env: Env): (url: string) {
    RecordUrl(Show(Getenv(env, ZoneVar)), Show(Getenv(env, RecordVar)))
  }

  /** The verbose header log: the headers exactly as sent. */
  function HeaderLogOf(env: Env, verbose: bool): (log: seq<Event>) {
    if verbose then [Print(Stdout, HeaderLog(AuthHeaders(env)))] else []
  }

  /** The form fields of the update. */
  function UpdatePayload(opts: Options): (p: Payload) {
    Payload(opts.recordType, opts.hostname, opts.content, opts.ttl, None)
  }

  /** `print('Repsonse:\n' + res.json())`: only a reply whose JSON is a string
      can be appended to a string; any other JSON raises a `TypeError`, and a
      body that is not JSON fails to decode. */
  function DumpReply(t: seq<Event>, body: Body, stream: Stream): (r: Run<()>)
    requires NoTerminal(t)
    ensures ValidRun(r)
    ensures r.value.Some? <==> body.JsonText?
    ensures r.value.Some? ==> r.trace == t + [Print(stream, ResponseDump(body))]
    ensures r.value.None? ==> r.trace == t + [Raise(if body.NotJson? then JsonDecodeError else ConcatTypeError)]
  {
    match body
    case JsonText(_) => Done(t + [Print(stream, ResponseDump(body))], ())
    case NotJson => Crash(t, Raise(JsonDecodeError))
    case _ => Crash(t, Raise(ConcatTypeError))
  }

  /** A reply that is not ok: dump it on stderr, then `sys.exit(message)`. */
  function Refused<T>(t: seq<Event>, body: Body, message: string): (r: Run<T>)
    requires NoTerminal(t)
    ensures ValidRun(r) && r.value.None?
    ensures body.JsonText? ==>
              r.trace == t + [Print(Stderr, ResponseDump(body)), Print(Stderr, Text(message)), Exit(1)]
  {
    var d := DumpReply(t, body, Stderr);
    if d.value.None? then Halt(d.trace)
    else
      var said := d.trace + [Print(Stderr, Text(message))];
      assert said + [Exit(1)] == t + [Print(Stderr, ResponseDump(body)), Print(Stderr, Text(message)), Exit(1)];
      Crash(said, Exit(1))
  }

  /** `res.json()['result']['content']`. */
  function ContentOf(t: seq<Event>, body: Body): (r: Run<string>)
    requires NoTerminal(t)
    ensures ValidRun(r)
    ensures r.value.Some? <==> body.RecordDetail?
    ensures r.value.Some? ==> r.trace == t && r.value.value == body.content
  {
    match body
    case RecordDetail(content) => Done(t, content)
    case NotJson => Crash(t, Raise(JsonDecodeError))
    case _ => Crash(t, Raise(ShapeError))
  }

  /** `get_ip_from_record`: `127.0.0.1` in a dry run, else the content of the
      record fetched from `TargetUrl`. */
  function GetIpFromRecord(c: Context): (r: Run<string>)
    ensures ValidRun(r)
  {
    var url := TargetUrl(c.env);
    var log := HeaderLogOf(c.env, c.opts.verbose);
    if c.opts.dryrun then Done(log, DryRunContent)
    else
      var t := log + [Get(url, [], Some(AuthHeaders(c.env)))];
      var reply := c.net.answer(GetRequest(url, []));
      if !reply.ok then Refused(t, reply.body, GetErrorText(c.opts.hostname))
      else if c.opts.verbose then
        var d := DumpReply(t, reply.body, Stdout);
        if d.value.None? then Halt(d.trace) else ContentOf(d.trace, reply.body)
      else ContentOf(t, reply.body)
  }

  /** `update_record`: PUT the command-line content as form fields. */
  function UpdateRecord(c: Context): (r: Run<()>)
    ensures ValidRun(r)
  {
    var url := TargetUrl(c.env);
    var log := HeaderLogOf(c.env, c.opts.verbose);
    if c.opts.dryrun then Done(log, ())
    else
      var t := log + [Put(url, AuthHeaders(c.env), UpdatePayload(c.opts), FormBody)];
      var reply := c.net.answer(PutRequest(url, UpdatePayload(c.opts)));
      if !reply.ok then Refused(t, reply.body, UpdateErrorText(c.opts.hostname))
      else if c.opts.verbose then DumpReply(t, reply.body, Stdout)
      else Done(t, ())
  }

  /** `current_public_ip()`. */
  function MyIp(c: Context): (ip: string) {
    Strip(c.net.publicIpText)
  }

  /** The end of `main` once the record's address is known: update only when
      it differs from this host's; returning from `main` exits with 0. */
  function Finish(c: Context, pre: seq<Event>, recordIp: string): (t: seq<Event>)
    requires NoTerminal(pre)
    ensures Terminated(t)
  {
    if MyIp(c) != recordIp then
      var u := UpdateRecord(c);
      if u.value.None? then
        TerminatedAppend(pre, u.trace);
        pre + u.trace
      else
        assert NoTerminal(pre + u.trace);
        TerminatedEnd(pre + u.trace, Exit(0));
        pre + u.trace + [Exit(0)]
    else
      TerminatedEnd(pre, Exit(0));
      pre + [Exit(0)]
  }

  /** `main`: check the environment, ask for the public address, read the
      record, and update it when the two differ. */
  function Main(c: Context): (t: seq<Event>)
    ensures Terminated(t)
  {
    var check := AssertEnvVars(RequiredVars, c.env);
    if check.value.None? then check.trace
    else
      var rec := GetIpFromRecord(c);
      if rec.value.None? then
        TerminatedAppend([PublicIpLookup], rec.trace);
        [PublicIpLookup] + rec.trace
      else
        assert NoTerminal([PublicIpLookup] + rec.trace);
        Finish(c, [PublicIpLookup] + rec.trace, rec.value.value)
  }

  // ---------------------------------------------------------------------------
  // What a run observes, described independently of the script's structure
  // ---------------------------------------------------------------------------

  /** All three required variables are set and non-empty. */
  predicate EnvOk(env: Env) {
    forall v | v in RequiredVars :: IsSet(env, v)
  }

  function RecordReply(c: Context): Reply {
    c.net.answer(GetRequest(TargetUrl(c.env), []))
  }

  function UpdateReply(c: Context): Reply {
    c.net.answer(PutRequest(TargetUrl(c.env), UpdatePayload(c.opts)))
  }

  /** The record content a run manages to read: `127.0.0.1` in a dry run; else
      the content of an ok single-record reply, and never in verbose mode,
      where printing the reply raises first. */
  function RecordIp(c: Context): Option<string> {
    if c.opts.dryrun then Some(DryRunContent)
    else
      var reply := RecordReply(c);
      if reply.ok && !c.opts.verbose && reply.body.RecordDetail?
      then Some(reply.body.content) else None
  }

  /** The update goes through: a dry run, or an ok reply that (in verbose
      mode) is a JSON string. */
  predicate UpdateAccepted(c: Context) {
    var reply := UpdateReply(c);
    c.opts.dryrun || (reply.ok && (!c.opts.verbose || reply.body.JsonText?))
  }

  /** The one PUT a run can send. */
  function UpdateEvent(c: Context): Event {
    Put(TargetUrl(c.env), AuthHeaders(c.env), UpdatePayload(c.opts), FormBody)
  }

  /** The record GET a run can send. */
  function FetchEvent(c: Context): Event {
    Get(TargetUrl(c.env), [], Some(AuthHeaders(c.env)))
  }

  /** The run ends well: the environment is complete, the record is read,
      and either it already matches this host's address or the update goes
      through. */
  predicate Succeeds(c: Context) {
    && EnvOk(c.env)
    && RecordIp(c).Some?
    && (MyIp(c) == RecordIp(c).value || UpdateAccepted(c))
  }

  /** Every request goes to the public-IP service or to the record at
      `TargetUrl`, and every PUT is the update. */
  predicate Addressed(c: Context, t: seq<Event>) {
    forall e | e in t :: (e.Get? ==> e == PublicIpLookup || e == FetchEvent(c))
                         && (e.Put? ==> e == UpdateEvent(c))
  }

  lemma AddressedAppend(c: Context, a: seq<Event>, b: seq<Event>)
    requires Addressed(c, a) && Addressed(c, b)
    ensures Addressed(c, a + b)
  {
  }

  // ---------------------------------------------------------------------------
  // get_ip_from_record and update_record
  // ---------------------------------------------------------------------------

  /** `get_ip_from_record` yields exactly the content described by
      `RecordIp`, and in a dry run sends nothing. */
  lemma GetIpValue(c: Context)
    ensures GetIpFromRecord(c).value == RecordIp(c)
    ensures c.opts.dryrun ==> GetIpFromRecord(c).trace == HeaderLogOf(c.env, c.opts.verbose)
  {
  }

  lemma DumpReplyExtends(t: seq<Event>, body: Body, stream: Stream)
    requires NoTerminal(t)
    ensures Extends(DumpReply(t, body, stream).trace, t)
  {
    if body.JsonText? {
      ExtendsBy(t, [Print(stream, ResponseDump(body))]);
    } else {
      ExtendsBy(t, [Raise(if body.NotJson? then JsonDecodeError else ConcatTypeError)]);
    }
  }

  lemma RefusedExtends<T>(t: seq<Event>, body: Body, message: string)
    requires NoTerminal(t)
    ensures Extends(Refused<T>(t, body, message).trace, t)
  {
    if body.JsonText? {
      ExtendsBy(t, [Print(Stderr, ResponseDump(body)), Print(Stderr, Text(message)), Exit(1)]);
    } else {
      DumpReplyExtends(t, body, Stderr);
    }
  }

  lemma ContentOfExtends(t: seq<Event>, body: Body)
    requires NoTerminal(t)
    ensures Extends(ContentOf(t, body).trace, t)
  {
    if body.RecordDetail? {
      ExtendsBy(t, []);
    } else {
      ExtendsBy(t, [Raise(if body.NotJson? then JsonDecodeError else ShapeError)]);
    }
  }

  /** After the request itself, `get_ip_from_record` only prints, raises or
      exits. */
  lemma GetIpShape(c: Context)
    requires !c.opts.dryrun
    ensures Extends(GetIpFromRecord(c).trace, HeaderLogOf(c.env, c.opts.verbose) + [FetchEvent(c)])
  {
    var t := HeaderLogOf(c.env, c.opts.verbose) + [FetchEvent(c)];
    var reply := RecordReply(c);
    if !reply.ok {
      RefusedExtends<string>(t, reply.body, GetErrorText(c.opts.hostname));
    } else if c.opts.verbose {
      var d := DumpReply(t, reply.body, Stdout);
      DumpReplyExtends(t, reply.body, Stdout);
      if d.value.Some? {
        ContentOfExtends(d.trace, reply.body);
        ExtendsTrans(GetIpFromRecord(c).trace, d.trace, t);
      }
    } else {
      ContentOfExtends(t, reply.body);
    }
  }

  /** After the request itself, `update_record` only prints, raises or
      exits. */
  lemma UpdateRecordShape(c: Context)
    requires !c.opts.dryrun
    ensures Extends(UpdateRecord(c).trace, HeaderLogOf(c.env, c.opts.verbose) + [UpdateEvent(c)])
  {
    var t := HeaderLogOf(c.env, c.opts.verbose) + [UpdateEvent(c)];
    var reply := UpdateReply(c);
    if !reply.ok {
      RefusedExtends<()>(t, reply.body, UpdateErrorText(c.opts.hostname));
    } else if c.opts.verbose {
      DumpReplyExtends(t, reply.body, Stdout);
    } else {
      ExtendsBy(t, []);
    }
  }

  /** A trace made of `pre`, then events that send nothing. */
  lemma SplitTrace(c: Context, r: seq<Event>, pre: seq<Event>)
    requires Extends(r, pre)
    requires Addressed(c, pre)
    ensures Addressed(c, r)
    ensures Puts(r) == Puts(pre)
  {
    var x := r[|pre|..];
    assert r == pre + x;
    AddressedAppend(c, pre, x);
    PutsAppend(pre, x);
    assert NoPut(x);
    NoPutsIsEmpty(x);
  }

  /** `get_ip_from_record` sends at most the record GET, and no PUT. */
  lemma GetIpAddressed(c: Context)
    ensures Addressed(c, GetIpFromRecord(c).trace)
    ensures Puts(GetIpFromRecord(c).trace) == []
  {
    var r := GetIpFromRecord(c).trace;
    var log := HeaderLogOf(c.env, c.opts.verbose);
    assert NoPut(log);
    NoPutsIsEmpty(log);
    if !c.opts.dryrun {
      var t := log + [FetchEvent(c)];
      GetIpShape(c);
      PutsAppend(log, [FetchEvent(c)]);
      PutsOfOne(FetchEvent(c));
      SplitTrace(c, r, t);
    }
  }

  /** `update_record` succeeds exactly when the update is accepted. */
  lemma UpdateRecordValue(c: Context)
    ensures UpdateRecord(c).value.Some? <==> UpdateAccepted(c)
    ensures c.opts.dryrun ==> UpdateRecord(c).trace == HeaderLogOf(c.env, c.opts.verbose)
  {
  }

  /** `update_record` sends the update unless this is a dry run, and nothing
      else. */
  lemma UpdateRecordPuts(c: Context)
    ensures Addressed(c, UpdateRecord(c).trace)
    ensures Puts(UpdateRecord(c).trace) == if c.opts.dryrun then [] else [UpdateEvent(c)]
  {
    var r := UpdateRecord(c).trace;
    var log := HeaderLogOf(c.env, c.opts.verbose);
    assert NoPut(log);
    NoPutsIsEmpty(log);
    if !c.opts.dryrun {
      var t := log + [UpdateEvent(c)];
      UpdateRecordShape(c);
      PutsAppend(log, [UpdateEvent(c)]);
      PutsOfOne(UpdateEvent(c));
      SplitTrace(c, r, t);
    }
  }

  // ---------------------------------------------------------------------------
  // main
  // ---------------------------------------------------------------------------

  /** The events `main` adds once the record's address is known. */
  lemma FinishTrace(c: Context, pre: seq<Event>, recordIp: string)
    requires NoTerminal(pre)
    ensures var u := UpdateRecord(c);
            Finish(c, pre, recordIp)
            == if MyIp(c) == recordIp then pre + [Exit(0)]
               else if u.value.None? then pre + u.trace
               else pre + u.trace + [Exit(0)]
  {
  }

  /** With a complete environment and a readable record, `main` goes on to
      the comparison. */
  lemma MainFetched(c: Context)
    requires EnvOk(c.env) && RecordIp(c).Some?
    ensures NoTerminal([PublicIpLookup] + GetIpFromRecord(c).trace)
    ensures Main(c) == Finish(c, [PublicIpLookup] + GetIpFromRecord(c).trace, RecordIp(c).value)
  {
    GetIpValue(c);
  }

  /** With a complete environment and no readable record, the run ends with
      reading it. */
  lemma MainUnfetched(c: Context)
    requires EnvOk(c.env) && RecordIp(c).None?
    ensures Main(c) == [PublicIpLookup] + GetIpFromRecord(c).trace
  {
    GetIpValue(c);
  }

  /** When the environment check fails nothing else happens. */
  lemma EnvFailFast(c: Context)
    requires !EnvOk(c.env)
    ensures Main(c) == [Print(Stderr, MissingVariables(MissingVars(RequiredVars, c.env))), Exit(1)]
  {
  }

  /** Every request of a run goes to the public-IP service or to the one
      record named by the environment, and the only PUT is the update with
      the command-line content. */
  lemma MainAddressed(c: Context)
    ensures Addressed(c, Main(c))
  {
    if EnvOk(c.env) {
      var rec := GetIpFromRecord(c);
      GetIpAddressed(c);
      AddressedAppend(c, [PublicIpLookup], rec.trace);
      if RecordIp(c).Some? {
        var pre := [PublicIpLookup] + rec.trace;
        MainFetched(c);
        FinishTrace(c, pre, RecordIp(c).value);
        if MyIp(c) != RecordIp(c).value {
          var u := UpdateRecord(c);
          UpdateRecordPuts(c);
          AddressedAppend(c, pre, u.trace);
          AddressedAppend(c, pre + u.trace, [Exit(0)]);
        } else {
          AddressedAppend(c, pre, [Exit(0)]);
        }
      } else {
        MainUnfetched(c);
      }
    } else {
      EnvFailFast(c);
    }
  }

  /** A run sends the update exactly when the environment is complete, this
      is not a dry run, the record is read and its content differs from this
      host's address. */
  lemma UpdateIffDiffer(c: Context)
    ensures Puts(Main(c))
            == if EnvOk(c.env) && !c.opts.dryrun && RecordIp(c).Some? && MyIp(c) != RecordIp(c).value
               then [UpdateEvent(c)] else []
  {
    if !EnvOk(c.env) {
      EnvFailFast(c);
      var a := Print(Stderr, MissingVariables(MissingVars(RequiredVars, c.env)));
      PutsOfTerminal([a], Exit(1));
      PutsOfOne(a);
    } else {
      var rec := GetIpFromRecord(c);
      var pre := [PublicIpLookup] + rec.trace;
      assert Puts(pre) == [] by {
        GetIpAddressed(c);
        PutsAppend([PublicIpLookup], rec.trace);
        PutsOfOne(PublicIpLookup);
      }
      if RecordIp(c).Some? {
        MainFetched(c);
        FinishTrace(c, pre, RecordIp(c).value);
        if MyIp(c) != RecordIp(c).value {
          var u := UpdateRecord(c);
          UpdateRecordPuts(c);
          PutsAppend(pre, u.trace);
          if u.value.Some? {
            PutsOfTerminal(pre + u.trace, Exit(0));
          }
        } else {
          PutsOfTerminal(pre, Exit(0));
        }
      } else {
        MainUnfetched(c);
      }
    }
  }

  /** The update carries the content given on the command line, not the
      address it was compared with, is sent as form fields and leaves
      `proxied` unset. */
  lemma UpdateCarriesCliContent(c: Context)
    ensures forall e | e in Main(c) && e.Put? ::
              && e.payload.content == c.opts.content
              && e.payload.proxied.None?
              && e.encoding == FormBody
              && e.url == TargetUrl(c.env)
  {
    MainAddressed(c);
  }

  /** A run whose record holds `192.0.2.1`, on a host at `198.51.100.1`, given
      `--content 203.0.113.7`, writes `203.0.113.7` into the record: a
      content that matches neither side of the comparison. */
  lemma UpdateIgnoresComparedAddress()
    ensures var c := Context(Options("203.0.113.7", "host.example", TtlSeconds(3600), "A", false, false),
                             map[TokenVar := "t", ZoneVar := "z", RecordVar := "r"],
                             Net("198.51.100.1", req => Reply(true, RecordDetail("192.0.2.1"))));
            && Puts(Main(c)) == [UpdateEvent(c)]
            && UpdateEvent(c).payload.content != MyIp(c)
            && UpdateEvent(c).payload.content != RecordIp(c).value
  {
    var c := Context(Options("203.0.113.7", "host.example", TtlSeconds(3600), "A", false, false),
                     map[TokenVar := "t", ZoneVar := "z", RecordVar := "r"],
                     Net("198.51.100.1", req => Reply(true, RecordDetail("192.0.2.1"))));
    assert EnvOk(c.env);
    assert MyIp(c) == "198.51.100.1" by {
      StripOfTrimmed("198.51.100.1");
    }
    UpdateIffDiffer(c);
  }

  /** The run exits with status 0 exactly when it succeeds. */
  lemma ExitsZeroIffSucceeds(c: Context)
    ensures Main(c)[|Main(c)| - 1] == Exit(0) <==> Succeeds(c)
  {
    if !EnvOk(c.env) {
      EnvFailFast(c);
    } else {
      var rec := GetIpFromRecord(c);
      var pre := [PublicIpLookup] + rec.trace;
      if RecordIp(c).Some? {
        MainFetched(c);
        FinishTrace(c, pre, RecordIp(c).value);
        UpdateRecordValue(c);
        if MyIp(c) != RecordIp(c).value && UpdateRecord(c).value.None? {
          LastOfAppend(pre, UpdateRecord(c).trace);
        }
      } else {
        MainUnfetched(c);
        LastOfAppend([PublicIpLookup], rec.trace);
      }
    }
  }

  /** In verbose mode a run that sends requests never gets past reading the
      record: printing the reply raises, so nothing is updated and the run
      fails. */
  lemma VerboseNeverUpdates(c: Context)
    requires c.opts.verbose && !c.opts.dryrun
    ensures Puts(Main(c)) == []
    ensures Main(c)[|Main(c)| - 1] != Exit(0)
  {
    UpdateIffDiffer(c);
    ExitsZeroIffSucceeds(c);
  }

  /** A record read that Cloudflare refuses ends the run before any
      update. */
  lemma FetchRefusedEndsRun(c: Context)
    requires EnvOk(c.env) && !c.opts.dryrun && !RecordReply(c).ok
    ensures Puts(Main(c)) == []
    ensures Main(c)[|Main(c)| - 1] != Exit(0)
  {
    UpdateIffDiffer(c);
    ExitsZeroIffSucceeds(c);
  }

  /** `'Repsonse:\n' + res.json()` on a refused read: unless the reply's
      JSON is a string, the run raises there (a `TypeError`, or a decode
      error when the body is not JSON) and never prints its error message. */
  lemma FetchRefusedRaises(c: Context)
    requires EnvOk(c.env) && !c.opts.dryrun && !RecordReply(c).ok && !RecordReply(c).body.JsonText?
    ensures Main(c)[|Main(c)| - 1]
            == Raise(if RecordReply(c).body.NotJson? then JsonDecodeError else ConcatTypeError)
    ensures Print(Stderr, Text(GetErrorText(c.opts.hostname))) !in Main(c)
  {
    MainUnfetched(c);
    var t := HeaderLogOf(c.env, c.opts.verbose) + [FetchEvent(c)];
    assert GetIpFromRecord(c).trace == DumpReply(t, RecordReply(c).body, Stderr).trace;
  }

  /** When the refusal's JSON is a string, the run prints it and the script's
      error message, and exits with status 1. */
  lemma FetchRefusedMessage(c: Context)
    requires EnvOk(c.env) && !c.opts.dryrun && !RecordReply(c).ok && RecordReply(c).body.JsonText?
    ensures Main(c) == [PublicIpLookup] + HeaderLogOf(c.env, c.opts.verbose)
                       + [FetchEvent(c), Print(Stderr, ResponseDump(RecordReply(c).body)),
                          Print(Stderr, Text(GetErrorText(c.opts.hostname))), Exit(1)]
  {
    var log := HeaderLogOf(c.env, c.opts.verbose);
    var x := [FetchEvent(c), Print(Stderr, ResponseDump(RecordReply(c).body)),
              Print(Stderr, Text(GetErrorText(c.opts.hostname))), Exit(1)];
    FetchRefusedTrace(c);
    MainUnfetched(c);
    assert [PublicIpLookup] + (log + x) == [PublicIpLookup] + log + x;
  }

  lemma FetchRefusedTrace(c: Context)
    requires !c.opts.dryrun && !RecordReply(c).ok && RecordReply(c).body.JsonText?
    ensures GetIpFromRecord(c).trace
            == HeaderLogOf(c.env, c.opts.verbose)
               + [FetchEvent(c), Print(Stderr, ResponseDump(RecordReply(c).body)),
                  Print(Stderr, Text(GetErrorText(c.opts.hostname))), Exit(1)]
  {
    var log := HeaderLogOf(c.env, c.opts.verbose);
    assert GetIpFromRecord(c) == Refused<string>(log + [FetchEvent(c)], RecordReply(c).body, GetErrorText(c.opts.hostname));
  }

  /** A refused update whose JSON is a string: the run looks up the public
      address, reads the record (the GET alone), then sends the update, prints
      the reply and the script's error message, and exits with status 1. */
  lemma UpdateRefusedMessage(c: Context)
    requires EnvOk(c.env) && !c.opts.dryrun && RecordIp(c).Some? && MyIp(c) != RecordIp(c).value
    requires !UpdateReply(c).ok && UpdateReply(c).body.JsonText?
    ensures Main(c) == [PublicIpLookup] + GetIpFromRecord(c).trace + UpdateRecord(c).trace
    ensures GetIpFromRecord(c).trace == [FetchEvent(c)]
    ensures UpdateRecord(c).trace
            == [UpdateEvent(c), Print(Stderr, ResponseDump(UpdateReply(c).body)),
                Print(Stderr, Text(UpdateErrorText(c.opts.hostname))), Exit(1)]
  {
    UpdateRecordValue(c);
    MainRefusedUpdate(c);
    GetIpQuiet(c);
    UpdateRefusedTrace(c);
  }

  /** A run whose update does not go through ends with the update's
      events. */
  lemma MainRefusedUpdate(c: Context)
    requires EnvOk(c.env) && RecordIp(c).Some? && MyIp(c) != RecordIp(c).value
    requires UpdateRecord(c).value.None?
    ensures Main(c) == [PublicIpLookup] + GetIpFromRecord(c).trace + UpdateRecord(c).trace
  {
    MainFetched(c);
    FinishTrace(c, [PublicIpLookup] + GetIpFromRecord(c).trace, RecordIp(c).value);
  }

  /** A record read that succeeds outside a dry run is the GET alone. */
  lemma GetIpQuiet(c: Context)
    requires !c.opts.dryrun && RecordIp(c).Some?
    ensures GetIpFromRecord(c).trace == [FetchEvent(c)]
  {
    assert HeaderLogOf(c.env, c.opts.verbose) == [];
  }

  lemma UpdateRefusedTrace(c: Context)
    requires !c.opts.dryrun && !c.opts.verbose
    requires !UpdateReply(c).ok && UpdateReply(c).body.JsonText?
    ensures UpdateRecord(c).trace
            == [UpdateEvent(c), Print(Stderr, ResponseDump(UpdateReply(c).body)),
                Print(Stderr, Text(UpdateErrorText(c.opts.hostname))), Exit(1)]
  {
    var t := HeaderLogOf(c.env, c.opts.verbose) + [UpdateEvent(c)];
    assert t == [UpdateEvent(c)];
    assert UpdateRecord(c).trace == Refused<()>(t, UpdateReply(c).body, UpdateErrorText(c.opts.hostname)).trace;
  }

  /** With a complete environment, a run starts with the public-IP lookup
      and the record read. */
  lemma MainStarts(c: Context)
    requires EnvOk(c.env)
    ensures [PublicIpLookup] + GetIpFromRecord(c).trace <= Main(c)
  {
    var pre := [PublicIpLookup] + GetIpFromRecord(c).trace;
    if RecordIp(c).Some? {
      MainFetched(c);
      FinishTrace(c, pre, RecordIp(c).value);
    } else {
      MainUnfetched(c);
    }
  }

  /** The verbose header log shows the credential. */
  lemma VerboseShowsToken(c: Context)
    requires c.opts.verbose && EnvOk(c.env)
    ensures ShowsToken(Main(c), Show(Getenv(c.env, TokenVar)))
  {
    var rec := GetIpFromRecord(c).trace;
    var shown := Print(Stdout, HeaderLog(AuthHeaders(c.env)));
    assert |rec| > 0 && rec[0] == shown by {
      if c.opts.dryrun {
        GetIpValue(c);
      } else {
        GetIpShape(c);
        assert rec[0] == rec[..|HeaderLogOf(c.env, c.opts.verbose) + [FetchEvent(c)]|][0];
      }
    }
    MainStarts(c);
    assert Main(c)[1] == ([PublicIpLookup] + rec)[1] == shown;
  }

  /** A dry run sends nothing to Cloudflare and, with a complete environment,
      succeeds. */
  lemma DryRunOffline(c: Context)
    requires c.opts.dryrun
    ensures Offline(Main(c))
    ensures EnvOk(c.env) ==> Main(c)[|Main(c)| - 1] == Exit(0)
  {
    if EnvOk(c.env) {
      var rec := GetIpFromRecord(c);
      var pre := [PublicIpLookup] + rec.trace;
      GetIpValue(c);
      UpdateRecordValue(c);
      assert Offline(pre);
      MainFetched(c);
      FinishTrace(c, pre, DryRunContent);
      if MyIp(c) != DryRunContent {
        var u := UpdateRecord(c);
        OfflineAppend(pre, u.trace);
        OfflineAppend(pre + u.trace, [Exit(0)]);
      } else {
        OfflineAppend(pre, [Exit(0)]);
      }
    } else {
      EnvFailFast(c);
    }
  }
}

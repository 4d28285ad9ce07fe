# lindhe/scripts in Dafny

A model of four small Python scripts from the `lindhe/scripts` repository,
together with proofs about them:

- **make-title** (`textmod/make-title.py`) centres a line of text between two
  runs of a decoration string, the "garment", with a margin of spaces on each
  side.
- **update_dns_record** (`ddns/cloudflare/update_dns_record.py`) is the
  current Cloudflare dynamic-DNS updater. It looks up the record identifier
  by hostname and the requested type, then fetches the record. It compares
  the record's content with this host's address and sends a PUT when the two
  differ. The PUT looks the identifier up again, and that second lookup asks
  for type `A` whatever type was requested (see "Findings").
- **update-dns-record** (`ddns/cloudflare/update-dns-record.py`) is the
  older revision of the same updater. The zone and the record come from the
  environment. It always asks for the public address, and it writes the
  content given on the command line.
- **monman** (`laptop/monman.py`) builds the argument vector it hands to
  `xrandr`. It can switch on the connected monitors of a layout file, or
  switch off every external output. With no action flag it computes the
  connected monitors, and prints them only with `-v`. It also checks whether
  a given monitor is connected.

Files:

| file | module | contents |
|---|---|---|
| `wrappers.dfy` | `Wrappers` | `Option` and `Result` |
| `pystr.dfy` | `PyStr` | Python's `str.isspace` on ASCII, `strip`, `split()`, and `s * n` |
| `string_order.dfy` | `StringOrder` | Python's ordering of `str` values, and `sorted()` as an insertion sort |
| `make_title.dfy` | `MakeTitle` | `make_title` |
| `dns_trace.dfy` | `DnsTrace` | the environment, headers, URLs and replies both DNS updaters share, and the event trace of a run |
| `dns_current.dfy` | `CloudflareDns` | `update_dns_record.py` |
| `dns_legacy.dfy` | `CloudflareDnsLegacy` | `update-dns-record.py` |
| `monman.dfy` | `Monman` | `monman.py` |

A run of a DNS updater is a pure function of three inputs:

- the options;
- the environment, as a finite map;
- a network oracle: the text the public-IP service returns, and Cloudflare's
  reply to each request.

The function's result is the run's trace of events: GETs, PUTs, printed
messages, and the final `sys.exit` or uncaught exception. Printed messages
are structured values, such as a header log or a request dump. That makes
"the credential is never shown" a statement about header values, not a
search for substrings.

The current updater's model has two flags, each selecting one correction
(see "Findings"). With both false, `Main` is the script as written.

- `redactDump`: the error dump censors the request headers, like the verbose
  header log already does.
- `typedUpdate`: the update looks its record up by the requested type, like
  the fetch does.

The monman model takes the output of `xrandr --query` already parsed. It is
given as the primary monitors, the other connected monitors and the external
outputs, each in query order. `activate` reads the name `direction`, which
nothing defines. So it fails with a `NameError` when a connected monitor
sits after the first position of its layout group. The model returns that
failure as an outcome: `Crashed(UndefinedDirection(name))`.

The model follows the code in these details, some of which are easy to
assume otherwise:

- A dry run of the current updater still makes the public-IP GET, unless
  `--ip-address` is given. A dry run of the legacy updater always makes it.
  Neither sends anything to Cloudflare in a dry run (`DryRunOffline`).
- When the lookup finds several records, the first is taken and nothing
  else happens: there is no warning. When it finds none, the script raises
  an `IndexError` (`EmptyLookupEndsRun`).
- A refused request makes the current updater exit with the fixed message
  "ERROR: got an error when sending request.".
- The legacy updater prints a refused reply with `'Repsonse:\n' +
  res.json()`. Only a reply whose JSON is a string survives that. In that
  case the run then exits with the message naming the hostname
  (`FetchRefusedMessage`, `UpdateRefusedMessage`). Any other body raises
  first. The same expression on the verbose success path means a verbose,
  non-dry run of the legacy updater never gets past reading the record
  (`VerboseNeverUpdates`).
- There is no `--timeout` option, and `--verbose` is a plain flag.

## Model

| member | source | states |
|---|---|---|
| PyStr.StripSlice | textmod/make-title.py:33 | `strip()` returns the slice of its input between the leading and the trailing whitespace, and the result neither starts nor ends with whitespace |
| PyStr.StripOfTrimmed | textmod/make-title.py:33 | a string with no whitespace at either end is its own `strip()` |
| PyStr.StripIdempotent | textmod/make-title.py:33 | stripping twice is stripping once |
| PyStr.StripIgnoresPadding | textmod/make-title.py:33 | whitespace added at either end never changes what `strip()` returns |
| PyStr.Repeat | textmod/make-title.py:35-36 | `g * n` is empty for `n <= 0`; otherwise it is `n` copies of `g`: `len(g) * n` long, starting with `g`, and repeating with period `len(g)` |
| PyStr.SplitWords | laptop/monman.py:40 | `split()` yields only non-empty words without whitespace |
| PyStr.SplitConcat | laptop/monman.py:40 | `split()` of two strings joined at whitespace is the split of each, in order |
| PyStr.SplitSpaced | laptop/monman.py:40 | splitting the space-joined strings gives the words of each, in order |
| PyStr.SplitSpacedWords | laptop/monman.py:40 | splitting space-joined words gives back exactly those words |
| MakeTitle.FloorHalf | textmod/make-title.py:34 | `n // 2` is the floor of the half, also for a negative leftover |
| MakeTitle.Shape | textmod/make-title.py:31-37 | `make_title` returns the same garment run at both ends, a margin of spaces inside each run, and the stripped body in the middle; its length is the sum of the parts |
| MakeTitle.Length | textmod/make-title.py:34-37 | length is two garment runs of `max(0, count)` copies, plus the stripped body, plus two margins |
| MakeTitle.StripInvariant | textmod/make-title.py:33 | the title of a body equals the title of the stripped body |
| MakeTitle.PaddingInvariant | textmod/make-title.py:33 | whitespace added around the body never changes the title |
| MakeTitle.NarrowWidth | textmod/make-title.py:34-35 | when the width cannot fit one garment per side, the title is the margins and the body alone |
| MakeTitle.SingleCharFillsWidth | textmod/make-title.py:34-37 | with a one-character garment and enough room, the title is `width` long when the leftover is even and one shorter when it is odd |
| MakeTitle.DefaultBanner | textmod/make-title.py:31-43 | with the defaults (`#`, 80 columns, margin 2), "Foo" gets 36 garments per side in a 79-character line |
| DnsTrace.MissingVars | ddns/cloudflare/update_dns_record.py:73-78 | the collected variables are exactly the listed ones that are unset or empty, in list order |
| DnsTrace.AssertEnvVars | ddns/cloudflare/update_dns_record.py:73-82 | the check fails exactly when some variable is unset or empty; it then prints all of them and exits with 1, and otherwise does nothing |
| DnsTrace.RecordUrlShape | ddns/cloudflare/update_dns_record.py:223-230 | for non-empty identifiers the record URL is `API_ENDPOINT/zones/<zone>/dns_records/<record>` |
| DnsTrace.RecordUrlOfEmptyId | ddns/cloudflare/update_dns_record.py:223-230 | `PurePath` drops an empty record identifier, so the URL names the zone's record collection |
| CloudflareDns.SendTo | ddns/cloudflare/update_dns_record.py:85-129 | `send_request` either hands back a response without having ended the process, or ends it with an exception or a non-zero exit as its last event |
| CloudflareDns.FailureReport | ddns/cloudflare/update_dns_record.py:117-124 | the error path always ends the process abnormally |
| CloudflareDns.FailureReportPuts | ddns/cloudflare/update_dns_record.py:117-124 | the error path sends no PUT |
| CloudflareDns.SendToValue | ddns/cloudflare/update_dns_record.py:104-129 | a dry run sends nothing and returns the placeholder; otherwise the call continues exactly when Cloudflare accepts the request (and, when verbose, its JSON can be printed), and returns its reply |
| CloudflareDns.SendToPuts | ddns/cloudflare/update_dns_record.py:104-111 | a call sends at most one PUT: the requested one, and only outside a dry run |
| CloudflareDns.SendToDumps | ddns/cloudflare/update_dns_record.py:117-124 | a refused request prints a dump of the headers that were sent |
| CloudflareDns.GetRecordIdValue | ddns/cloudflare/update_dns_record.py:236-262 | the identifier is the dummy in a dry run, else the first result of an ok lookup filtered by the given type and the hostname |
| CloudflareDns.GetRecordIdPuts | ddns/cloudflare/update_dns_record.py:245-259 | the lookup sends no PUT |
| CloudflareDns.EmptyLookupRaises | ddns/cloudflare/update_dns_record.py:259 | an ok lookup with no records ends in an `IndexError` |
| CloudflareDns.MakeApiUrlFacts | ddns/cloudflare/update_dns_record.py:219-233 | the URL exists exactly when a record of the given type is found, and it is that record's URL in the zone |
| CloudflareDns.SendRequestValue | ddns/cloudflare/update_dns_record.py:85-129 | without an explicit URL, the request goes to the record that the lookup of the given type finds, and succeeds exactly when both the lookup and the request are accepted |
| CloudflareDns.SendRequestPuts | ddns/cloudflare/update_dns_record.py:98-111 | the only PUT is the requested one, sent to the URL of the record that the lookup of the given type finds |
| CloudflareDns.GetRecordJsonValue | ddns/cloudflare/update_dns_record.py:162-202 | with the lookup by the requested type, a record is returned exactly when its content is available, and it carries that content; a dry run prints and sends nothing |
| CloudflareDns.GetRecordJsonPuts | ddns/cloudflare/update_dns_record.py:194-201 | fetching the record sends no PUT |
| CloudflareDns.GetRecordJson | ddns/cloudflare/update_dns_record.py:162-202 | `get_record_json` either yields the record's JSON without having ended the process, or ends it abnormally |
| CloudflareDns.UpdateRecordPuts | ddns/cloudflare/update_dns_record.py:132-157 | the update sends one PUT with the new content, the requested type and `proxied: false`, to the URL of the record its own lookup finds; that lookup asks for type `A` as written (line 151 passes no `record_type`, so the default of line 90 applies) and for the requested type when corrected; no PUT in a dry run or after a failed lookup |
| CloudflareDns.UpdateRecordValue | ddns/cloudflare/update_dns_record.py:132-159 | the update reports success exactly in a dry run, or when its own lookup finds a record and the PUT to it is accepted; the report names the hostname and the content |
| CloudflareDns.UpdateRecord | ddns/cloudflare/update_dns_record.py:132-159 | `update_record` either reports without having ended the process, or ends it abnormally |
| CloudflareDns.UpdateLookupEmpty | ddns/cloudflare/update_dns_record.py:151-157 | when the update's own lookup finds no record, the update ends in an `IndexError` |
| CloudflareDns.UpdateRecordReport | ddns/cloudflare/update_dns_record.py:158-159 | a successful update ends with its report |
| CloudflareDns.CompareTrace | ddns/cloudflare/update_dns_record.py:56-70 | after the fetch, the run has three cases: equal content prints "unchanged" and exits with 0; a failed update ends the run; an accepted update exits with 0 |
| CloudflareDns.ComparePuts | ddns/cloudflare/update_dns_record.py:58-68 | the comparison adds one PUT exactly when the address differs, outside a dry run, when the update's own lookup finds a record, and it goes to that record |
| CloudflareDns.CompareUnchanged | ddns/cloudflare/update_dns_record.py:69-70 | equal content ends with "DNS record unchanged." and exit 0 |
| CloudflareDns.CompareUpdateAccepted | ddns/cloudflare/update_dns_record.py:58-68 | a differing address with an accepted update ends with the update report and exit 0 |
| CloudflareDns.CompareUpdateRefused | ddns/cloudflare/update_dns_record.py:58-68 | a differing address with a failed update ends abnormally |
| CloudflareDns.CompareExit | ddns/cloudflare/update_dns_record.py:54-70 | after the fetch, the run exits with 0 exactly when the content matches or the update goes through |
| CloudflareDns.EnvFailFast | ddns/cloudflare/update_dns_record.py:47-51 | a missing variable ends the run before any request, naming all the missing ones; otherwise nothing reports missing variables |
| CloudflareDns.MainSafe | ddns/cloudflare/update_dns_record.py:211-215 | with a complete environment, no header log shows the credential, and with the corrected dump no message does |
| CloudflareDns.HeaderLogsNeverShowToken | ddns/cloudflare/update_dns_record.py:211-215 | on every run, the verbose header log shows `Bearer ***` |
| CloudflareDns.RequestsCarryCredential | ddns/cloudflare/update_dns_record.py:205-210 | every request of a run except the public-IP lookup goes to Cloudflare with the headers `make_headers` builds: `Bearer ` and the token |
| CloudflareDns.CorrectedHidesToken | ddns/cloudflare/update_dns_record.py:117-124 | with the dump censored, no printed message of any run shows the credential |
| CloudflareDns.ErrorDumpShowsToken | ddns/cloudflare/update_dns_record.py:117-124 | as written, a refused lookup prints the headers with the real token |
| CloudflareDns.LookupFailureEndsRun | ddns/cloudflare/update_dns_record.py:245-259 | when no identifier is found, the run ends with the lookup |
| CloudflareDns.EmptyLookupEndsRun | ddns/cloudflare/update_dns_record.py:259 | an empty lookup result ends the whole run with an `IndexError` |
| CloudflareDns.UpdateIffDiffer | ddns/cloudflare/update_dns_record.py:36-70 | a run sends exactly one PUT when the environment is complete, it is not a dry run, the content is known and differs from this host's address, and the update's own lookup finds a record; it goes to that record; none otherwise |
| CloudflareDns.MainFetched | ddns/cloudflare/update_dns_record.py:51-54 | with a complete environment and a known content, `main` goes on to compare after the fetch |
| CloudflareDns.Main | ddns/cloudflare/update_dns_record.py:36-70 | every run ends with exactly one exit or uncaught exception, as its last event |
| CloudflareDns.CompareAuthenticated | ddns/cloudflare/update_dns_record.py:54-68 | after the fetch, a run adds the public-IP lookup exactly when it resolves the address that way, and otherwise only credentialed requests |
| CloudflareDns.AddressSource | ddns/cloudflare/update_dns_record.py:56 | once the content is known, the run asks the public-IP service exactly when no non-empty `--ip-address` is given, and an update carries the given address, or else the service's stripped answer |
| CloudflareDns.ExitsZeroIffSucceeds | ddns/cloudflare/update_dns_record.py:36-70 | a run exits with 0 exactly when the environment is complete, the content is known, and it matches, or this is a dry run, or the update's own lookup finds a record and the update is accepted |
| CloudflareDns.SuccessReport | ddns/cloudflare/update_dns_record.py:58-70 | a successful run's last message is "unchanged" when the content matched, and otherwise the update report for this host's address |
| CloudflareDns.DryRunOffline | ddns/cloudflare/update_dns_record.py:104-105 | a dry run sends nothing to Cloudflare, and with a complete environment it exits with 0 |
| CloudflareDns.UntypedUpdateMissesRecord | ddns/cloudflare/update_dns_record.py:151-157 | as written, when another type than `A` was requested and the host has no `A` record, a run that needs an update sends none and ends in an `IndexError` |
| CloudflareDns.UntypedUpdateRetargets | ddns/cloudflare/update_dns_record.py:151-157 | as written, when the host also has an `A` record, the update carries the requested type's payload to the `A` record |
| CloudflareDns.TypedUpdateTargetsFetchedRecord | ddns/cloudflare/update_dns_record.py:151-157 | corrected, the update goes to the very record the run fetched and compared |
| CloudflareDns.AaaaOnlyHostExample | ddns/cloudflare/update_dns_record.py:151-157 | on a host with only an `AAAA` record and `--type AAAA`, the script as written sends no update and dies with an `IndexError`, the corrected one updates the `AAAA` record |
| CloudflareDnsLegacy.Refused | ddns/cloudflare/update-dns-record.py:120-122 | a refused reply always ends the run; with a JSON-string body it prints the reply and the error message, then exits with 1 |
| CloudflareDnsLegacy.GetIpValue | ddns/cloudflare/update-dns-record.py:125-166 | the record address is `127.0.0.1` in a dry run; otherwise it is the content of an ok single-record reply (`res.json()['result']['content']`), and never in verbose mode |
| CloudflareDnsLegacy.GetIpFromRecord | ddns/cloudflare/update-dns-record.py:125-166 | `get_ip_from_record` either yields the content without having ended the process, or ends it abnormally |
| CloudflareDnsLegacy.GetIpAddressed | ddns/cloudflare/update-dns-record.py:133-157 | the record read goes to the environment's record URL and sends no PUT |
| CloudflareDnsLegacy.UpdateRecordValue | ddns/cloudflare/update-dns-record.py:77-122 | the update goes through exactly in a dry run, or when the reply is ok and, in verbose mode, its JSON is a string |
| CloudflareDnsLegacy.UpdateRecordPuts | ddns/cloudflare/update-dns-record.py:85-115 | the update sends one form-encoded PUT to the environment's record URL, and none in a dry run |
| CloudflareDnsLegacy.UpdateRecord | ddns/cloudflare/update-dns-record.py:77-122 | `update_record` either returns without having ended the process, or ends it abnormally |
| CloudflareDnsLegacy.UpdateRefusedTrace | ddns/cloudflare/update-dns-record.py:115-122 | outside verbose mode, a refused update with a JSON-string reply is the PUT, the reply, the error message and exit 1 |
| CloudflareDnsLegacy.FinishTrace | ddns/cloudflare/update-dns-record.py:54-65 | after the read, the run updates only when the addresses differ, and returning from `main` exits with 0 |
| CloudflareDnsLegacy.MainFetched | ddns/cloudflare/update-dns-record.py:43-53 | with a complete environment and a readable record, the run is the public-IP lookup, the read, and then the comparison |
| CloudflareDnsLegacy.MainUnfetched | ddns/cloudflare/update-dns-record.py:43-53 | with an unreadable record, the run ends with the read |
| CloudflareDnsLegacy.Main | ddns/cloudflare/update-dns-record.py:29-65 | every run ends with exactly one exit or uncaught exception, as its last event |
| CloudflareDnsLegacy.EnvFailFast | ddns/cloudflare/update-dns-record.py:38-43 | a missing one of the three variables ends the run at once, naming all the missing ones |
| CloudflareDnsLegacy.MainAddressed | ddns/cloudflare/update-dns-record.py:87-93 | every request goes to the public-IP service or to the one record the environment names, and every PUT is the update |
| CloudflareDnsLegacy.UpdateIffDiffer | ddns/cloudflare/update-dns-record.py:29-65 | a run sends the PUT exactly when the environment is complete, it is not a dry run, the record is read, and its address differs from this host's |
| CloudflareDnsLegacy.UpdateCarriesCliContent | ddns/cloudflare/update-dns-record.py:100-115 | every PUT carries the command-line content, without `proxied`, as form fields, to the record URL |
| CloudflareDnsLegacy.UpdateIgnoresComparedAddress | ddns/cloudflare/update-dns-record.py:45-65 | on a concrete run, the address that triggers the update is not the content it writes |
| CloudflareDnsLegacy.ExitsZeroIffSucceeds | ddns/cloudflare/update-dns-record.py:29-65 | a run exits with 0 exactly when the environment is complete, the record is read, and it matches or the update goes through |
| CloudflareDnsLegacy.VerboseNeverUpdates | ddns/cloudflare/update-dns-record.py:158-161 | in verbose mode outside a dry run, nothing is updated and the run fails |
| CloudflareDnsLegacy.FetchRefusedEndsRun | ddns/cloudflare/update-dns-record.py:162-164 | a refused read ends the run without an update and without exit 0 |
| CloudflareDnsLegacy.FetchRefusedMessage | ddns/cloudflare/update-dns-record.py:162-164 | a refused read with a JSON-string reply is the exact trace: lookup, header log, GET, the reply, the message naming the hostname, exit 1 |
| CloudflareDnsLegacy.FetchRefusedRaises | ddns/cloudflare/update-dns-record.py:162-164 | `'...' + res.json()` on a refused read raises a `TypeError` unless the JSON is a string (a decode error when it is not JSON), so the error message is never printed |
| CloudflareDnsLegacy.UpdateRefusedMessage | ddns/cloudflare/update-dns-record.py:120-122 | a refused update with a JSON-string reply ends the run with the PUT, the reply, the message naming the hostname and exit 1 |
| CloudflareDnsLegacy.MainStarts | ddns/cloudflare/update-dns-record.py:43-53 | with a complete environment, a run starts with the public-IP lookup and the record read |
| CloudflareDnsLegacy.VerboseShowsToken | ddns/cloudflare/update-dns-record.py:148-151 | the verbose header log shows the real credential |
| CloudflareDnsLegacy.DryRunOffline | ddns/cloudflare/update-dns-record.py:152-166 | a dry run sends nothing to Cloudflare, and with a complete environment it exits with 0 |
| StringOrder.LessEqTotal | laptop/monman.py:97 | any two strings are ordered one way or the other |
| StringOrder.LessEqTrans | laptop/monman.py:97 | the string order is transitive |
| StringOrder.LessEqAntisym | laptop/monman.py:97 | strings ordered both ways are equal |
| StringOrder.Sort | laptop/monman.py:97 | `sorted()` returns a sorted permutation of its input |
| StringOrder.SortedUnique | laptop/monman.py:97 | two sorted permutations of the same strings are equal, so `Sort` is `sorted()` |
| Monman.SettingSpaced | laptop/monman.py:35-38 | a setting gives `--<key>`, followed by its value unless the value is a boolean |
| Monman.GroupFails | laptop/monman.py:30-34 | a layout group fails exactly when a connected monitor sits after its first position |
| Monman.GroupSpaced | laptop/monman.py:30-38 | on success, a group adds `--output <name>` and the settings for each connected monitor |
| Monman.ConfigFails | laptop/monman.py:29-34 | the layout fails exactly when some group has a connected monitor after its first position |
| Monman.ConfigSpaced | laptop/monman.py:29-38 | on success, the layout's string is the words of its connected monitors in file order |
| Monman.XrandrArgv | laptop/monman.py:40 | `("xrandr" + args).split()` is `xrandr` followed by the words of the arguments |
| Monman.Activate | laptop/monman.py:22-40 | `activate` fails with the `NameError` exactly when a connected monitor follows another in its group; otherwise `xrandr` gets `--dryrun` (in a dry run) and each connected monitor's words, in file order |
| Monman.ActivateDryRunFirst | laptop/monman.py:28 | whenever the layout applies, the argument after `xrandr` is `--dryrun` exactly in a dry run |
| Monman.SelectedMembers | laptop/monman.py:29-31 | a monitor is switched on exactly when the layout lists it and it is connected |
| Monman.SelectedAppend | laptop/monman.py:29 | the layout is walked group by group, in file order |
| Monman.OffSplit | laptop/monman.py:55-57 | the switch-off string splits into `--output <name> --off` per output |
| Monman.Deactivate | laptop/monman.py:51-59 | `deactivate` starts `xrandr` with `--dryrun` (in a dry run), then `--output <name> --off` for each output in order |
| Monman.OffTokensWords | laptop/monman.py:56-57 | output names without whitespace each stay a single argument |
| Monman.ConnectedOrder | laptop/monman.py:97 | the primary monitors come first, in query order; then the others, sorted when `sorting` is on and in query order otherwise |
| Monman.ConnectedSortedIsSorted | laptop/monman.py:97 | with sorting, the others are the one sorted arrangement of them |
| Monman.CheckIsMembership | laptop/monman.py:105-112 | `checkMonitor(m)` is true exactly when `m` is a primary or another connected monitor |
| Monman.DispatchActions | laptop/monman.py:150-162 | `main` runs the first action asked for: activate (which fails exactly at a connected monitor after the first of its group), check with a non-empty name (membership), deactivate, and otherwise the list of connected monitors |
| Monman.SortFlagIgnored | laptop/monman.py:145-148 | as written, `--sort` changes nothing |
| Monman.SortIgnoredExample | laptop/monman.py:147 | with `-s -v`, a query listing `HDMI-2` before `DP-1` is listed in query order as written, and sorted with the global assigned |
| Monman.CorrectedSorts | laptop/monman.py:70-101 | with the global assigned, `--sort` lists the others sorted and switches off the external outputs in sorted order |

## Left out

- Real I/O is not modelled. HTTP requests, `os.getenv`, printing and
  `sys.exit` become the event trace. The public-IP service and Cloudflare
  become an oracle, so a reply is a function of the request.
- `argparse` and the `__main__` blocks are parameters of the model. This
  includes the legacy updater's `record_type=args.ttl` (line 191), which
  passes the TTL as the record type. It belongs to argument parsing, which
  is outside the model: `main`'s `record_type` is taken as given.
- `json.dumps` formatting and the wording of the request and response dumps
  are structured messages, not text.
- Verbose progress lines are left out. The model keeps the header logs,
  because redaction is a property of them. It also keeps the prints of a
  reply's JSON, because they can raise: `print(res.json())` in the current
  updater and `'...' + res.json()` in the legacy one.
- The regular expressions that parse `xrandr --query`, the `xrandr`
  subprocess, its return code and monman's verbose prints are left out.
  monman's outcome is the argument vector.
- Reading the layout file with `json.load` is left out. The layout is a list
  of groups of monitors with their settings, and a non-boolean value is
  taken already rendered by `str()`.
- `KeyboardInterrupt` handling is left out.
- DnsTrace.PathJoin: assumes the path segments contain no `/`. A zone or
  record identifier with a `/` would be split into more parts by `PurePath`.
- PyStr.IsSpace: ASCII whitespace only. Python's `str.isspace` also accepts
  other Unicode spaces, and `strip()`/`split()` follow it.
- `git/git-get.py` and `ddns/cloudflare/setup.py` are not part of this
  model.

## Findings

| source | as written | input that shows it | evidently intended | confidence | as-written member | corrected member |
|---|---|---|---|---|---|---|
| ddns/cloudflare/update_dns_record.py:117-124 | on a refused request, the error dump prints `request.headers`, which still carries `Bearer <token>`; the verbose log (lines 211-214) censors the same headers "as to not print it in the logs" | a complete environment, not a dry run, and a lookup reply with `ok` false | the dump censors the Authorization header like the header log does | high (not executed) | CloudflareDns.ErrorDumpShowsToken | CloudflareDns.CorrectedHidesToken |
| ddns/cloudflare/update_dns_record.py:151-157 | `update_record` calls `send_request` without `record_type`, so the lookup that finds the record to update filters on the default type `A` (line 90), while `main` fetched and compared the record of the requested type | `--type AAAA` for a host that has only an `AAAA` record whose content differs from `--ip-address`: the fetch succeeds, then the update's lookup finds no `A` record and raises `IndexError`; with an `A` record present, the `AAAA` payload goes to the `A` record | the update looks its record up by the requested type, as the fetch does | high (not executed) | CloudflareDns.UntypedUpdateMissesRecord | CloudflareDns.TypedUpdateTargetsFetchedRecord |
| laptop/monman.py:147 | `sorting = args.sorting` assigns a local, because `main` declares only `dryrun` and `verbose` global; `connectedMonitors` and `allExternalOutputs` read the global, which stays `False` | `monman -s -v` with `xrandr` listing `eDP-1` as primary, then `HDMI-2` and `DP-1`: it prints `['eDP-1', 'HDMI-2', 'DP-1']` | `-s` sorts the listed and switched-off monitors | high (not executed) | Monman.SortIgnoredExample | Monman.CorrectedSorts |

/**
 laptop/monman.py, the monitor manager: it builds the argument string it
 hands to `xrandr` to switch on the connected monitors of a layout file, or to
 switch off every external output; it lists the connected monitors and checks
 whether one of them is connected.

 The output of `xrandr --query` is taken already parsed: the primary
 monitors, the other connected monitors and the external outputs, each in the
 order the query lists them. `xrandr` itself is not run; a run's outcome is
 the argument vector it would be started with.
 */
module Monman {
  import opened Wrappers
  import opened PyStr
  import opened StringOrder

  /** A setting's value in the layout file: a JSON boolean gives a bare flag,
      anything else is written after the flag (`str(value)`, already
      rendered). */
  datatype Value = Bool(b: bool) | Other(text: string)

  datatype Setting = Setting(key: string, value: Value)

  /** A monitor of a layout group with its settings, in file order. */
  datatype Monitor = Monitor(name: string, settings: seq<Setting>)

  /** The layout file: a list of groups, each an ordered mapping from monitor
      name to settings. */
  type Config = seq<seq<Monitor>>

  /** Reading `direction`, which no code defines. */
  datatype NameError = UndefinedDirection(monitor: string)

  /** What `xrandr --query` reported. */
  datatype Query = Query(primary: seq<string>, others: seq<string>, external: seq<string>)

  // ---------------------------------------------------------------------------
  // activate
  // ---------------------------------------------------------------------------

  function DryRunFlag(dryrun: bool): (flag: string) {
    if dryrun then " --dryrun" else ""
  }

  /** ` --<key>` for each setting, followed by ` <value>` unless the value is
      a boolean. */
  function SettingArgs(settings: seq<Setting>): (args: string) {
    if settings == [] then ""
    else
      var s := settings[0];
      " --" + s.key + (if s.value.Bool? then "" else " " + s.value.text)
      + SettingArgs(settings[1..])
  }

  /** The loop over one layout group from position `i` on: a connected
      monitor at position 0 is switched on with its settings; one at a later
      position reads `direction` and the run fails there. */
  function GroupArgs(group: seq<Monitor>, connected: seq<string>, i: nat): (r: Result<string, NameError>)
    requires i <= |group|
    decreases |group| - i
  {
    if i == |group| then Success("")
    else
      var m := group[i];
      if m.name !in connected then GroupArgs(group, connected, i + 1)
      else if i > 0 then Failure(UndefinedDirection(m.name))
      else
        match GroupArgs(group, connected, i + 1)
        case Failure(e) => Failure(e)
        case Success(rest) => Success(" --output " + m.name + SettingArgs(m.settings) + rest)
  }

  /** The loop over the layout groups, in file order. */
  function ConfigArgs(config: Config, connected: seq<string>): (r: Result<string, NameError>) {
    if config == [] then Success("")
    else
      match GroupArgs(config[0], connected, 0)
      case Failure(e) => Failure(e)
      case Success(head) =>
        match ConfigArgs(config[1..], connected)
        case Failure(e) => Failure(e)
        case Success(rest) => Success(head + rest)
  }

  /** The argument string `activate` passes to `xrandr`. */
  function ActivateArgs(config: Config, connected: seq<string>, dryrun: bool): (r: Result<string, NameError>) {
    match ConfigArgs(config, connected)
    case Failure(e) => Failure(e)
    case Success(s) => Success(DryRunFlag(dryrun) + s)
  }

  // ---------------------------------------------------------------------------
  // deactivate
  // ---------------------------------------------------------------------------

  function OffArgs(outputs: seq<string>): (args: string) {
    if outputs == [] then ""
    else " --output " + outputs[0] + " --off " + OffArgs(outputs[1..])
  }

  /** The argument string `deactivate` passes to `xrandr`. */
  function DeactivateArgs(outputs: seq<string>, dryrun: bool): (args: string) {
    DryRunFlag(dryrun) + OffArgs(outputs)
  }

  // ---------------------------------------------------------------------------
  // The monitor lists
  // ---------------------------------------------------------------------------

  /** `connectedMonitors`: the primary monitors first, then the others,
      sorted when `sorting` is set. */
  function ConnectedMonitors(q: Query, sorting: bool): (monitors: seq<string>) {
    q.primary + if sorting then Sort(q.others) else q.others
  }

  /** `allExternalOutputs`. */
  function AllExternalOutputs(q: Query, sorting: bool): (outputs: seq<string>) {
    if sorting then Sort(q.external) else q.external
  }

  /** `checkMonitor`. */
  function CheckMonitor(m: string, q: Query, sorting: bool): (connected: bool) {
    m in ConnectedMonitors(q, sorting)
  }

  // ---------------------------------------------------------------------------
  // main
  // ---------------------------------------------------------------------------

  /** The parsed command line; `config` is the layout file's content. */
  datatype Args = Args(activate: bool, config: Config, check: Option<string>, deactivate: bool,
                       dryrun: bool, sort: bool, verbose: bool)

  /** What a run amounts to: `xrandr` started with an argument vector, the
      answer of a check, the `NameError`, or `Listed`: the monitor list the
      script computes when no action is asked for, which it prints only with
      `-v`. */
  datatype Outcome =
    | Xrandr(argv: seq<string>)
    | Checked(connected: bool)
    | Listed(monitors: seq<string>)
    | Crashed(error: NameError)

  /** `("xrandr" + args).split()`. */
  function Argv(args: string): (argv: seq<string>) {
    SplitWords("xrandr" + args)
  }

  /** The action `main` picks (activate, then check, then deactivate, else
      list), run with `sorting` as the value of the module global. */
  function Dispatch(args: Args, q: Query, sorting: bool): (o: Outcome) {
    if args.activate then
      match ActivateArgs(args.config, ConnectedMonitors(q, sorting), args.dryrun)
      case Failure(e) => Crashed(e)
      case Success(s) => Xrandr(Argv(s))
    else if args.check.Some? && args.check.value != "" then
      Checked(CheckMonitor(args.check.value, q, sorting))
    else if args.deactivate then
      Xrandr(Argv(DeactivateArgs(AllExternalOutputs(q, sorting), args.dryrun)))
    else
      Listed(ConnectedMonitors(q, sorting))
  }

  /** `main` as written: it binds `sorting` as a local, so the global the
      list functions read keeps its initial `False`. */
  function MainAsWritten(args: Args, q: Query): (o: Outcome) {
    Dispatch(args, q, false)
  }

  /** `main` with `sorting` declared global like `dryrun` and `verbose`. */
  function MainCorrected(args: Args, q: Query): (o: Outcome) {
    Dispatch(args, q, args.sort)
  }

  // ---------------------------------------------------------------------------
  // Reference definitions
  // ---------------------------------------------------------------------------

  /** The words of one setting. */
  function SettingTokens(settings: seq<Setting>): seq<string> {
    if settings == [] then []
    else
      var s := settings[0];
      ["--" + s.key] + (if s.value.Bool? then [] else [s.value.text]) + SettingTokens(settings[1..])
  }

  function MonitorTokens(m: Monitor): seq<string> {
    ["--output", m.name] + SettingTokens(m.settings)
  }

  function Tokens(ms: seq<Monitor>): seq<string> {
    if ms == [] then [] else MonitorTokens(ms[0]) + Tokens(ms[1..])
  }

  /** The monitors of a group from position `i` on that are connected. */
  function SelectedFrom(group: seq<Monitor>, connected: seq<string>, i: nat): seq<Monitor>
    requires i <= |group|
    decreases |group| - i
  {
    if i == |group| then []
    else (if group[i].name in connected then [group[i]] else []) + SelectedFrom(group, connected, i + 1)
  }

  /** The connected monitors of the layout, in file order. */
  function Selected(config: Config, connected: seq<string>): seq<Monitor> {
    if config == [] then [] else SelectedFrom(config[0], connected, 0) + Selected(config[1..], connected)
  }

  /** Some group lists a connected monitor after its first position. */
  predicate ReachesDirection(config: Config, connected: seq<string>) {
    exists g: seq<Monitor>, j :: g in config && 1 <= j < |g| && g[j].name in connected
  }

  function OffTokens(outputs: seq<string>): seq<string> {
    if outputs == [] then [] else ["--output", outputs[0], "--off"] + OffTokens(outputs[1..])
  }

  function DryRunTokens(dryrun: bool): seq<string> {
    if dryrun then ["--dryrun"] else []
  }

  // ---------------------------------------------------------------------------
  // Properties of activate
  // ---------------------------------------------------------------------------

  lemma DryRunSpaced(dryrun: bool)
    ensures DryRunFlag(dryrun) == Spaced(DryRunTokens(dryrun))
  {
    if dryrun {
      assert Spaced(["--dryrun"]) == " " + "--dryrun" + Spaced([]);
    }
  }

  /** The settings' string is the spaced-out list of their words. */
  lemma {:induction false} SettingSpaced(settings: seq<Setting>)
    ensures SettingArgs(settings) == Spaced(SettingTokens(settings))
  {
    if settings != [] {
      var s := settings[0];
      var flag := ["--" + s.key];
      var value: seq<string> := if s.value.Bool? then [] else [s.value.text];
      SettingSpaced(settings[1..]);
      SpacedAppend(flag + value, SettingTokens(settings[1..]));
      SpacedAppend(flag, value);
      assert Spaced(flag) == " --" + s.key by {
        assert Spaced(flag) == " " + ("--" + s.key) + Spaced([]);
      }
      assert Spaced(value) == (if s.value.Bool? then "" else " " + s.value.text) by {
        if !s.value.Bool? {
          assert Spaced(value) == " " + s.value.text + Spaced([]);
        }
      }
    }
  }

  lemma {:induction false} TokensAppend(a: seq<Monitor>, b: seq<Monitor>)
    ensures Tokens(a + b) == Tokens(a) + Tokens(b)
    decreases |a|
  {
    if a == [] {
      assert a + b == b;
    } else {
      assert (a + b)[0] == a[0];
      assert (a + b)[1..] == a[1..] + b;
      TokensAppend(a[1..], b);
    }
  }

  /** One monitor's words, spaced out, are what the loop appends for it. */
  lemma MonitorSpaced(m: Monitor)
    ensures Spaced(MonitorTokens(m)) == " --output " + m.name + SettingArgs(m.settings)
  {
    SettingSpaced(m.settings);
    SpacedAppend(["--output", m.name], SettingTokens(m.settings));
    assert Spaced(["--output", m.name]) == " " + "--output" + (" " + m.name + Spaced([]));
  }

  /** A group fails exactly when it lists a connected monitor after its
      first position. */
  lemma {:induction false} GroupFails(group: seq<Monitor>, connected: seq<string>, i: nat)
    requires i <= |group|
    ensures GroupArgs(group, connected, i).Failure?
            <==> exists j :: i <= j < |group| && 1 <= j && group[j].name in connected
    decreases |group| - i
  {
    if i < |group| {
      GroupFails(group, connected, i + 1);
    }
  }

  /** On success, a group's string is the spaced-out words of its connected
      monitors. */
  lemma {:induction false} GroupSpaced(group: seq<Monitor>, connected: seq<string>, i: nat)
    requires i <= |group|
    requires GroupArgs(group, connected, i).Success?
    ensures GroupArgs(group, connected, i).value == Spaced(Tokens(SelectedFrom(group, connected, i)))
    decreases |group| - i
  {
    if i < |group| {
      var m := group[i];
      GroupSpaced(group, connected, i + 1);
      var rest := SelectedFrom(group, connected, i + 1);
      if m.name in connected {
        TokensAppend([m], rest);
        assert Tokens([m]) == MonitorTokens(m) by {
          assert [m][1..] == [];
        }
        SpacedAppend(MonitorTokens(m), Tokens(rest));
        MonitorSpaced(m);
      } else {
        assert SelectedFrom(group, connected, i) == rest;
      }
    }
  }

  /** The whole layout fails exactly when some group lists a connected
      monitor after its first position. */
  lemma {:induction false} ConfigFails(config: Config, connected: seq<string>)
    ensures ConfigArgs(config, connected).Failure? <==> ReachesDirection(config, connected)
  {
    if config != [] {
      GroupFails(config[0], connected, 0);
      ConfigFails(config[1..], connected);
      if ReachesDirection(config[1..], connected) {
        var g: seq<Monitor>, j :| g in config[1..] && 1 <= j < |g| && g[j].name in connected;
        assert g in config;
      }
      if ReachesDirection(config, connected) {
        var g: seq<Monitor>, j :| g in config && 1 <= j < |g| && g[j].name in connected;
        if g != config[0] {
          assert g in config[1..];
        }
      }
    }
  }

  lemma {:induction false} ConfigSpaced(config: Config, connected: seq<string>)
    requires ConfigArgs(config, connected).Success?
    ensures ConfigArgs(config, connected).value == Spaced(Tokens(Selected(config, connected)))
  {
    if config != [] {
      GroupSpaced(config[0], connected, 0);
      ConfigSpaced(config[1..], connected);
      TokensAppend(SelectedFrom(config[0], connected, 0), Selected(config[1..], connected));
      SpacedAppend(Tokens(SelectedFrom(config[0], connected, 0)), Tokens(Selected(config[1..], connected)));
    }
  }

  /** `"xrandr" + s` splits into `xrandr` followed by the words of the
      spaced-out list. */
  lemma XrandrArgv(ts: seq<string>)
    ensures Argv(Spaced(ts)) == ["xrandr"] + FlatSplit(ts)
  {
    WordThenSpaced("xrandr", ts);
  }

  lemma WordThenSpaced(w: string, ts: seq<string>)
    requires IsWord(w)
    ensures SplitWords(w + Spaced(ts)) == [w] + FlatSplit(ts)
  {
    SplitSpacedTail(ts);
    SplitConcat(w, Spaced(ts));
    SplitOfWord(w);
    SplitSpaced(ts);
  }

  /** `activate` fails exactly when a connected monitor sits after the first
      position of its group; otherwise `xrandr` receives `--dryrun` (in a dry
      run) and then, for each connected monitor of the layout in file order,
      `--output <name>` and its settings. */
  lemma Activate(config: Config, connected: seq<string>, dryrun: bool)
    ensures ActivateArgs(config, connected, dryrun).Failure? <==> ReachesDirection(config, connected)
    ensures ActivateArgs(config, connected, dryrun).Success? ==>
              Argv(ActivateArgs(config, connected, dryrun).value)
              == ["xrandr"] + FlatSplit(DryRunTokens(dryrun) + Tokens(Selected(config, connected)))
  {
    ConfigFails(config, connected);
    if ConfigArgs(config, connected).Success? {
      ConfigSpaced(config, connected);
      DryRunSpaced(dryrun);
      SpacedAppend(DryRunTokens(dryrun), Tokens(Selected(config, connected)));
      XrandrArgv(DryRunTokens(dryrun) + Tokens(Selected(config, connected)));
    }
  }

  /** When the layout applies, the argument after `xrandr` is `--dryrun`
      exactly in a dry run. */
  lemma ActivateDryRunFirst(config: Config, connected: seq<string>, dryrun: bool)
    ensures ActivateArgs(config, connected, dryrun).Success? ==>
              var argv := Argv(ActivateArgs(config, connected, dryrun).value);
              |argv| > 1 && argv[1] == "--dryrun" <==> dryrun
  {
    var ts := DryRunTokens(dryrun) + Tokens(Selected(config, connected));
    Activate(config, connected, dryrun);
    assert ts != [] ==> ts[0] == (if dryrun then "--dryrun" else "--output") by {
      if !dryrun && ts != [] { TokensHead(Selected(config, connected)); }
    }
    if ts != [] { FlatSplitHead(ts); }
  }

  lemma TokensHead(ms: seq<Monitor>)
    requires ms != []
    ensures Tokens(ms)[0] == "--output"
  {
  }

  /** A leading word survives the split unchanged. */
  lemma FlatSplitHead(ts: seq<string>)
    requires ts != [] && IsWord(ts[0])
    ensures |FlatSplit(ts)| > 0 && FlatSplit(ts)[0] == ts[0]
  {
    SplitOfWord(ts[0]);
  }

  lemma {:induction false} SelectedFromMembers(group: seq<Monitor>, connected: seq<string>, i: nat)
    requires i <= |group|
    ensures forall m :: m in SelectedFrom(group, connected, i)
                        <==> m in group[i..] && m.name in connected
    decreases |group| - i
  {
    if i < |group| {
      SelectedFromMembers(group, connected, i + 1);
      assert group[i..] == [group[i]] + group[i + 1..];
    }
  }

  /** A monitor is switched on exactly when the layout lists it and it is
      connected. */
  lemma {:induction false} SelectedMembers(config: Config, connected: seq<string>)
    ensures forall m :: m in Selected(config, connected)
                        <==> (exists g :: g in config && m in g) && m.name in connected
  {
    if config != [] {
      SelectedFromMembers(config[0], connected, 0);
      SelectedMembers(config[1..], connected);
      assert config[0][0..] == config[0];
      forall m | (exists g :: g in config && m in g) && m.name in connected
        ensures m in Selected(config, connected)
      {
        var g :| g in config && m in g;
        if g != config[0] {
          assert g in config[1..];
        }
      }
      forall m | m in Selected(config[1..], connected)
        ensures exists g :: g in config && m in g
      {
        var g :| g in config[1..] && m in g;
        assert g in config;
      }
    }
  }

  /** The layout is walked group by group, in file order. */
  lemma SelectedAppend(a: Config, b: Config, connected: seq<string>)
    ensures Selected(a + b, connected) == Selected(a, connected) + Selected(b, connected)
  {
    if a == [] {
      assert a + b == b;
    } else {
      assert (a + b)[0] == a[0];
      assert (a + b)[1..] == a[1..] + b;
      SelectedAppend(a[1..], b, connected);
    }
  }

  // ---------------------------------------------------------------------------
  // Properties of deactivate
  // ---------------------------------------------------------------------------

  lemma {:induction false} OffSplit(outputs: seq<string>)
    ensures SplitWords(OffArgs(outputs)) == FlatSplit(OffTokens(outputs))
  {
    if outputs != [] {
      var m := outputs[0];
      var h0: seq<string> := [];
      var h1 := ["--off"] + h0;
      var h2 := [m] + h1;
      var head := ["--output"] + h2;
      var rest := OffArgs(outputs[1..]);
      var x := " --output " + m + " --off ";
      assert Spaced(head) + " " == x by {
        SpacedCons("--off", h0);
        SpacedCons(m, h1);
        SpacedCons("--output", h2);
      }
      assert SplitWords(x) == FlatSplit(head) by {
        SplitConcat(Spaced(head), " ");
        SplitSpaced(head);
        assert SplitWords(" ") == [];
      }
      assert head == ["--output", m, "--off"];
      assert OffArgs(outputs) == x + rest;
      SplitConcat(x, rest);
      OffSplit(outputs[1..]);
      FlatSplitAppend(head, OffTokens(outputs[1..]));
    }
  }

  lemma OffArgsStart(outputs: seq<string>)
    ensures OffArgs(outputs) == [] || IsSpace(OffArgs(outputs)[0])
  {
  }

  lemma SplitJoin(p: string, a: string, b: string)
    requires b == [] || IsSpace(b[0])
    ensures SplitWords(p + (a + b)) == SplitWords(p + a) + SplitWords(b)
  {
    assert p + (a + b) == (p + a) + b;
    SplitConcat(p + a, b);
  }

  /** A word, then a spaced-out flag part, then a part that starts with a
      space: the split gives the word followed by the words of both parts. */
  lemma WordThenJoin(w: string, flag: string, off: string, dry: seq<string>, offs: seq<string>)
    requires IsWord(w) && flag == Spaced(dry)
    requires off == [] || IsSpace(off[0])
    requires SplitWords(off) == FlatSplit(offs)
    ensures SplitWords(w + (flag + off)) == [w] + FlatSplit(dry + offs)
  {
    calc {
      SplitWords(w + (flag + off));
      { SplitJoin(w, flag, off); }
      SplitWords(w + flag) + SplitWords(off);
      { WordThenSpaced(w, dry); }
      [w] + FlatSplit(dry) + FlatSplit(offs);
      { FlatSplitAppend(dry, offs); }
      [w] + FlatSplit(dry + offs);
    }
  }

  /** `deactivate` starts `xrandr` with `--dryrun` (in a dry run) and then
      `--output <name> --off` for each output, in list order; the trailing
      space it leaves does not add an argument. */
  lemma Deactivate(outputs: seq<string>, dryrun: bool)
    ensures Argv(DeactivateArgs(outputs, dryrun))
            == ["xrandr"] + FlatSplit(DryRunTokens(dryrun) + OffTokens(outputs))
  {
    OffArgsStart(outputs);
    DryRunSpaced(dryrun);
    OffSplit(outputs);
    WordThenJoin("xrandr", DryRunFlag(dryrun), OffArgs(outputs), DryRunTokens(dryrun), OffTokens(outputs));
  }

  /** With ordinary output names each name stays one argument. */
  lemma {:induction false} OffTokensWords(outputs: seq<string>)
    requires forall m | m in outputs :: IsWord(m)
    ensures forall w | w in OffTokens(outputs) :: IsWord(w)
  {
    if outputs != [] {
      assert forall m | m in outputs[1..] :: m in outputs;
      OffTokensWords(outputs[1..]);
    }
  }

  // ---------------------------------------------------------------------------
  // Properties of the lists, check and main
  // ---------------------------------------------------------------------------

  /** The primary monitors come first, in query order; the rest are the
      other connected monitors, sorted when `sorting` is set and in query
      order otherwise. */
  lemma ConnectedOrder(q: Query, sorting: bool)
    ensures var r := ConnectedMonitors(q, sorting);
            && r[..|q.primary|] == q.primary
            && multiset(r[|q.primary|..]) == multiset(q.others)
            && (sorting ==> Sorted(r[|q.primary|..]))
            && (!sorting ==> r[|q.primary|..] == q.others)
  {
    var r := ConnectedMonitors(q, sorting);
    assert r[|q.primary|..] == if sorting then Sort(q.others) else q.others;
  }

  /** With sorting, the list is the one `sorted()` gives: the only sorted
      arrangement of the others. */
  lemma ConnectedSortedIsSorted(q: Query, r: seq<string>)
    requires Sorted(r) && multiset(r) == multiset(q.others)
    ensures ConnectedMonitors(q, true) == q.primary + r
  {
    SortedUnique(Sort(q.others), r);
  }

  /** `checkMonitor(m)` is membership among the connected monitors,
      whatever the sorting. */
  lemma CheckIsMembership(m: string, q: Query, sorting: bool)
    ensures CheckMonitor(m, q, sorting) <==> m in q.primary || m in q.others
  {
    if sorting {
      assert m in Sort(q.others) <==> m in multiset(Sort(q.others));
    }
  }

  /** `main` runs the first action asked for: activate, then check (a
      monitor name that is not empty), then deactivate, and otherwise it
      lists the connected monitors. */
  lemma DispatchActions(args: Args, q: Query, sorting: bool)
    ensures var o := Dispatch(args, q, sorting);
            var connected := ConnectedMonitors(q, sorting);
            var check := args.check.Some? && args.check.value != "";
            && (args.activate ==>
                  && (o.Crashed? <==> ReachesDirection(args.config, connected))
                  && (!o.Crashed? ==>
                        o == Xrandr(["xrandr"] + FlatSplit(DryRunTokens(args.dryrun)
                                                           + Tokens(Selected(args.config, connected))))))
            && (!args.activate && check ==>
                  o == Checked(args.check.value in q.primary || args.check.value in q.others))
            && (!args.activate && !check && args.deactivate ==>
                  o == Xrandr(["xrandr"] + FlatSplit(DryRunTokens(args.dryrun)
                                                     + OffTokens(AllExternalOutputs(q, sorting)))))
            && (!args.activate && !check && !args.deactivate ==> o == Listed(connected))
  {
    if args.activate {
      Activate(args.config, ConnectedMonitors(q, sorting), args.dryrun);
    } else if args.check.Some? && args.check.value != "" {
      CheckIsMembership(args.check.value, q, sorting);
    } else if args.deactivate {
      Deactivate(AllExternalOutputs(q, sorting), args.dryrun);
    }
  }

  /** As written, `--sort` changes nothing at all. */
  lemma SortFlagIgnored(args: Args, q: Query)
    ensures MainAsWritten(args, q) == MainAsWritten(args.(sort := !args.sort), q)
  {
  }

  /** `monman -s` on a query listing `HDMI-2` before `DP-1`: as written the
      list keeps query order; with the global assigned it is sorted. */
  lemma SortIgnoredExample()
    ensures var args := Args(false, [], None, false, false, true, true);
            var q := Query(["eDP-1"], ["HDMI-2", "DP-1"], []);
            && MainAsWritten(args, q) == Listed(["eDP-1", "HDMI-2", "DP-1"])
            && MainCorrected(args, q) == Listed(["eDP-1", "DP-1", "HDMI-2"])
  {
    var q := Query(["eDP-1"], ["HDMI-2", "DP-1"], []);
    ExampleOrder();
    ConnectedSortedIsSorted(q, ["DP-1", "HDMI-2"]);
  }

  lemma ExampleOrder()
    ensures Sorted(["DP-1", "HDMI-2"])
    ensures multiset(["DP-1", "HDMI-2"]) == multiset(["HDMI-2", "DP-1"])
  {
    var a, b := "DP-1", "HDMI-2";
    assert a[0] < b[0];
    assert LessEq(a, b);
  }

  /** With the global assigned, `--sort` lists and switches off the
      monitors in sorted order. */
  lemma CorrectedSorts(args: Args, q: Query)
    requires args.sort && !args.activate && !(args.check.Some? && args.check.value != "")
    ensures !args.deactivate ==> MainCorrected(args, q) == Listed(q.primary + Sort(q.others))
    ensures args.deactivate ==>
              MainCorrected(args, q)
              == Xrandr(["xrandr"] + FlatSplit(DryRunTokens(args.dryrun) + OffTokens(Sort(q.external))))
  {
    Deactivate(Sort(q.external), args.dryrun);
  }
}

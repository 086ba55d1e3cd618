/** What a run of a configuration does, entry by entry: which operations are executed, with which arguments and options. */
module ConfigMeaning {
  import opened Wrappers
  import opened ConfigRunners

  // ---------- Arguments ----------

  function Renamed(arguments: map<string, string>, key: string): string
  {
    if key == "operation" || key !in arguments then key else arguments[key]
  }

  // No later key is renamed to the same.
  predicate IsLast(arguments: map<string, string>, keys: seq<string>, i: nat)
    requires i < |keys|
  {
    forall j :: i < j < |keys| ==> Renamed(arguments, keys[j]) != Renamed(arguments, keys[i])
  }

  // The entry that a key leads to: its value, or the operation's own name.
  predicate HasEntry(name: string, arguments: map<string, string>, config: Object, key: string, mapped: Object)
    requires key in config
  {
    var n := Renamed(arguments, key);
    n in mapped && mapped[n] == if key == "operation" then Text(name) else config[key]
  }

  // Every key under its new name with its value, the operation's own name under "operation", and nothing else; of keys
  // that are renamed to the same, the last counts.
  ghost predicate ArgumentsRight(name: string, arguments: map<string, string>, config: Object, keys: seq<string>, mapped: Object)
  {
    && (forall n :: n in mapped ==> exists i :: 0 <= i < |keys| && n == Renamed(arguments, keys[i]))
    && (forall i :: 0 <= i < |keys| && keys[i] in config && IsLast(arguments, keys, i) ==>
          HasEntry(name, arguments, config, keys[i], mapped))
  }

  lemma EarlierIsLast(arguments: map<string, string>, init: seq<string>, k: string, i: nat)
    requires i < |init| && IsLast(arguments, init + [k], i)
    ensures IsLast(arguments, init, i) && Renamed(arguments, k) != Renamed(arguments, init[i])
  {
    hide Renamed;
    var keys := init + [k];
    assert keys[i] == init[i] && keys[|init|] == k;
    forall j | i < j < |init| ensures Renamed(arguments, init[j]) != Renamed(arguments, init[i]) {
      assert keys[j] == init[j];
    }
  }

  lemma OneMoreKey(name: string, arguments: map<string, string>, config: Object, init: seq<string>, k: string, before: Object)
    requires ArgumentsRight(name, arguments, config, init, before) && k in config
    ensures ArgumentsRight(name, arguments, config, init + [k],
                           before[Renamed(arguments, k) := if k == "operation" then Text(name) else config[k]])
  {
    var keys, mapped := init + [k], before[Renamed(arguments, k) := if k == "operation" then Text(name) else config[k]];
    hide Renamed, IsLast;
    assert keys[|init|] == k;
    forall n | n in mapped ensures exists i :: 0 <= i < |keys| && n == Renamed(arguments, keys[i]) {
      if n != Renamed(arguments, k) {
        var i :| 0 <= i < |init| && n == Renamed(arguments, init[i]);
        assert keys[i] == init[i];
      }
    }
    forall i | 0 <= i < |keys| && keys[i] in config && IsLast(arguments, keys, i)
      ensures HasEntry(name, arguments, config, keys[i], mapped) {
      if i < |init| {
        EarlierIsLast(arguments, init, k, i);
        assert keys[i] == init[i];
      }
    }
  }

  lemma {:induction false} MapKeysRight(name: string, arguments: map<string, string>, config: Object, keys: seq<string>)
    requires forall k :: k in keys ==> k in config
    ensures ArgumentsRight(name, arguments, config, keys, MapKeys(name, arguments, config, keys))
  {
    hide ArgumentsRight;
    if keys == [] {
      NoKeys(name, arguments, config);
    } else {
      var init, k := keys[..|keys| - 1], keys[|keys| - 1];
      assert k in keys && forall l :: l in init ==> l in keys;
      MapKeysRight(name, arguments, config, init);
      OneMoreKey(name, arguments, config, init, k, MapKeys(name, arguments, config, init));
      assert keys == init + [k];
    }
  }

  lemma NoKeys(name: string, arguments: map<string, string>, config: Object)
    ensures ArgumentsRight(name, arguments, config, [], map[])
  {
  }

  // ---------- Entries ----------

  // An entry that names an operation, and the name.
  predicate Names(entry: Entry, name: string)
  {
    entry.Command? && "operation" in entry.fields && entry.fields["operation"] == Text(name)
  }

  // The operation of that name, or the one that has its new name.
  predicate Resolves<S>(core: Core<S>, name: string, operation: string)
  {
    operation in core.operations
    && (if name in core.operations then operation == name
        else name in core.mappings && core.mappings[name].newName == operation)
  }

  ghost predicate IsCall<S>(core: Core<S>, entry: Entry)
  {
    exists name, operation :: name != "executionContext" && Names(entry, name) && Resolves(core, name, operation)
  }

  // The number that the last setting of this option among the first n entries gave it.
  function Setting(entries: seq<Entry>, n: nat, option: string, start: int): int
    requires n <= |entries|
  {
    if n == 0 then start
    else
      var entry := entries[n - 1];
      if Names(entry, "executionContext") && option in entry.fields && entry.fields[option].Number?
      then entry.fields[option].number else Setting(entries, n - 1, option, start)
  }

  ghost predicate SettingsRight(entries: seq<Entry>, n: nat, start: Context, context: Context)
    requires n <= |entries|
  {
    && context.generateReport == Setting(entries, n, "generateReport", start.generateReport)
    && context.verbose == Setting(entries, n, "verbose", start.verbose)
    && context.singleThreaded == Setting(entries, n, "singleThreaded", start.singleThreaded)
    && context.debug == Setting(entries, n, "debug", start.debug)
  }

  // ---------- Runs ----------

  // The entries among the first n that call an operation.
  ghost function Calls<S>(core: Core<S>, entries: seq<Entry>, n: nat): (r: seq<nat>)
    requires n <= |entries|
    ensures forall t :: 0 <= t < |r| ==> r[t] < n
  {
    if n == 0 then [] else Calls(core, entries, n - 1) + if IsCall(core, entries[n - 1]) then [n - 1] else []
  }

  // What was executed for an entry.
  ghost predicate CallRight<S>(core: Core<S>, entries: seq<Entry>, k: nat, start: Context, e: Executed)
    requires k < |entries|
  {
    && entries[k].Command?
    && (exists name :: name != "executionContext" && Names(entries[k], name) && Resolves(core, name, e.operation))
    && SettingsRight(entries, k, start, e.context)
    && var own, fields := core.operations[e.operation], entries[k].fields;
       if own in core.mappings
       then ArgumentsRight(own, core.mappings[own].arguments, fields, core.sorted(fields.Keys), e.arguments)
       else e.arguments == fields
  }

  ghost predicate TraceRight<S>(core: Core<S>, entries: seq<Entry>, n: nat, start: Context, trace: seq<Executed>)
    requires n <= |entries|
  {
    var calls := Calls(core, entries, n);
    |trace| == |calls| && forall t :: 0 <= t < |trace| ==> CallRight(core, entries, calls[t], start, trace[t])
  }

  // Operations may add to the report, but leave the options alone.
  ghost predicate KeepsOptions<S(!new)>(core: Core<S>)
  {
    forall s, c, operation, arguments :: core.run(s, c, operation, arguments).1.(report := c.report) == c
  }

  predicate Malformed(entry: Entry)
  {
    entry.NotAnObject? || "operation" !in entry.fields || !entry.fields["operation"].Text?
  }

  // The entry names something that does not exist.
  ghost predicate NamesNothing<S>(core: Core<S>, entry: Entry)
  {
    exists name :: Names(entry, name) && name != "executionContext" && forall operation :: !Resolves(core, name, operation)
  }

  // Nothing before it stopped the run.
  ghost predicate PassedOver<S>(core: Core<S>, entries: seq<Entry>, n: nat, strict: bool)
    requires n <= |entries|
  {
    forall k :: 0 <= k < n ==> !Malformed(entries[k]) && (strict ==> !NamesNothing(core, entries[k]))
  }

  ghost predicate StopRight<S>(core: Core<S>, entries: seq<Entry>, strict: bool, outcome: Outcome<S>)
    requires outcome.at <= |entries|
  {
    && PassedOver(core, entries, outcome.at, strict)
    && match outcome.stop
       case Completed => outcome.at == |entries|
       case AtMalformed => outcome.at < |entries| && Malformed(entries[outcome.at])
       case AtUnknown => strict && outcome.at < |entries| && NamesNothing(core, entries[outcome.at])
       case AtFailure => outcome.at < |entries| && IsCall(core, entries[outcome.at])
  }

  // ---------- One entry ----------

  lemma EntryIs<S>(core: Core<S>, entry: Entry)
    ensures Read(core, entry).Malformed? <==> Malformed(entry)
    ensures Read(core, entry).Options? <==> Names(entry, "executionContext")
    ensures Read(core, entry).Options? ==> Read(core, entry).fields == entry.fields
    ensures Read(core, entry).Unknown? <==> NamesNothing(core, entry)
    ensures Read(core, entry).Call? <==> IsCall(core, entry)
    ensures Read(core, entry).Call? ==>
              && entry.Command? && Read(core, entry).fields == entry.fields
              && exists name :: name != "executionContext" && Names(entry, name) && Resolves(core, name, Read(core, entry).operation)
  {
    if !Malformed(entry) {
      var name := entry.fields["operation"].text;
      assert Names(entry, name) && forall other :: Names(entry, other) ==> other == name;
      if name != "executionContext" {
        LookupIs(core, name);
        hide Lookup, Resolves;
        if Lookup(core, name).Some? {
          assert Resolves(core, name, Lookup(core, name).value);
        }
      }
    }
  }

  lemma LookupIs<S>(core: Core<S>, name: string)
    ensures forall operation :: Resolves(core, name, operation) <==> Lookup(core, name) == Some(operation)
  {
  }

  lemma SettingsNext(entries: seq<Entry>, n: nat, start: Context, context: Context)
    requires n < |entries| && SettingsRight(entries, n, start, context)
    ensures Names(entries[n], "executionContext") ==>
              SettingsRight(entries, n + 1, start, Configured(entries[n].fields, context))
    ensures !Names(entries[n], "executionContext") ==> SettingsRight(entries, n + 1, start, context)
  {
  }

  // ---------- Runs ----------

  // Everything that is said about a run that has got to entry n.
  ghost predicate GotTo<S(!new)>(core: Core<S>, entries: seq<Entry>, n: nat, start: Context, p: Progress<S>, strict: bool)
    requires n <= |entries|
  {
    && SettingsRight(entries, n, start, p.context)
    && TraceRight(core, entries, n, start, p.trace)
    && PassedOver(core, entries, n, strict)
  }

  lemma ExecutedIsRight<S(!new)>(core: Core<S>, entries: seq<Entry>, k: nat, start: Context, p: Progress<S>)
    requires Enumerates(core) && k < |entries| && SettingsRight(entries, k, start, p.context)
    requires Read(core, entries[k]).Call?
    ensures var call := Read(core, entries[k]);
            var (p', ok) := Execute(core, p, call.operation, call.fields);
            && |p'.trace| == |p.trace| + 1 && p'.trace[..|p.trace|] == p.trace
            && CallRight(core, entries, k, start, p'.trace[|p.trace|])
  {
    EntryIs(core, entries[k]);
    var call := Read(core, entries[k]);
    var own := core.operations[call.operation];
    hide Read, Names, Resolves, SettingsRight, IsCall, Malformed, NamesNothing, ArgumentsRight;
    if own in core.mappings {
      MapKeysRight(own, core.mappings[own].arguments, call.fields, core.sorted(call.fields.Keys));
    }
  }

  lemma TraceNext<S(!new)>(core: Core<S>, entries: seq<Entry>, k: nat, start: Context, trace: seq<Executed>, trace': seq<Executed>)
    requires k < |entries| && TraceRight(core, entries, k, start, trace)
    requires if IsCall(core, entries[k]) then
               |trace'| == |trace| + 1 && trace'[..|trace|] == trace && CallRight(core, entries, k, start, trace'[|trace|])
             else trace' == trace
    ensures TraceRight(core, entries, k + 1, start, trace')
  {
    hide CallRight, IsCall;
    var calls, calls' := Calls(core, entries, k), Calls(core, entries, k + 1);
    forall t | 0 <= t < |trace'| ensures CallRight(core, entries, calls'[t], start, trace'[t]) {
      if t < |trace| {
        assert trace'[t] == trace'[..|trace|][t] == trace[t] && calls'[t] == calls[t];
      }
    }
  }

  lemma OptionsKept<S(!new)>(core: Core<S>, entries: seq<Entry>, n: nat, start: Context, p: Progress<S>, operation: string, fields: Object)
    requires Enumerates(core) && operation in core.operations && KeepsOptions(core)
    requires n <= |entries| && SettingsRight(entries, n, start, p.context)
    ensures SettingsRight(entries, n, start, Execute(core, p, operation, fields).0.context)
  {
    hide Mapped, Setting;
    var arguments := Mapped(core, core.operations[operation], fields);
    assert core.run(p.state, p.context, operation, arguments).1.(report := p.context.report) == p.context;
  }

  // One entry further.
  lemma OneFurther<S(!new)>(core: Core<S>, entries: seq<Entry>, k: nat, start: Context, p: Progress<S>, p': Progress<S>, strict: bool)
    requires Enumerates(core) && KeepsOptions(core) && k < |entries| && GotTo(core, entries, k, start, p, strict)
    requires match Read(core, entries[k])
             case Malformed => false
             case Options(fields) => p' == p.(context := Configured(fields, p.context))
             case Unknown => !strict && p' == p
             case Call(operation, fields) => p' == Execute(core, p, operation, fields).0
    ensures GotTo(core, entries, k + 1, start, p', strict)
  {
    EntryIs(core, entries[k]);
    SettingsNext(entries, k, start, p.context);
    hide Names, Configured, Malformed, NamesNothing, CallRight, IsCall, Resolves, Calls;
    match Read(core, entries[k])
    case Call(operation, fields) =>
      ExecutedIsRight(core, entries, k, start, p);
      OptionsKept(core, entries, k + 1, start, p, operation, fields);
      hide SettingsRight, Execute, Read, TraceRight;
      TraceNext(core, entries, k, start, p.trace, p'.trace);
    case _ =>
      hide SettingsRight, Read, TraceRight;
      TraceNext(core, entries, k, start, p.trace, p'.trace);
  }

  ghost predicate RunRight<S(!new)>(core: Core<S>, entries: seq<Entry>, start: Context, strict: bool, outcome: Outcome<S>)
    requires outcome.at <= |entries|
  {
    && StopRight(core, entries, strict, outcome)
    && var reached := if outcome.stop.AtFailure? then outcome.at + 1 else outcome.at;
       && SettingsRight(entries, reached, start, outcome.progress.context)
       && TraceRight(core, entries, reached, start, outcome.progress.trace)
  }

  // The run stops here, or goes on with the next entry.
  lemma RunHere<S(!new)>(core: Core<S>, entries: seq<Entry>, i: nat, start: Context, p: Progress<S>, strict: bool)
    returns (ends: bool, p': Progress<S>)
    requires Enumerates(core) && KeepsOptions(core) && i < |entries| && GotTo(core, entries, i, start, p, strict)
    ensures ends ==> RunRight(core, entries, start, strict, Run(core, entries, i, p, strict))
    ensures !ends ==> Run(core, entries, i, p, strict) == Run(core, entries, i + 1, p', strict)
    ensures !ends ==> GotTo(core, entries, i + 1, start, p', strict)
  {
    EntryIs(core, entries[i]);
    hide Configured, SettingsRight, TraceRight, PassedOver, Execute, NamesNothing, IsCall, Malformed, Names, Resolves;
    ends, p' := false, p;
    match Read(core, entries[i])
    case Malformed => ends := true;
    case Options(fields) =>
      p' := p.(context := Configured(fields, p.context));
      OneFurther(core, entries, i, start, p, p', strict);
    case Unknown =>
      ends := strict;
      if !strict {
        OneFurther(core, entries, i, start, p, p, strict);
      }
    case Call(operation, fields) =>
      var (next, ok) := Execute(core, p, operation, fields);
      p', ends := next, !ok;
      OneFurther(core, entries, i, start, p, p', strict);
  }

  lemma {:induction false} RunGetsTo<S(!new)>(core: Core<S>, entries: seq<Entry>, i: nat, start: Context, p: Progress<S>, strict: bool)
    requires Enumerates(core) && KeepsOptions(core) && i <= |entries| && GotTo(core, entries, i, start, p, strict)
    ensures RunRight(core, entries, start, strict, Run(core, entries, i, p, strict))
    decreases |entries| - i
  {
    if i < |entries| {
      hide GotTo, RunRight, Run, Enumerates, KeepsOptions;
      var ends, p' := RunHere(core, entries, i, start, p, strict);
      if !ends {
        RunGetsTo(core, entries, i + 1, start, p', strict);
      }
    }
  }

  /** What a run of either runner has done when it stops at an entry, where operations leave the options alone. It executed
      exactly the calls among the entries it got to, in order: each with the operation of that name, or else of its new
      name, with the arguments renamed for it, and with every option as the last setting before it left it. It stopped at
      the end, at the first malformed entry, at a call that failed, or, if strict, at the first name that is nothing. */
  lemma RunMeans<S(!new)>(core: Core<S>, entries: seq<Entry>, p: Progress<S>, strict: bool)
    requires Enumerates(core) && KeepsOptions(core) && p.trace == []
    ensures var outcome := Run(core, entries, 0, p, strict);
            && StopRight(core, entries, strict, outcome)
            && var reached := if outcome.stop.AtFailure? then outcome.at + 1 else outcome.at;
               && SettingsRight(entries, reached, p.context, outcome.progress.context)
               && TraceRight(core, entries, reached, p.context, outcome.progress.trace)
  {
    hide Run, StopRight;
    RunGetsTo(core, entries, 0, p.context, p, strict);
  }
}

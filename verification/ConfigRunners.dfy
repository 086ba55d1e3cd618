/** The two ways of running a list of configured operations, and the renaming of their arguments. */
module ConfigRunners {
  import opened Wrappers

  datatype Json = Text(text: string) | Number(number: int) | Other(id: nat)

  type Object = map<string, Json>

  datatype Entry = NotAnObject | Command(fields: Object)

  datatype Context = Context(generateReport: int, verbose: int, singleThreaded: int, debug: int, report: string)

  // Renames of an operation's arguments, and the new name of an operation that was itself renamed.
  datatype Mapping = Mapping(newName: string, arguments: map<string, string>)

  // What the core knows; operations act on a state and on the context they are given.
  datatype Core<!S> = Core(
    operations: map<string, string>,        // names they are looked up by, and the name they give themselves
    mappings: map<string, Mapping>,
    sorted: set<string> -> seq<string>,     // the keys of an object in order
    run: (S, Context, string, Object) -> (S, Context, bool))

  ghost predicate Enumerates<S>(core: Core<S>)
  {
    forall keys {:trigger core.sorted(keys)} :: forall k :: k in core.sorted(keys) <==> k in keys
  }

  // ---------- Renamed operations and arguments ----------

  function Lookup<S>(core: Core<S>, name: string): Option<string>
  {
    if name in core.operations then Some(name)
    else if name in core.mappings && core.mappings[name].newName in core.operations then Some(core.mappings[name].newName)
    else None
  }

  function NewKey(arguments: map<string, string>, key: string): string
  {
    if key != "operation" && key in arguments then arguments[key] else key
  }

  function NewValue(name: string, key: string, value: Json): Json
  {
    if key == "operation" then Text(name) else value
  }

  // Later keys overwrite earlier ones that were renamed to the same.
  function MapKeys(name: string, arguments: map<string, string>, config: Object, keys: seq<string>): Object
    requires forall k :: k in keys ==> k in config
  {
    if keys == [] then map[]
    else
      var k := keys[|keys| - 1];
      MapKeys(name, arguments, config, keys[..|keys| - 1])[NewKey(arguments, k) := NewValue(name, k, config[k])]
  }

  ghost function Mapped<S>(core: Core<S>, name: string, config: Object): Object
    requires Enumerates(core)
  {
    if name in core.mappings then MapKeys(name, core.mappings[name].arguments, config, core.sorted(config.Keys)) else config
  }

  method MapOperation<S>(core: Core<S>, name: string, config: Object) returns (mapped: Object)
    requires Enumerates(core)
    ensures mapped == Mapped(core, name, config)
  {
    if name !in core.mappings {
      return config;
    }
    var keys := core.sorted(config.Keys);
    mapped := map[];
    for i := 0 to |keys|
      invariant forall k :: k in keys[..i] ==> k in config
      invariant mapped == MapKeys(name, core.mappings[name].arguments, config, keys[..i])
    {
      assert keys[..i + 1][..i] == keys[..i] && keys[i] in core.sorted(config.Keys);
      var key, value := keys[i], config[keys[i]];
      if key == "operation" {
        value := Text(name);
      } else if key in core.mappings[name].arguments {
        key := core.mappings[name].arguments[key];
      }
      mapped := mapped[key := value];
    }
    assert keys[..|keys|] == keys;
  }

  // No argument is renamed to one that is itself renamed, nor to the key of the operation's name.
  predicate Settled(arguments: map<string, string>)
  {
    forall k :: k in arguments && k != "operation" ==>
      arguments[k] != "operation" && (arguments[k] in arguments ==> arguments[arguments[k]] == arguments[k])
  }

  // What a mapped object looks like: settled keys, and its own name under "operation".
  ghost predicate MappedForm(name: string, arguments: map<string, string>, config: Object)
  {
    forall k :: k in config ==> NewKey(arguments, k) == k && NewValue(name, k, config[k]) == config[k]
  }

  lemma {:induction false} MapKeysForm(name: string, arguments: map<string, string>, config: Object, keys: seq<string>)
    requires Settled(arguments) && forall k :: k in keys ==> k in config
    ensures MappedForm(name, arguments, MapKeys(name, arguments, config, keys))
  {
    if keys != [] {
      var k := keys[|keys| - 1];
      assert k in keys && forall l :: l in keys[..|keys| - 1] ==> l in keys;
      MapKeysForm(name, arguments, config, keys[..|keys| - 1]);
    }
  }

  lemma {:induction false} MapKeysUnchanged(name: string, arguments: map<string, string>, config: Object, keys: seq<string>)
    requires MappedForm(name, arguments, config) && forall k :: k in keys ==> k in config
    ensures forall k :: k in MapKeys(name, arguments, config, keys) <==> k in keys
    ensures forall k :: k in keys ==> MapKeys(name, arguments, config, keys)[k] == config[k]
  {
    if keys != [] {
      var k := keys[|keys| - 1];
      assert keys == keys[..|keys| - 1] + [k];
      assert k in keys && forall l :: l in keys[..|keys| - 1] ==> l in keys;
      MapKeysUnchanged(name, arguments, config, keys[..|keys| - 1]);
    }
  }

  /** Mapping a second time, as an operation does when it is executed, changes nothing. */
  lemma MappingTwice<S>(core: Core<S>, name: string, config: Object)
    requires Enumerates(core) && (name in core.mappings ==> Settled(core.mappings[name].arguments))
    ensures Mapped(core, name, Mapped(core, name, config)) == Mapped(core, name, config)
  {
    if name in core.mappings {
      var once := Mapped(core, name, config);
      MapKeysForm(name, core.mappings[name].arguments, config, core.sorted(config.Keys));
      MapKeysUnchanged(name, core.mappings[name].arguments, once, core.sorted(once.Keys));
    }
  }

  lemma {:induction false} SingleKey(name: string, arguments: map<string, string>, config: Object, key: string, keys: seq<string>)
    requires key in config && keys != [] && forall k :: k in keys ==> k == key
    ensures MapKeys(name, arguments, config, keys) == map[NewKey(arguments, key) := NewValue(name, key, config[key])]
  {
    assert keys[|keys| - 1] in keys;
    if |keys| > 1 {
      var init := keys[..|keys| - 1];
      assert forall k :: k in init ==> k in keys;
      SingleKey(name, arguments, config, key, init);
    }
  }

  // An unsettled rename shows on an object with that one argument.
  lemma UnsettledMoves<S>(core: Core<S>, name: string, k: string)
    requires Enumerates(core) && name in core.mappings && k in core.mappings[name].arguments && k != "operation"
    requires var arguments, to := core.mappings[name].arguments, core.mappings[name].arguments[k];
             to == "operation" || (to in arguments && arguments[to] != to)
    ensures var config: Object := map[k := if name == "" then Number(0) else Text("")];
            Mapped(core, name, Mapped(core, name, config)) != Mapped(core, name, config)
  {
    var arguments := core.mappings[name].arguments;
    var to, value := arguments[k], if name == "" then Number(0) else Text("");
    var config: Object := map[k := value];
    var once: Object := map[to := value];
    assert k in config && to in once;
    SingleKey(name, arguments, config, k, core.sorted(config.Keys));
    SingleKey(name, arguments, once, to, core.sorted(once.Keys));
    var twice := map[NewKey(arguments, to) := NewValue(name, to, value)];
    assert Mapped(core, name, config) == once && Mapped(core, name, once) == twice;
    assert to in once && once[to] == value;
    assert to in twice ==> twice[to] == NewValue(name, to, value);
  }

  /** Mapping a second time changes nothing, whatever the object, if and only if the table of renames is settled. */
  lemma MappingTwiceIff<S>(core: Core<S>, name: string)
    requires Enumerates(core)
    ensures (forall config :: Mapped(core, name, Mapped(core, name, config)) == Mapped(core, name, config))
            <==> (name in core.mappings ==> Settled(core.mappings[name].arguments))
  {
    hide Mapped, Enumerates;
    if name in core.mappings ==> Settled(core.mappings[name].arguments) {
      forall config ensures Mapped(core, name, Mapped(core, name, config)) == Mapped(core, name, config) {
        MappingTwice(core, name, config);
      }
    } else {
      var arguments := core.mappings[name].arguments;
      var k :| k in arguments && k != "operation"
               && !(arguments[k] != "operation" && (arguments[k] in arguments ==> arguments[arguments[k]] == arguments[k]));
      UnsettledMoves(core, name, k);
    }
  }

  // An argument renamed twice in a row moves on when it is mapped again.
  lemma ChainMovesOn<S>(core: Core<S>, config: Object)
    requires Enumerates(core)
    requires core.mappings == map["op" := Mapping("", map["a" := "b", "b" := "c"])]
    requires config == map["a" := Number(1)]
    ensures Mapped(core, "op", config) == map["b" := Number(1)]
    ensures Mapped(core, "op", Mapped(core, "op", config)) == map["c" := Number(1)]
  {
    var arguments := map["a" := "b", "b" := "c"];
    SingleKey("op", arguments, config, "a", core.sorted(config.Keys));
    SingleKey("op", arguments, map["b" := Number(1)], "b", core.sorted(map["b" := Number(1)].Keys));
  }

  // ---------- Entries ----------

  function NumberOr(fields: Object, key: string, default: int): int
  {
    if key in fields && fields[key].Number? then fields[key].number else default
  }

  function Configured(fields: Object, context: Context): Context
  {
    context.(generateReport := NumberOr(fields, "generateReport", context.generateReport),
             verbose := NumberOr(fields, "verbose", context.verbose),
             singleThreaded := NumberOr(fields, "singleThreaded", context.singleThreaded),
             debug := NumberOr(fields, "debug", context.debug))
  }

  datatype Meaning = Malformed | Options(fields: Object) | Unknown | Call(operation: string, fields: Object)

  // Not an object, or without the name of an operation.
  predicate IsMalformed(entry: Entry)
  {
    entry.NotAnObject? || "operation" !in entry.fields || !entry.fields["operation"].Text?
  }

  function Read<S>(core: Core<S>, entry: Entry): (meaning: Meaning)
    ensures meaning.Call? ==> meaning.operation in core.operations
    ensures meaning.Malformed? <==> IsMalformed(entry)
  {
    if IsMalformed(entry) then Malformed
    else
      var name := entry.fields["operation"].text;
      if name == "executionContext" then Options(entry.fields)
      else
        var found := Lookup(core, name);
        if found.None? then Unknown else Call(found.value, entry.fields)
  }

  // ---------- The runners ----------

  datatype Executed = Executed(operation: string, arguments: Object, context: Context)

  datatype Stop = Completed | AtMalformed | AtUnknown | AtFailure

  // Where a run is: the state, the context, and what has been executed.
  datatype Progress<S> = Progress(state: S, context: Context, trace: seq<Executed>)

  datatype Outcome<S> = Outcome(progress: Progress<S>, stop: Stop, at: nat) {
    predicate Ok() { stop.Completed? }
  }

  ghost function Execute<S>(core: Core<S>, p: Progress<S>, operation: string, fields: Object): (Progress<S>, bool)
    requires Enumerates(core) && operation in core.operations
  {
    var arguments := Mapped(core, core.operations[operation], fields);
    var (state, context, ok) := core.run(p.state, p.context, operation, arguments);
    (Progress(state, context, p.trace + [Executed(operation, arguments, p.context)]), ok)
  }

  // Stops at an operation that does not exist, or passes over it.
  ghost function Run<S>(core: Core<S>, entries: seq<Entry>, i: nat, p: Progress<S>, strict: bool): (outcome: Outcome<S>)
    requires Enumerates(core) && i <= |entries|
    ensures outcome.at <= |entries|
    decreases |entries| - i
  {
    if i == |entries| then Outcome(p, Completed, i)
    else
      match Read(core, entries[i])
      case Malformed => Outcome(p, AtMalformed, i)
      case Options(fields) => Run(core, entries, i + 1, p.(context := Configured(fields, p.context)), strict)
      case Unknown => if strict then Outcome(p, AtUnknown, i) else Run(core, entries, i + 1, p, strict)
      case Call(operation, fields) =>
        var (p', ok) := Execute(core, p, operation, fields);
        if ok then Run(core, entries, i + 1, p', strict) else Outcome(p', AtFailure, i)
  }

  // The first runner collects results and hands the report back however it stops.
  method ExecuteConfig<S>(core: Core<S>, entries: seq<Entry>, start: Progress<S>)
    returns (outcome: Outcome<S>, results: seq<bool>, report: string)
    requires Enumerates(core) && start.trace == []
    ensures outcome == Run(core, entries, 0, start, true)
    ensures outcome.Ok() <==> forall k :: 0 <= k < |results| ==> results[k]
    ensures report == outcome.progress.context.report
  {
    var p, i := start, 0;
    results := [];
    var stop := Completed;
    while i < |entries|
      invariant i <= |entries| && stop.Completed? && (forall k :: 0 <= k < |results| ==> results[k])
      invariant Run(core, entries, 0, start, true) == Run(core, entries, i, p, true)
    {
      var entry := entries[i];
      if IsMalformed(entry) {
        results := results + [false];
        stop := AtMalformed;
        break;
      }
      var name := entry.fields["operation"].text;
      if name == "executionContext" {
        p := p.(context := Configured(entry.fields, p.context));
      } else {
        var operation := Lookup(core, name);
        if operation.None? {
          results := results + [false];
          stop := AtUnknown;
          break;
        }
        var arguments := MapOperation(core, core.operations[operation.value], entry.fields);
        var (state, context, ok) := core.run(p.state, p.context, operation.value, arguments);
        p := Progress(state, context, p.trace + [Executed(operation.value, arguments, p.context)]);
        results := results + [ok];
        if !ok {
          stop := AtFailure;
          break;
        }
      }
      i := i + 1;
    }
    outcome := Outcome(p, stop, i);
    report := p.context.report;
    if !stop.Completed? {
      assert !results[|results| - 1];
    }
  }

  // The second returns at once on a malformed entry, without handing the report back.
  method ParseConfig<S>(core: Core<S>, entries: seq<Entry>, start: Progress<S>)
    returns (outcome: Outcome<S>, ok: bool, report: Option<string>)
    requires Enumerates(core) && start.trace == []
    ensures outcome == Run(core, entries, 0, start, false) && ok == outcome.Ok()
    ensures (forall k :: 0 <= k < |entries| ==> !IsMalformed(entries[k])) ==> report.Some?
    ensures report == if outcome.stop.AtMalformed? then None else Some(outcome.progress.context.report)
  {
    var p, i := start, 0;
    ok := true;
    while i < |entries|
      invariant i <= |entries| && ok
      invariant Run(core, entries, 0, start, false) == Run(core, entries, i, p, false)
    {
      var entry := entries[i];
      if IsMalformed(entry) {
        return Outcome(p, AtMalformed, i), false, None;
      }
      var name := entry.fields["operation"].text;
      if name == "executionContext" {
        p := p.(context := Configured(entry.fields, p.context));
      } else {
        var operation := Lookup(core, name);
        if operation.Some? {
          var arguments := MapOperation(core, core.operations[operation.value], entry.fields);
          var (state, context, success) := core.run(p.state, p.context, operation.value, arguments);
          p := Progress(state, context, p.trace + [Executed(operation.value, arguments, p.context)]);
          if !success {
            ok := false;
            break;
          }
        }
      }
      i := i + 1;
    }
    outcome := Outcome(p, if ok then Completed else AtFailure, i);
    report := Some(p.context.report);
  }

  // ---------- Agreement ----------

  predicate AllResolve<S>(core: Core<S>, entries: seq<Entry>)
  {
    forall i :: 0 <= i < |entries| ==> !Read(core, entries[i]).Unknown?
  }

  /** When every name resolves, both runners execute the same operations with the same arguments and options, stop at
      the same entry for the same reason, and agree on success. */
  lemma {:induction false} RunnersAgree<S>(core: Core<S>, entries: seq<Entry>, i: nat, p: Progress<S>)
    requires Enumerates(core) && AllResolve(core, entries) && i <= |entries|
    ensures Run(core, entries, i, p, true) == Run(core, entries, i, p, false)
    decreases |entries| - i
  {
    hide Enumerates, Execute, Configured;
    if i < |entries| {
      assert !Read(core, entries[i]).Unknown?;
      hide Read, AllResolve;
      match Read(core, entries[i])
      case Malformed =>
      case Options(fields) => RunnersAgree(core, entries, i + 1, p.(context := Configured(fields, p.context)));
      case Unknown =>
      case Call(operation, fields) =>
        RunnersAgree(core, entries, i + 1, Execute(core, p, operation, fields).0);
    }
  }

  // From here on nothing is executed before a malformed entry is met.
  predicate OnlyMalformed<S>(core: Core<S>, entries: seq<Entry>, i: nat)
    requires i <= |entries|
    decreases |entries| - i
  {
    i < |entries| &&
    match Read(core, entries[i])
    case Malformed => true
    case Call(_, _) => false
    case _ => OnlyMalformed(core, entries, i + 1)
  }

  ghost predicate SameEffects<S>(a: Outcome<S>, b: Outcome<S>)
  {
    a.progress.trace == b.progress.trace && a.Ok() == b.Ok()
  }

  lemma {:induction false} TraceGrows<S>(core: Core<S>, entries: seq<Entry>, i: nat, p: Progress<S>)
    requires Enumerates(core) && i <= |entries|
    ensures |Run(core, entries, i, p, false).progress.trace| >= |p.trace|
    ensures Run(core, entries, i, p, false).progress.trace == p.trace && !Run(core, entries, i, p, false).Ok()
            <==> OnlyMalformed(core, entries, i)
    decreases |entries| - i
  {
    hide Enumerates, Configured, Read;
    if i < |entries| {
      match Read(core, entries[i])
      case Malformed =>
      case Options(fields) => TraceGrows(core, entries, i + 1, p.(context := Configured(fields, p.context)));
      case Unknown => TraceGrows(core, entries, i + 1, p);
      case Call(operation, fields) =>
        TraceGrows(core, entries, i + 1, Execute(core, p, operation, fields).0);
    }
  }

  // An unknown name is met before a malformed entry only if nothing is executed between the two.
  predicate Agreeing<S>(core: Core<S>, entries: seq<Entry>, i: nat)
    requires i <= |entries|
    decreases |entries| - i
  {
    i == |entries| ||
    match Read(core, entries[i])
    case Malformed => true
    case Unknown => OnlyMalformed(core, entries, i)
    case _ => Agreeing(core, entries, i + 1)
  }

  ghost predicate AlwaysSucceeds<S(!new)>(core: Core<S>)
  {
    forall state, context, operation, arguments {:trigger core.run(state, context, operation, arguments)} ::
      core.run(state, context, operation, arguments).2
  }

  lemma ExecuteSucceeds<S(!new)>(core: Core<S>, p: Progress<S>, operation: string, fields: Object)
    requires Enumerates(core) && AlwaysSucceeds(core) && operation in core.operations
    ensures Execute(core, p, operation, fields).1
  {
    hide Enumerates, Mapped;
  }

  /** For a configuration that agrees, both runners have the same effects whatever the operations do; and when no
      operation fails, for no other. */
  lemma {:induction false} RunnersAgreeWhen<S(!new)>(core: Core<S>, entries: seq<Entry>, i: nat, p: Progress<S>)
    requires Enumerates(core) && i <= |entries|
    ensures Agreeing(core, entries, i) ==> SameEffects(Run(core, entries, i, p, true), Run(core, entries, i, p, false))
    ensures AlwaysSucceeds(core) ==>
              (Agreeing(core, entries, i) <==> SameEffects(Run(core, entries, i, p, true), Run(core, entries, i, p, false)))
    decreases |entries| - i
  {
    hide Enumerates, Execute, Configured, Read, AlwaysSucceeds;
    if i < |entries| {
      match Read(core, entries[i])
      case Malformed =>
      case Options(fields) => RunnersAgreeWhen(core, entries, i + 1, p.(context := Configured(fields, p.context)));
      case Unknown => TraceGrows(core, entries, i, p);
      case Call(operation, fields) =>
        if AlwaysSucceeds(core) {
          ExecuteSucceeds(core, p, operation, fields);
        }
        RunnersAgreeWhen(core, entries, i + 1, Execute(core, p, operation, fields).0);
    }
  }

  // The same names and renames, with operations that do something else.
  function With<S>(core: Core<S>, run: (S, Context, string, Object) -> (S, Context, bool)): Core<S>
  {
    core.(run := run)
  }

  function Succeeding<S>(): (S, Context, string, Object) -> (S, Context, bool)
  {
    (state: S, context: Context, operation: string, arguments: Object) => (state, context, true)
  }

  lemma {:induction false} AgreeingByNames<S>(core: Core<S>, other: Core<S>, entries: seq<Entry>, i: nat)
    requires core.operations == other.operations && core.mappings == other.mappings && i <= |entries|
    ensures OnlyMalformed(core, entries, i) == OnlyMalformed(other, entries, i)
    ensures Agreeing(core, entries, i) == Agreeing(other, entries, i)
    decreases |entries| - i
  {
    if i < |entries| {
      assert Read(core, entries[i]) == Read(other, entries[i]);
      AgreeingByNames(core, other, entries, i + 1);
      hide Read;
    }
  }

  /** The two runners have the same effects, whatever the operations do and wherever they start, if and only if the
      configuration agrees: it meets no unknown name, or only skipped entries and then a malformed one follow. */
  lemma RunnersAgreeIff<S(!new,00)>(core: Core<S>, entries: seq<Entry>)
    requires Enumerates(core)
    ensures Agreeing(core, entries, 0) <==>
              forall run, p ::
                && Enumerates(With(core, run))
                && SameEffects(Run(With(core, run), entries, 0, p, true), Run(With(core, run), entries, 0, p, false))
  {
    hide Run, SameEffects, Agreeing;
    forall run ensures Enumerates(With(core, run)) && Agreeing(With(core, run), entries, 0) == Agreeing(core, entries, 0) {
      AgreeingByNames(core, With(core, run), entries, 0);
    }
    forall run, p
      ensures Agreeing(core, entries, 0) ==>
                SameEffects(Run(With(core, run), entries, 0, p, true), Run(With(core, run), entries, 0, p, false)) {
      RunnersAgreeWhen(With(core, run), entries, 0, p);
    }
    var start: Progress<S> :| true;
    var succeed := Succeeding<S>();
    assert AlwaysSucceeds(With(core, succeed));
    hide With, AlwaysSucceeds, Enumerates;
    RunnersAgreeWhen(With(core, succeed), entries, 0, start);
  }

  // A malformed entry is the only thing that can keep the second runner from handing the report back, and does if no
  // operation fails before.
  lemma {:induction false} StopsAtMalformedWhen<S(!new)>(core: Core<S>, entries: seq<Entry>, i: nat, p: Progress<S>)
    requires Enumerates(core) && i <= |entries|
    ensures Run(core, entries, i, p, false).stop.AtMalformed? ==> exists k :: i <= k < |entries| && IsMalformed(entries[k])
    ensures AlwaysSucceeds(core) ==>
              (Run(core, entries, i, p, false).stop.AtMalformed? <==> exists k :: i <= k < |entries| && IsMalformed(entries[k]))
    decreases |entries| - i
  {
    hide Enumerates, Execute, Configured, IsMalformed, AlwaysSucceeds;
    if i < |entries| {
      match Read(core, entries[i])
      case Malformed =>
      case Options(fields) => StopsAtMalformedWhen(core, entries, i + 1, p.(context := Configured(fields, p.context)));
      case Unknown => StopsAtMalformedWhen(core, entries, i + 1, p);
      case Call(operation, fields) =>
        if AlwaysSucceeds(core) {
          ExecuteSucceeds(core, p, operation, fields);
        }
        StopsAtMalformedWhen(core, entries, i + 1, Execute(core, p, operation, fields).0);
    }
  }

  /** The second runner hands the report back, whatever the operations do, if and only if no entry is malformed. */
  lemma ReportHandedBackIff<S(!new,00)>(core: Core<S>, entries: seq<Entry>)
    requires Enumerates(core)
    ensures (forall k :: 0 <= k < |entries| ==> !IsMalformed(entries[k])) <==>
              forall run, p ::
                Enumerates(With(core, run)) && !Run(With(core, run), entries, 0, p, false).stop.AtMalformed?
  {
    hide Run, IsMalformed;
    forall run ensures Enumerates(With(core, run)) {
    }
    forall run, p
      ensures Run(With(core, run), entries, 0, p, false).stop.AtMalformed? ==>
                exists k :: 0 <= k < |entries| && IsMalformed(entries[k]) {
      StopsAtMalformedWhen(With(core, run), entries, 0, p);
    }
    var start: Progress<S> :| true;
    var succeed := Succeeding<S>();
    assert AlwaysSucceeds(With(core, succeed));
    hide With, AlwaysSucceeds, Enumerates;
    StopsAtMalformedWhen(With(core, succeed), entries, 0, start);
  }
}

/** The plugin manager's behaviour as pure functions over abstract inputs: what
    one resolved class, one archive, one `disableAll` and one `reload` do to the
    registry, the current-archive field and the trace of observable effects.
    Reflection, class loading and coroutine jobs are replaced by the flags and
    identifiers carried in `ClassInfo`, `Archive` and `Plugin`. */
module Semantics {
  import opened Naming

  datatype Option<+T> = None | Some(value: T)

  /** A `MainPlugin` instance; `hasJob` tells whether its coroutine context
      holds a `Job`. */
  datatype Plugin = Plugin(id: nat, hasJob: bool)

  /** The point, if any, at which processing a resolved class throws. A point
      that the class's roles never reach has no effect. */
  datatype Fault =
    | NoFault
    | PluginInstanceFails        // obtaining the instance as MainPlugin throws
    | EnableThrows               // onEnable() throws
    | InitializerInstanceFails   // obtaining the instance as AutoInitializer throws
    | InitializeThrows           // initialize() throws
    | CommandInstanceFails       // obtaining the instance as Command throws
    | RegisterThrows(call: nat)  // registerCommand call number `call` throws (0 is the canonical name)

  /** What reflection tells about one class: its roles, its `RCommand` and
      `RAlias` annotations, and the instance each role's `instance` lookup
      yields (one per call site, since nothing says they coincide). */
  datatype ClassInfo = ClassInfo(
    isMainPlugin: bool, plugin: Plugin,
    isAutoInitializer: bool, initializer: nat,
    rCommand: Option<string>, isCommand: bool, command: nat,
    rAlias: Option<seq<string>>,
    fault: Fault)

  /** A jar file: whether its class loader and `JarFile` open, its entry names
      in enumeration order, and the classes its loader resolves by name. */
  datatype Archive = Archive(opens: bool, entries: seq<string>, classes: map<string, ClassInfo>)

  /** One item of the plugins directory listing. */
  datatype DirEntry = DirEntry(name: string, isFile: bool, content: Archive)

  /** Observable effects, in the order they happen. */
  datatype Event =
    | JobCancelled(plugin: Plugin)             // disableAll cancels the plugin's job
    | JobMissing(plugin: Plugin)               // disableAll reports, on the error stream, that the job is missing
    | HookAttached(plugin: Plugin)             // a completion handler calling onDisable() is installed on the job
    | Added(plugin: Plugin)                    // the plugin is appended to the registry
    | Enabled(plugin: Plugin)                  // onEnable() is called
    | Initialized(initializer: nat)            // initialize() is called
    | CommandRegistered(name: string, command: nat)
    | LoadFailed(file: string)                 // the warning, naming the file, that loading it failed

  /** The effects of a step and whether it ended by throwing. */
  datatype Outcome = Outcome(events: seq<Event>, failed: bool)

  /** The manager's state: the registry, the current-archive field and the trace. */
  datatype State = State(plugins: seq<Plugin>, jarFile: Option<string>, log: seq<Event>)

  /** Run `a`, then `b` unless `a` threw: the exception skips everything after it. */
  function Then(a: Outcome, b: Outcome): Outcome {
    if a.failed then a else Outcome(a.events + b.events, b.failed)
  }

  /** The plugins appended to the registry by a trace, in order. */
  function AddedIn(evs: seq<Event>): (ps: seq<Plugin>)
    ensures forall p :: p in ps <==> Added(p) in evs
  {
    if evs == [] then []
    else (if evs[0].Added? then [evs[0].plugin] else []) + AddedIn(evs[1..])
  }

  lemma {:induction false} AddedInAppend(a: seq<Event>, b: seq<Event>)
    ensures AddedIn(a + b) == AddedIn(a) + AddedIn(b)
  {
    if a == [] {
      assert a + b == b;
    } else {
      var head := if a[0].Added? then [a[0].plugin] else [];
      assert (a + b)[0] == a[0];
      assert (a + b)[1..] == a[1..] + b;
      assert AddedIn(a + b) == head + AddedIn(a[1..] + b);
      AddedInAppend(a[1..], b);
      AppendAssoc(head, AddedIn(a[1..]), AddedIn(b), []);
    }
  }

  lemma AppendAssoc<T>(a: seq<T>, b: seq<T>, c: seq<T>, d: seq<T>)
    ensures a + b + c == a + (b + c)
    ensures a + b + c + d == a + (b + c + d)
  {
  }

  /** No event of the trace is the load warning. */
  predicate Quiet(evs: seq<Event>) {
    forall i :: 0 <= i < |evs| ==> !evs[i].LoadFailed?
  }

  // ---------------------------------------------------------------- disableAll

  function DisableEvent(p: Plugin): Event {
    if p.hasJob then JobCancelled(p) else JobMissing(p)
  }

  /** The effects of walking the registry in `disableAll`. */
  function DisableEvents(ps: seq<Plugin>): (evs: seq<Event>)
    ensures |evs| == |ps|
    ensures forall i :: 0 <= i < |ps| ==>
              evs[i] == if ps[i].hasJob then JobCancelled(ps[i]) else JobMissing(ps[i])
  {
    if ps == [] then [] else DisableEvents(ps[..|ps| - 1]) + [DisableEvent(ps[|ps| - 1])]
  }

  /** `disableAll`: cancel or report each registered plugin, then clear the registry. */
  function DisableRun(s: State): (t: State)
    ensures t.plugins == [] && t.jarFile == s.jarFile
    ensures |t.log| == |s.log| + |s.plugins| && t.log[..|s.log|] == s.log
    ensures s.plugins == [] ==> t == s
  {
    State([], s.jarFile, s.log + DisableEvents(s.plugins))
  }

  /** Every registered plugin with a job has it cancelled, every one without a
      job is reported, and nothing else happens. */
  lemma DisableCancelsExactly(ps: seq<Plugin>, p: Plugin)
    ensures JobCancelled(p) in DisableEvents(ps) <==> p in ps && p.hasJob
    ensures JobMissing(p) in DisableEvents(ps) <==> p in ps && !p.hasJob
    ensures forall e :: e in DisableEvents(ps) ==> e.JobCancelled? || e.JobMissing?
  {
    var evs := DisableEvents(ps);
    if p in ps {
      var i :| 0 <= i < |ps| && ps[i] == p;
      assert evs[i] == DisableEvent(p);
    }
  }

  // ------------------------------------------------------- one resolved class

  /** The `MainPlugin` branch: hook, append, onEnable. */
  function PluginStage(c: ClassInfo): (o: Outcome)
    ensures Added(c.plugin) in o.events <==>
              c.isMainPlugin && c.fault != PluginInstanceFails && c.plugin.hasJob
    ensures o.failed <==>
              c.isMainPlugin && (c.fault in {PluginInstanceFails, EnableThrows} || !c.plugin.hasJob)
  {
    if !c.isMainPlugin then Outcome([], false)
    else if c.fault == PluginInstanceFails || !c.plugin.hasJob then Outcome([], true)
    else Outcome([HookAttached(c.plugin), Added(c.plugin), Enabled(c.plugin)], c.fault == EnableThrows)
  }

  /** The `AutoInitializer` branch. */
  function InitStage(c: ClassInfo): (o: Outcome)
    ensures Initialized(c.initializer) in o.events <==>
              c.isAutoInitializer && c.fault != InitializerInstanceFails
    ensures o.failed <==>
              c.isAutoInitializer && c.fault in {InitializerInstanceFails, InitializeThrows}
    ensures forall e :: e in o.events ==> e == Initialized(c.initializer)
  {
    if !c.isAutoInitializer then Outcome([], false)
    else if c.fault == InitializerInstanceFails then Outcome([], true)
    else Outcome([Initialized(c.initializer)], c.fault == InitializeThrows)
  }

  /** The names registered for a class when nothing throws: none unless it has
      an `RCommand` annotation and is a `Command`; then the canonical name
      followed by the aliases of its `RAlias` annotation, if any. */
  function CommandNames(c: ClassInfo): (names: seq<string>)
    ensures c.rCommand.None? || !c.isCommand ==> names == []
    ensures c.rCommand.Some? && c.isCommand ==>
              |names| > 0 && names[0] == c.rCommand.value &&
              names[1..] == (if c.rAlias.Some? then c.rAlias.value else [])
  {
    match c.rCommand
    case None => []
    case Some(name) =>
      if !c.isCommand then []
      else [name] + (match c.rAlias case None => [] case Some(aliases) => aliases)
  }

  /** One registration of `cmd` under each name, in order. */
  function RegisterEvents(names: seq<string>, cmd: nat): (evs: seq<Event>)
    ensures |evs| == |names|
    ensures forall i :: 0 <= i < |names| ==> evs[i] == CommandRegistered(names[i], cmd)
  {
    if names == [] then []
    else RegisterEvents(names[..|names| - 1], cmd) + [CommandRegistered(names[|names| - 1], cmd)]
  }

  /** The command branch: registrations stop at the call that throws. */
  function CommandStage(c: ClassInfo): (o: Outcome)
    ensures !o.failed ==> o.events == RegisterEvents(CommandNames(c), c.command)
    ensures o.failed <==>
              (c.rCommand.Some? && c.isCommand &&
               (c.fault == CommandInstanceFails ||
                (c.fault.RegisterThrows? && c.fault.call < |CommandNames(c)|)))
    ensures o.failed && c.fault.RegisterThrows? ==> |o.events| == c.fault.call + 1
    ensures forall e :: e in o.events ==>
              e.CommandRegistered? && e.command == c.command && e.name in CommandNames(c)
  {
    if c.rCommand.None? || !c.isCommand then Outcome([], false)
    else if c.fault == CommandInstanceFails then Outcome([], true)
    else
      var names := CommandNames(c);
      if c.fault.RegisterThrows? && c.fault.call < |names|
      then Outcome(RegisterEvents(names[..c.fault.call + 1], c.command), true)
      else Outcome(RegisterEvents(names, c.command), false)
  }

  /** One resolved class: the three role checks in their fixed order. */
  function ClassRun(c: ClassInfo): (o: Outcome)
    ensures o.failed <==> PluginStage(c).failed || InitStage(c).failed || CommandStage(c).failed
    ensures o.failed ==> c.fault != NoFault || (c.isMainPlugin && !c.plugin.hasJob)
  {
    Then(PluginStage(c), Then(InitStage(c), CommandStage(c)))
  }

  /** A trace without `Added` events leaves the registry alone. */
  lemma {:induction false} NoAddedEvent(evs: seq<Event>)
    requires forall i :: 0 <= i < |evs| ==> !evs[i].Added?
    ensures AddedIn(evs) == []
  {
    if evs != [] {
      NoAddedEvent(evs[1..]);
    }
  }

  lemma PluginStageAdded(c: ClassInfo)
    ensures AddedIn(PluginStage(c).events) ==
              if c.isMainPlugin && c.fault != PluginInstanceFails && c.plugin.hasJob
              then [c.plugin] else []
  {
    var evs := PluginStage(c).events;
    if evs != [] {
      NoAddedEvent(evs[2..]);
      assert evs[1..][1..] == evs[2..];
    }
  }

  lemma CommandStageAdded(c: ClassInfo)
    ensures AddedIn(CommandStage(c).events) == []
    ensures Quiet(CommandStage(c).events)
  {
    NoAddedEvent(CommandStage(c).events);
  }

  /** A class adds at most one plugin to the registry: its own instance, and
      only when it is a `MainPlugin` whose instance is obtained and has a job. */
  lemma ClassRunAdded(c: ClassInfo)
    ensures AddedIn(ClassRun(c).events) ==
              if c.isMainPlugin && c.fault != PluginInstanceFails && c.plugin.hasJob
              then [c.plugin] else []
  {
    var p, i, k := PluginStage(c), InitStage(c), CommandStage(c);
    PluginStageAdded(c);
    CommandStageAdded(c);
    NoAddedEvent(i.events);
    AddedInAppend(i.events, k.events);
    AddedInAppend(p.events, Then(i, k).events);
  }

  /** How the three stages compose into the run of a class; only the plugin
      stage touches the registry. */
  lemma ClassRunSteps(c: ClassInfo)
    ensures PluginStage(c).failed ==> ClassRun(c) == PluginStage(c)
    ensures !PluginStage(c).failed && InitStage(c).failed ==>
              ClassRun(c) == Outcome(PluginStage(c).events + InitStage(c).events, true)
    ensures !PluginStage(c).failed && !InitStage(c).failed ==>
              ClassRun(c) == Outcome(PluginStage(c).events + InitStage(c).events + CommandStage(c).events,
                                     CommandStage(c).failed)
    ensures AddedIn(ClassRun(c).events) == AddedIn(PluginStage(c).events)
  {
    var p, i, k := PluginStage(c).events, InitStage(c).events, CommandStage(c).events;
    assert p + (i + k) == p + i + k;
    PluginStageAdded(c);
    ClassRunAdded(c);
  }

  /** The trace of a class never holds the load warning. */
  lemma ClassRunQuiet(c: ClassInfo)
    ensures Quiet(ClassRun(c).events)
  {
    CommandStageAdded(c);
  }

  /** A `MainPlugin` is hooked, then appended, then enabled; the append stands
      when `onEnable` throws, and a plugin without a job is never appended. */
  lemma PluginActivationOrder(c: ClassInfo)
    requires c.isMainPlugin && c.fault != PluginInstanceFails
    ensures c.plugin.hasJob ==>
              |ClassRun(c).events| >= 3 &&
              ClassRun(c).events[..3] == [HookAttached(c.plugin), Added(c.plugin), Enabled(c.plugin)]
    ensures c.plugin.hasJob && c.fault == EnableThrows ==>
              ClassRun(c) == Outcome([HookAttached(c.plugin), Added(c.plugin), Enabled(c.plugin)], true)
    ensures !c.plugin.hasJob ==> ClassRun(c) == Outcome([], true)
  {
    var evs := PluginStage(c).events;
    if c.plugin.hasJob {
      assert (evs + Then(InitStage(c), CommandStage(c)).events)[..3] == evs;
    }
  }

  /** With nothing throwing, a class performs plugin activation, then
      `initialize()`, then its command registrations, each only when its own
      check holds; a class holding all three roles is activated once,
      initialised once and registered under 1 + (number of aliases) names,
      all with the same command instance. */
  lemma FixedRoleOrder(c: ClassInfo)
    requires c.fault == NoFault && (c.isMainPlugin ==> c.plugin.hasJob)
    ensures ClassRun(c) == Outcome(
              (if c.isMainPlugin then [HookAttached(c.plugin), Added(c.plugin), Enabled(c.plugin)] else [])
              + (if c.isAutoInitializer then [Initialized(c.initializer)] else [])
              + RegisterEvents(CommandNames(c), c.command),
              false)
  {
    var p, i, k := PluginStage(c), InitStage(c), CommandStage(c);
    assert !p.failed && !i.failed && !k.failed;
    assert p.events == if c.isMainPlugin then [HookAttached(c.plugin), Added(c.plugin), Enabled(c.plugin)] else [];
    assert i.events == if c.isAutoInitializer then [Initialized(c.initializer)] else [];
    AppendAssoc(p.events, i.events, k.events, []);
  }

  /** The names a class registers: none without `RCommand` (whatever its
      `RAlias` says) or when it is not a `Command`; otherwise the canonical
      name first and then every alias in order. */
  lemma CommandRegistrations(c: ClassInfo)
    ensures c.rCommand.None? || !c.isCommand ==> CommandNames(c) == []
    ensures c.rCommand.Some? && c.isCommand ==>
              |CommandNames(c)| == 1 + (if c.rAlias.Some? then |c.rAlias.value| else 0) &&
              CommandNames(c)[0] == c.rCommand.value &&
              CommandNames(c)[1..] == (if c.rAlias.Some? then c.rAlias.value else [])
    ensures forall e :: e in ClassRun(c).events && e.CommandRegistered? ==> e.command == c.command
  {
    var p, i, k := PluginStage(c).events, InitStage(c).events, CommandStage(c).events;
    forall e | e in ClassRun(c).events && e.CommandRegistered?
      ensures e.command == c.command
    {
      assert e in p + i + k;
      assert e in k;
    }
  }

  /** `o` is `full` cut short: its effects are a prefix of `full`'s, and it is
      all of `full` when it did not throw. */
  predicate CutShort(o: Outcome, full: Outcome) {
    |o.events| <= |full.events| && o.events == full.events[..|o.events|] &&
    (!o.failed ==> o == full)
  }

  lemma ThenCutShort(a: Outcome, fa: Outcome, b: Outcome, fb: Outcome)
    requires CutShort(a, fa) && CutShort(b, fb)
    ensures CutShort(Then(a, b), Then(fa, fb))
  {
    if a.failed && !fa.failed {
      assert (fa.events + fb.events)[..|a.events|] == fa.events[..|a.events|];
    }
    if !a.failed {
      assert (a.events + fb.events)[..|a.events + b.events|] == a.events + fb.events[..|b.events|];
    }
  }

  lemma CommandStageCutShort(c: ClassInfo)
    ensures CutShort(CommandStage(c), CommandStage(c.(fault := NoFault)))
  {
    var names := CommandNames(c);
    assert CommandNames(c.(fault := NoFault)) == names;
    if c.rCommand.Some? && c.isCommand && c.fault.RegisterThrows? && c.fault.call < |names| {
      var k := RegisterEvents(names[..c.fault.call + 1], c.command);
      assert k == RegisterEvents(names, c.command)[..|k|];
    }
  }

  /** A fault only cuts short the fixed sequence of effects: what happens is a
      prefix of what would happen without it, and all of it when nothing throws. */
  lemma FaultTruncates(c: ClassInfo)
    ensures var full := ClassRun(c.(fault := NoFault)).events;
            |ClassRun(c).events| <= |full| && ClassRun(c).events == full[..|ClassRun(c).events|]
    ensures !ClassRun(c).failed ==> ClassRun(c) == ClassRun(c.(fault := NoFault))
  {
    var d := c.(fault := NoFault);
    CommandStageCutShort(c);
    assert CutShort(InitStage(c), InitStage(d));
    assert CutShort(PluginStage(c), PluginStage(d));
    ThenCutShort(InitStage(c), InitStage(d), CommandStage(c), CommandStage(d));
    ThenCutShort(PluginStage(c), PluginStage(d), Then(InitStage(c), CommandStage(c)), Then(InitStage(d), CommandStage(d)));
  }

  // ------------------------------------------------------------- one archive

  /** One archive entry: skipped unless it is a `.class` entry; otherwise its
      class name is resolved (failing when the loader does not know it) and the
      class is processed. */
  function EntryRun(a: Archive, name: string): (o: Outcome)
    ensures !IsClassEntry(name) ==> o.events == [] && !o.failed
    ensures |o.events| > 0 ==> IsClassEntry(name) && ClassName(name) in a.classes
  {
    if !IsClassEntry(name) then Outcome([], false)
    else
      var cname := ClassName(name);
      if cname in a.classes then ClassRun(a.classes[cname]) else Outcome([], true)
  }

  /** The entries of an archive in enumeration order, inside one `runCatching`. */
  function EntriesRun(a: Archive, names: seq<string>): (o: Outcome)
    ensures o.failed <==> exists i :: 0 <= i < |names| && EntryRun(a, names[i]).failed
  {
    if names == [] then Outcome([], false)
    else
      var init, last := names[..|names| - 1], names[|names| - 1];
      assert names == init + [last];
      EntriesRunFailsStep(a, init, last);
      Then(EntriesRun(a, init), EntryRun(a, last))
  }

  /** One more entry fails the run exactly when it fails or an earlier one did. */
  lemma EntriesRunFailsStep(a: Archive, init: seq<string>, last: string)
    ensures ((exists i :: 0 <= i < |init| && EntryRun(a, init[i]).failed) || EntryRun(a, last).failed)
            <==> exists i :: 0 <= i < |init + [last]| && EntryRun(a, (init + [last])[i]).failed
  {
    var names := init + [last];
    if exists i :: 0 <= i < |names| && EntryRun(a, names[i]).failed {
      var i :| 0 <= i < |names| && EntryRun(a, names[i]).failed;
      if i < |init| {
        assert init[i] == names[i];
      }
    }
    if exists i :: 0 <= i < |init| && EntryRun(a, init[i]).failed {
      var i :| 0 <= i < |init| && EntryRun(a, init[i]).failed;
      assert names[i] == init[i];
    }
    if EntryRun(a, last).failed {
      assert names[|init|] == last;
    }
  }

  lemma ThenAssociative(x: Outcome, y: Outcome, z: Outcome)
    ensures Then(Then(x, y), z) == Then(x, Then(y, z))
  {
    if !x.failed && !y.failed {
      assert x.events + y.events + z.events == x.events + (y.events + z.events);
    }
  }

  /** Running two runs of entries back to back is running the first and then,
      unless it threw, the second. */
  lemma {:induction false} EntriesRunAppend(a: Archive, xs: seq<string>, ys: seq<string>)
    ensures EntriesRun(a, xs + ys) == Then(EntriesRun(a, xs), EntriesRun(a, ys))
  {
    if ys == [] {
      assert xs + ys == xs;
    } else {
      var last := ys[|ys| - 1];
      assert (xs + ys)[..|xs + ys| - 1] == xs + ys[..|ys| - 1];
      EntriesRunAppend(a, xs, ys[..|ys| - 1]);
      ThenAssociative(EntriesRun(a, xs), EntriesRun(a, ys[..|ys| - 1]), EntryRun(a, last));
    }
  }

  /** The first entry that throws ends the archive: the effects of the entries
      before it and its own partial effects stay, the entries after it are
      never looked at. */
  lemma FirstFailureStopsArchive(a: Archive, pre: seq<string>, bad: string, post: seq<string>)
    requires !EntriesRun(a, pre).failed && EntryRun(a, bad).failed
    ensures EntriesRun(a, pre + [bad] + post) ==
              Outcome(EntriesRun(a, pre).events + EntryRun(a, bad).events, true)
  {
    EntriesRunAppend(a, pre + [bad], post);
    assert (pre + [bad])[..|pre + [bad]| - 1] == pre;
  }

  /** Once the entries read so far have thrown, further entries change nothing. */
  lemma FailureSkipsRest(a: Archive, pre: seq<string>, post: seq<string>)
    requires EntriesRun(a, pre).failed
    ensures EntriesRun(a, pre + post) == EntriesRun(a, pre)
  {
    EntriesRunAppend(a, pre, post);
  }

  /** Entries whose names do not end in ".class" play no part. */
  function ClassEntries(names: seq<string>): (r: seq<string>)
    ensures forall n :: n in r <==> n in names && IsClassEntry(n)
  {
    if names == [] then []
    else ClassEntries(names[..|names| - 1])
         + (if IsClassEntry(names[|names| - 1]) then [names[|names| - 1]] else [])
  }

  /** The `.class` filter keeps the enumeration order: filtering a
      concatenation is concatenating the filtered parts. */
  lemma {:induction false} ClassEntriesAppend(xs: seq<string>, ys: seq<string>)
    ensures ClassEntries(xs + ys) == ClassEntries(xs) + ClassEntries(ys)
  {
    if ys == [] {
      assert xs + ys == xs;
    } else {
      var init, last := ys[..|ys| - 1], ys[|ys| - 1];
      assert (xs + ys)[..|xs + ys| - 1] == xs + init;
      assert (xs + ys)[|xs + ys| - 1] == last;
      ClassEntriesAppend(xs, init);
      var tail := if IsClassEntry(last) then [last] else [];
      AppendAssoc(ClassEntries(xs), ClassEntries(init), tail, []);
    }
  }

  lemma {:induction false} OnlyClassEntriesMatter(a: Archive, names: seq<string>)
    ensures EntriesRun(a, names) == EntriesRun(a, ClassEntries(names))
  {
    if names != [] {
      var init, last := names[..|names| - 1], names[|names| - 1];
      OnlyClassEntriesMatter(a, init);
      if IsClassEntry(last) {
        assert (ClassEntries(init) + [last])[..|ClassEntries(init) + [last]| - 1] == ClassEntries(init);
      } else {
        assert ClassEntries(names) == ClassEntries(init);
      }
    }
  }

  lemma {:induction false} EntriesRunQuiet(a: Archive, names: seq<string>)
    ensures Quiet(EntriesRun(a, names).events)
  {
    if names != [] {
      var last := names[|names| - 1];
      EntriesRunQuiet(a, names[..|names| - 1]);
      if IsClassEntry(last) && ClassName(last) in a.classes {
        ClassRunQuiet(a.classes[ClassName(last)]);
      }
    }
  }

  /** `File.load`: an archive that does not open fails at once; otherwise its
      entries run, and whatever throws is caught and reported by one warning
      naming the file. */
  function LoadOutcome(f: DirEntry): (o: Outcome)
    ensures o.failed <==>
              !f.content.opens ||
              exists i :: 0 <= i < |f.content.entries| && EntryRun(f.content, f.content.entries[i]).failed
    ensures o.failed ==> |o.events| > 0 && o.events[|o.events| - 1] == LoadFailed(f.name)
  {
    if !f.content.opens then Outcome([LoadFailed(f.name)], true)
    else
      var o := EntriesRun(f.content, f.content.entries);
      if o.failed then Outcome(o.events + [LoadFailed(f.name)], true) else o
  }

  /** A load logs the warning exactly when it fails, once, as its last effect. */
  lemma LoadWarnsOnce(f: DirEntry)
    ensures var evs := LoadOutcome(f).events;
            if LoadOutcome(f).failed
            then |evs| > 0 && evs[|evs| - 1] == LoadFailed(f.name) && Quiet(evs[..|evs| - 1])
            else Quiet(evs)
  {
    var evs := LoadOutcome(f).events;
    if f.content.opens {
      var o := EntriesRun(f.content, f.content.entries);
      EntriesRunQuiet(f.content, f.content.entries);
      if o.failed {
        assert evs[..|evs| - 1] == o.events;
      }
    }
  }

  /** The state after loading one file. */
  function LoadRun(s: State, f: DirEntry): (t: State)
    ensures forall p :: p in t.plugins <==> p in s.plugins || Added(p) in LoadOutcome(f).events
    ensures t.jarFile == None <==> (f.content.opens && !LoadOutcome(f).failed) || (!f.content.opens && s.jarFile == None)
  {
    var o := LoadOutcome(f);
    State(s.plugins + AddedIn(o.events),
          if !f.content.opens then s.jarFile else if o.failed then Some(f.name) else None,
          s.log + o.events)
  }

  /** Loading a file only adds to the registry and to the trace, so what earlier
      files and entries did stays; `jarFile` is cleared only when the archive
      was opened and read to the end: after a failure it still names the file,
      and when the archive never opened it is as before. */
  lemma LoadKeepsEarlierEffects(s: State, f: DirEntry)
    ensures var t := LoadRun(s, f);
            |s.plugins| <= |t.plugins| && t.plugins[..|s.plugins|] == s.plugins &&
            |s.log| <= |t.log| && t.log[..|s.log|] == s.log
    ensures !f.content.opens ==> LoadRun(s, f).jarFile == s.jarFile
    ensures f.content.opens ==>
              LoadRun(s, f).jarFile == if LoadOutcome(f).failed then Some(f.name) else None
  {
  }

  // ------------------------------------------------------------------ reload

  /** The `listFiles` filter: a regular file whose extension is "jar". */
  predicate IsJarFile(f: DirEntry)
    ensures IsJarFile(f) <==> f.isFile && EndsWith(f.name, ".jar")
  {
    JarExtension(f.name);
    f.isFile && Extension(f.name) == "jar"
  }

  /** The listed files that pass the filter, in listing order; a missing
      listing (`null`) gives none. */
  function JarFiles(listing: Option<seq<DirEntry>>): (r: seq<DirEntry>)
    ensures listing.None? ==> r == []
    ensures forall f :: f in r <==> listing.Some? && f in listing.value && IsJarFile(f)
  {
    match listing
    case None => []
    case Some(fs) => JarFilter(fs)
  }

  function JarFilter(fs: seq<DirEntry>): (r: seq<DirEntry>)
    ensures forall f :: f in r <==> f in fs && IsJarFile(f)
  {
    if fs == [] then []
    else JarFilter(fs[..|fs| - 1]) + (if IsJarFile(fs[|fs| - 1]) then [fs[|fs| - 1]] else [])
  }

  /** The `jar` filter keeps the listing order: filtering a concatenation is
      concatenating the filtered parts. */
  lemma {:induction false} JarFilterAppend(xs: seq<DirEntry>, ys: seq<DirEntry>)
    ensures JarFilter(xs + ys) == JarFilter(xs) + JarFilter(ys)
  {
    if ys == [] {
      assert xs + ys == xs;
    } else {
      var init, last := ys[..|ys| - 1], ys[|ys| - 1];
      assert (xs + ys)[..|xs + ys| - 1] == xs + init;
      assert (xs + ys)[|xs + ys| - 1] == last;
      JarFilterAppend(xs, init);
      var tail := if IsJarFile(last) then [last] else [];
      AppendAssoc(JarFilter(xs), JarFilter(init), tail, []);
    }
  }

  /** Each listed jar is loaded as many times as it is listed, and no other
      file is loaded at all. */
  lemma {:induction false} JarFilesOnce(fs: seq<DirEntry>, f: DirEntry)
    ensures multiset(JarFiles(Some(fs)))[f] == if IsJarFile(f) then multiset(fs)[f] else 0
  {
    if fs != [] {
      var init, last := fs[..|fs| - 1], fs[|fs| - 1];
      JarFilesOnce(init, f);
      assert fs == init + [last];
    }
  }

  /** Loading the files one after another; a failed load does not stop the rest. */
  function LoadAllRun(s: State, fs: seq<DirEntry>): (t: State)
    ensures s.plugins <= t.plugins && s.log <= t.log
  {
    if fs == [] then s else LoadRun(LoadAllRun(s, fs[..|fs| - 1]), fs[|fs| - 1])
  }

  /** The effects of loading the files one after another. */
  function LoadAllEvents(fs: seq<DirEntry>): seq<Event> {
    if fs == [] then [] else LoadAllEvents(fs[..|fs| - 1]) + LoadOutcome(fs[|fs| - 1]).events
  }

  /** Loading one more file after a run with trace `evs` extends that trace. */
  lemma LoadRunTrace(s: State, evs: seq<Event>, t: State, f: DirEntry)
    requires t.log == s.log + evs && t.plugins == s.plugins + AddedIn(evs)
    ensures LoadRun(t, f).log == s.log + (evs + LoadOutcome(f).events)
    ensures LoadRun(t, f).plugins == s.plugins + AddedIn(evs + LoadOutcome(f).events)
  {
    var o := LoadOutcome(f).events;
    AddedInAppend(evs, o);
    AppendAssoc(s.log, evs, o, []);
    AppendAssoc(s.plugins, AddedIn(evs), AddedIn(o), []);
  }

  lemma {:induction false} LoadAllTrace(s: State, fs: seq<DirEntry>)
    ensures LoadAllRun(s, fs).log == s.log + LoadAllEvents(fs)
    ensures LoadAllRun(s, fs).plugins == s.plugins + AddedIn(LoadAllEvents(fs))
  {
    if fs != [] {
      var init, last := fs[..|fs| - 1], fs[|fs| - 1];
      LoadAllTrace(s, init);
      LoadRunTrace(s, LoadAllEvents(init), LoadAllRun(s, init), last);
    }
  }

  /** `reload`: `disableAll`, then load every listed jar file. */
  function ReloadRun(s: State, listing: Option<seq<DirEntry>>): (t: State)
    ensures s.log + DisableEvents(s.plugins) <= t.log
    ensures listing.None? ==> t == DisableRun(s)
  {
    LoadAllRun(DisableRun(s), JarFiles(listing))
  }

  /** Reload first disables every registered plugin, then loads each jar in
      turn, whatever happened to the ones before; the registry it leaves holds
      exactly the plugins those loads appended. */
  lemma ReloadTrace(s: State, listing: Option<seq<DirEntry>>)
    ensures ReloadRun(s, listing).log ==
              s.log + DisableEvents(s.plugins) + LoadAllEvents(JarFiles(listing))
    ensures ReloadRun(s, listing).plugins == AddedIn(LoadAllEvents(JarFiles(listing)))
  {
    LoadAllTrace(DisableRun(s), JarFiles(listing));
  }

  /** With no listing, reload only disables. */
  lemma ReloadNullListing(s: State)
    ensures ReloadRun(s, None) == DisableRun(s)
  {
  }

  /** The registry after a reload does not depend on what was registered
      before; in particular reloading twice leaves the same registry as
      reloading once, never a duplicate. */
  lemma ReloadForgetsOldRegistry(s1: State, s2: State, listing: Option<seq<DirEntry>>)
    ensures ReloadRun(s1, listing).plugins == ReloadRun(s2, listing).plugins
    ensures ReloadRun(ReloadRun(s1, listing), listing).plugins == ReloadRun(s1, listing).plugins
  {
    ReloadTrace(s1, listing);
    ReloadTrace(s2, listing);
    ReloadTrace(ReloadRun(s1, listing), listing);
  }

  /** Every plugin the trace appends to the registry owns a job. */
  predicate AddsOnlyWithJobs(evs: seq<Event>) {
    forall i :: 0 <= i < |evs| && evs[i].Added? ==> evs[i].plugin.hasJob
  }

  lemma {:induction false} AddedInHaveJobs(evs: seq<Event>)
    requires AddsOnlyWithJobs(evs)
    ensures forall p :: p in AddedIn(evs) ==> p.hasJob
  {
    if evs != [] {
      AddedInHaveJobs(evs[1..]);
    }
  }

  lemma AddsOnlyWithJobsAppend(a: seq<Event>, b: seq<Event>)
    requires AddsOnlyWithJobs(a) && AddsOnlyWithJobs(b)
    ensures AddsOnlyWithJobs(a + b)
  {
    forall i | 0 <= i < |a + b| && (a + b)[i].Added?
      ensures (a + b)[i].plugin.hasJob
    {
      if i >= |a| {
        assert (a + b)[i] == b[i - |a|];
      }
    }
  }

  lemma EntryRunAddsWithJobs(a: Archive, name: string)
    ensures AddsOnlyWithJobs(EntryRun(a, name).events)
  {
    if IsClassEntry(name) && ClassName(name) in a.classes {
      var c := a.classes[ClassName(name)];
      ClassRunSteps(c);
      var p, i, k := PluginStage(c).events, InitStage(c).events, CommandStage(c).events;
      assert AddsOnlyWithJobs(p);
      AddsOnlyWithJobsAppend(p, i);
      AddsOnlyWithJobsAppend(p + i, k);
    }
  }

  lemma {:induction false} EntriesRunAddsWithJobs(a: Archive, names: seq<string>)
    ensures AddsOnlyWithJobs(EntriesRun(a, names).events)
  {
    if names != [] {
      var init := names[..|names| - 1];
      EntriesRunAddsWithJobs(a, init);
      EntryRunAddsWithJobs(a, names[|names| - 1]);
      AddsOnlyWithJobsAppend(EntriesRun(a, init).events, EntryRun(a, names[|names| - 1]).events);
    }
  }

  lemma {:induction false} LoadAllAddsWithJobs(fs: seq<DirEntry>)
    ensures AddsOnlyWithJobs(LoadAllEvents(fs))
  {
    if fs != [] {
      var last := fs[|fs| - 1];
      LoadAllAddsWithJobs(fs[..|fs| - 1]);
      EntriesRunAddsWithJobs(last.content, last.content.entries);
      AddsOnlyWithJobsAppend(EntriesRun(last.content, last.content.entries).events, [LoadFailed(last.name)]);
      AddsOnlyWithJobsAppend(LoadAllEvents(fs[..|fs| - 1]), LoadOutcome(last).events);
    }
  }

  /** A plugin that `reload` registers always owns a job (the load refuses one
      without), so the next `disableAll` cancels every one of them and never
      reports a missing job. */
  lemma ReloadedPluginsHaveJobs(s: State, listing: Option<seq<DirEntry>>)
    ensures forall p :: p in ReloadRun(s, listing).plugins ==> p.hasJob
    ensures forall e :: e in DisableEvents(ReloadRun(s, listing).plugins) ==> e.JobCancelled?
  {
    ReloadTrace(s, listing);
    LoadAllAddsWithJobs(JarFiles(listing));
    AddedInHaveJobs(LoadAllEvents(JarFiles(listing)));
    var ps := ReloadRun(s, listing).plugins;
    forall e | e in DisableEvents(ps)
      ensures e.JobCancelled?
    {
      var j :| 0 <= j < |ps| && DisableEvents(ps)[j] == e;
      assert ps[j] in ps;
    }
  }
}

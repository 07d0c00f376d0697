/** The `PluginManager` object: the plugin registry, the current-archive field
    and the trace of effects, updated in place by `disableAll`, `reload` and
    the per-file `load`. Each method is proved to leave the state that the
    corresponding function of `Semantics` describes. */
module Manager {
  import opened Naming
  import opened Semantics

  class PluginManager {
    /** The registry of loaded plugins, in insertion order. */
    var plugins: seq<Plugin>
    /** The archive currently being read, if any. */
    var jarFile: Option<string>
    /** Every effect so far: cancellations, hooks, calls into plugins,
        command registrations and warnings. */
    var log: seq<Event>

    function Snapshot(): State
      reads this
    {
      State(plugins, jarFile, log)
    }

    constructor ()
      ensures Snapshot() == State([], None, [])
    {
      plugins, jarFile, log := [], None, [];
    }

    /** Cancel the job of each registered plugin (reporting those that have
        none), then empty the registry. */
    method DisableAll()
      modifies this
      ensures Snapshot() == DisableRun(old(Snapshot()))
    {
      var i := 0;
      while i < |plugins|
        invariant 0 <= i <= |plugins|
        invariant plugins == old(plugins) && jarFile == old(jarFile)
        invariant log == old(log) + DisableEvents(plugins[..i])
      {
        var pl := plugins[i];
        if pl.hasJob {
          log := log + [JobCancelled(pl)];
        } else {
          log := log + [JobMissing(pl)];
        }
        assert plugins[..i + 1][..i] == plugins[..i];
        i := i + 1;
      }
      assert plugins[..i] == plugins;
      plugins := [];
    }

    /** Disable everything, then load each listed regular file with extension
        "jar", in listing order. */
    method Reload(listing: Option<seq<DirEntry>>)
      modifies this
      ensures Snapshot() == ReloadRun(old(Snapshot()), listing)
    {
      DisableAll();
      var jars := JarFiles(listing);
      ghost var s0 := Snapshot();
      var i := 0;
      while i < |jars|
        invariant 0 <= i <= |jars|
        invariant Snapshot() == LoadAllRun(s0, jars[..i])
      {
        Load(jars[i]);
        assert jars[..i + 1][..i] == jars[..i];
        i := i + 1;
      }
      assert jars[..i] == jars;
    }

    /** Load one file: open it, record it as the current archive, run its
        entries until one throws, then clear the current archive; anything
        thrown is caught and reported as one warning. */
    method Load(f: DirEntry)
      modifies this
      ensures Snapshot() == LoadRun(old(Snapshot()), f)
    {
      if !f.content.opens {
        log := log + [LoadFailed(f.name)];
        return;
      }
      jarFile := Some(f.name);
      var failed := LoadEntries(f.content);
      if failed {
        ghost var o := EntriesRun(f.content, f.content.entries);
        AppendAssoc(old(log), o.events, [LoadFailed(f.name)], []);
        AddedInAppend(o.events, [LoadFailed(f.name)]);
        assert AddedIn([LoadFailed(f.name)]) == [];
        log := log + [LoadFailed(f.name)];
      } else {
        jarFile := None;
      }
    }

    /** The entries of an opened archive, in enumeration order, until one throws. */
    method LoadEntries(a: Archive) returns (failed: bool)
      modifies this`log, this`plugins
      ensures failed == EntriesRun(a, a.entries).failed
      ensures log == old(log) + EntriesRun(a, a.entries).events
      ensures plugins == old(plugins) + AddedIn(EntriesRun(a, a.entries).events)
    {
      var names := a.entries;
      failed := false;
      var i := 0;
      while i < |names| && !failed
        invariant 0 <= i <= |names|
        invariant failed == EntriesRun(a, names[..i]).failed
        invariant log == old(log) + EntriesRun(a, names[..i]).events
        invariant plugins == old(plugins) + AddedIn(EntriesRun(a, names[..i]).events)
      {
        ghost var done := EntriesRun(a, names[..i]);
        ghost var step := EntryRun(a, names[i]);
        AppendAssoc(old(log), done.events, step.events, []);
        AppendAssoc(old(plugins), AddedIn(done.events), AddedIn(step.events), []);
        AddedInAppend(done.events, step.events);
        failed := LoadEntry(a, names[i]);
        assert names[..i + 1][..i] == names[..i];
        i := i + 1;
      }
      if failed {
        FailureSkipsRest(a, names[..i], names[i..]);
        assert names[..i] + names[i..] == names;
      } else {
        assert names[..i] == names;
      }
    }

    /** One archive entry: only a `.class` entry is looked at; its class is
        resolved by the derived class name and then processed. */
    method LoadEntry(a: Archive, name: string) returns (failed: bool)
      modifies this`log, this`plugins
      ensures failed == EntryRun(a, name).failed
      ensures log == old(log) + EntryRun(a, name).events
      ensures plugins == old(plugins) + AddedIn(EntryRun(a, name).events)
    {
      failed := false;
      if IsClassEntry(name) {
        var cname := ClassName(name);
        if cname in a.classes {
          failed := LoadClass(a.classes[cname]);
        } else {
          failed := true;
        }
      }
    }

    /** One resolved class: activate it if it is a `MainPlugin`, initialise it
        if it is an `AutoInitializer`, and register it under its command name
        and aliases if it is an annotated `Command`; stop at the first throw. */
    method LoadClass(c: ClassInfo) returns (failed: bool)
      modifies this`log, this`plugins
      ensures failed == ClassRun(c).failed
      ensures log == old(log) + ClassRun(c).events
      ensures plugins == old(plugins) + AddedIn(ClassRun(c).events)
    {
      ClassRunSteps(c);
      var p, i, k := PluginStage(c).events, InitStage(c).events, CommandStage(c).events;
      AppendAssoc(log, p, i, k);
      failed := ActivatePlugin(c);
      if failed {
        return;
      }
      failed := RunInitializer(c);
      if failed {
        return;
      }
      failed := RegisterCommands(c);
    }

    /** The `MainPlugin` check: install the completion hook, append the plugin
        to the registry, call `onEnable()`. */
    method ActivatePlugin(c: ClassInfo) returns (failed: bool)
      modifies this`log, this`plugins
      ensures failed == PluginStage(c).failed
      ensures log == old(log) + PluginStage(c).events
      ensures plugins == old(plugins) + AddedIn(PluginStage(c).events)
    {
      PluginStageAdded(c);
      failed := false;
      if c.isMainPlugin {
        if c.fault == PluginInstanceFails || !c.plugin.hasJob {
          failed := true;
          return;
        }
        var pl := c.plugin;
        log := log + [HookAttached(pl)];
        plugins := plugins + [pl];
        log := log + [Added(pl)];
        log := log + [Enabled(pl)];
        failed := c.fault == EnableThrows;
      }
    }

    /** The `AutoInitializer` check: call `initialize()` on an instance. */
    method RunInitializer(c: ClassInfo) returns (failed: bool)
      modifies this`log
      ensures failed == InitStage(c).failed
      ensures log == old(log) + InitStage(c).events
      ensures AddedIn(InitStage(c).events) == []
    {
      NoAddedEvent(InitStage(c).events);
      failed := false;
      if c.isAutoInitializer {
        if c.fault == InitializerInstanceFails {
          failed := true;
          return;
        }
        log := log + [Initialized(c.initializer)];
        failed := c.fault == InitializeThrows;
      }
    }

    /** The command check: with an `RCommand` annotation on a `Command`,
        register one instance under the canonical name and every alias. */
    method RegisterCommands(c: ClassInfo) returns (failed: bool)
      modifies this`log
      ensures failed == CommandStage(c).failed
      ensures log == old(log) + CommandStage(c).events
      ensures AddedIn(CommandStage(c).events) == []
    {
      CommandStageAdded(c);
      failed := false;
      if c.rCommand.Some? && c.isCommand {
        if c.fault == CommandInstanceFails {
          failed := true;
          return;
        }
        failed := RegisterAll(CommandNames(c), c.command, c.fault);
      }
    }

    /** Register `cmd` under each name in turn (the canonical name, then the
        aliases), stopping at the registration that throws. */
    method RegisterAll(names: seq<string>, cmd: nat, fault: Fault) returns (failed: bool)
      modifies this`log
      ensures failed == (fault.RegisterThrows? && fault.call < |names|)
      ensures log == old(log) +
                RegisterEvents(if failed then names[..fault.call + 1] else names, cmd)
    {
      failed := false;
      var j := 0;
      while j < |names| && !failed
        invariant 0 <= j <= |names|
        invariant failed == (fault.RegisterThrows? && fault.call < j)
        invariant failed ==> j == fault.call + 1
        invariant log == old(log) + RegisterEvents(names[..j], cmd)
      {
        log := log + [CommandRegistered(names[j], cmd)];
        failed := fault == RegisterThrows(j);
        assert names[..j + 1][..j] == names[..j];
        j := j + 1;
      }
      assert !failed ==> names[..j] == names;
    }
  }
}

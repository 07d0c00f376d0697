# Mirai-KC plugin manager, modelled in Dafny

This project models the plugin manager of Mirai-KC (`PluginManager.kt`). It covers the
registry of loaded `MainPlugin`s, `disableAll`, `reload`, and the per-archive `load`.
`load` derives class names from jar entries and dispatches each class to its roles:
plugin activation, `AutoInitializer.initialize()`, and command registration under the
`RCommand` name and `RAlias` aliases. One catch around the whole archive contains failures.

Reflection, class loading and coroutine jobs are replaced by abstract inputs:

- An archive (`Archive`) is three things: whether it opens, its entry names, and a map
  from class names to what the class loader resolves.
- A resolved class (`ClassInfo`) carries its role flags and annotations. It also carries
  the instances its `instance` lookups yield and the point, if any, where processing it
  throws (`Fault`).
- A plugin (`Plugin`) is an identifier plus whether its coroutine context holds a `Job`.

Observable effects go into an ordered trace (`Event`): job cancellations, missing-job
reports, completion hooks, registry appends, `onEnable`/`initialize`/`registerCommand`
calls, and the load warning.

The project has four modules:

- `Naming` (naming.dfy) holds the pure string conversions: the `.class` filter, the
  class-name derivation, and `File.extension`.
- `Semantics` (semantics.dfy) states each operation as a function of its inputs and the
  state, and proves the properties below about those functions.
- `Manager` (manager.dfy) is the imperative `PluginManager`. Its fields `plugins`,
  `jarFile` and `log` are updated in place by loops. Each method is proved to reach the
  state the matching `Semantics` function describes.
- `Scenarios` (scenarios.dfy) holds concrete reload runs.

Some behaviours of the code are easy to misread; the model follows the code:

- The completion hook is installed before the plugin is appended to the registry, because
  the hook is attached inside the expression whose value is then added.
- A plugin whose context has no `Job` makes `!!` throw before the append. So it is never
  registered, and its archive stops there.
- Any throw while processing a class ends the whole archive. This covers instantiation,
  `onEnable`, `initialize` and `registerCommand`. There is one `runCatching` per
  archive, so sibling classes after the failing one are not processed.
- A plugin whose `onEnable` threw stays in the registry.
- `jarFile` is reset to `null` only on the normal path. When an opened archive fails, it
  still refers to that archive. When the archive never opened, it keeps its previous value.

## Model

| member | source | states |
|---|---|---|
| Naming.IsClassEntry | mirai-kc/src/main/kotlin/io/github/karlatemp/miraikc/plugin/PluginManager.kt:66 | a class entry is its stem followed by ".class" |
| Naming.ClassEntryOfStem | mirai-kc/src/main/kotlin/io/github/karlatemp/miraikc/plugin/PluginManager.kt:66-67 | every stem followed by ".class" passes the filter, and its class name is the stem with '/' read as '.' |
| Naming.ReplaceChar | mirai-kc/src/main/kotlin/io/github/karlatemp/miraikc/plugin/PluginManager.kt:67 | length kept; every '/' becomes '.', every other character unchanged |
| Naming.ClassName | mirai-kc/src/main/kotlin/io/github/karlatemp/miraikc/plugin/PluginManager.kt:66-67 | the class name is 6 characters shorter than the entry name, contains no '/', and is the stem of the entry name with '/' read as '.' |
| Naming.ClassNameRoundTrip | mirai-kc/src/main/kotlin/io/github/karlatemp/miraikc/plugin/PluginManager.kt:66-67 | turning '.' back into '/' and appending ".class" recovers the entry name when the stem has no '.' |
| Naming.LastIndexOf | mirai-kc/src/main/kotlin/io/github/karlatemp/miraikc/plugin/PluginManager.kt:56 | the index found holds the character and nothing after it does; -1 when absent |
| Naming.Extension | mirai-kc/src/main/kotlin/io/github/karlatemp/miraikc/plugin/PluginManager.kt:56 | the extension is the dot-free suffix after the last '.', and "" when there is no '.' |
| Naming.JarExtension | mirai-kc/src/main/kotlin/io/github/karlatemp/miraikc/plugin/PluginManager.kt:56 | extension "jar" holds exactly when the name ends in ".jar" (both directions, proved by JarExtensionEndsWith and EndsWithJarExtension) |
| Semantics.AddedIn | mirai-kc/src/main/kotlin/io/github/karlatemp/miraikc/plugin/PluginManager.kt:71 | a plugin is in the registry growth of a trace exactly when the trace appends it |
| Semantics.DisableEvents | mirai-kc/src/main/kotlin/io/github/karlatemp/miraikc/plugin/PluginManager.kt:43-48 | one effect per registered plugin, in registry order: a cancel when it has a job, a report when it has none |
| Semantics.DisableRun | mirai-kc/src/main/kotlin/io/github/karlatemp/miraikc/plugin/PluginManager.kt:42-50 | the registry is empty afterwards and `jarFile` is unchanged; the trace grows by one effect per plugin; on an empty registry nothing happens |
| Semantics.DisableCancelsExactly | mirai-kc/src/main/kotlin/io/github/karlatemp/miraikc/plugin/PluginManager.kt:44-47 | a plugin's job is cancelled iff it is registered and has one; a missing-job report iff it is registered without one; nothing else is emitted |
| Semantics.PluginStage | mirai-kc/src/main/kotlin/io/github/karlatemp/miraikc/plugin/PluginManager.kt:69-77 | the plugin is appended exactly when the class is a MainPlugin whose instance is obtained and owns a job; the stage fails exactly when it is a MainPlugin and the instance lookup, the job check or onEnable throws |
| Semantics.InitStage | mirai-kc/src/main/kotlin/io/github/karlatemp/miraikc/plugin/PluginManager.kt:78-80 | initialize() is called exactly when the class is an AutoInitializer whose instance is obtained, and that is the only possible effect; the stage fails exactly when the lookup or initialize() throws |
| Semantics.CommandNames | mirai-kc/src/main/kotlin/io/github/karlatemp/miraikc/plugin/PluginManager.kt:81-91 | no names without RCommand or when the class is not a Command; otherwise the canonical name first, then the RAlias aliases, if any |
| Semantics.RegisterEvents | mirai-kc/src/main/kotlin/io/github/karlatemp/miraikc/plugin/PluginManager.kt:84-90 | one registration per name, in order, all with the same command instance |
| Semantics.CommandStage | mirai-kc/src/main/kotlin/io/github/karlatemp/miraikc/plugin/PluginManager.kt:81-91 | without a throw, one registration per name of CommandNames; it fails exactly for an annotated Command whose lookup throws or whose faulty registration is one of its calls, and then stops right after that call; every registration uses the class's command instance and one of its names |
| Semantics.ClassRun | mirai-kc/src/main/kotlin/io/github/karlatemp/miraikc/plugin/PluginManager.kt:69-92 | a class fails exactly when one of its three stages fails, which needs a fault or a MainPlugin without a job |
| Semantics.ClassRunAdded | mirai-kc/src/main/kotlin/io/github/karlatemp/miraikc/plugin/PluginManager.kt:69-77 | a class appends at most one plugin: its own instance, only when it is a MainPlugin whose instance is obtained and has a job |
| Semantics.PluginActivationOrder | mirai-kc/src/main/kotlin/io/github/karlatemp/miraikc/plugin/PluginManager.kt:69-77 | hook, then append, then onEnable; the append stands if onEnable throws; a plugin without a job is not appended and the class fails |
| Semantics.FixedRoleOrder | mirai-kc/src/main/kotlin/io/github/karlatemp/miraikc/plugin/PluginManager.kt:69-92 | with nothing throwing: activation, then initialize, then the registrations, each only when its own check holds |
| Semantics.CommandRegistrations | mirai-kc/src/main/kotlin/io/github/karlatemp/miraikc/plugin/PluginManager.kt:81-91 | no RCommand or not a Command: no registrations (RAlias alone does nothing); otherwise the canonical name, then each alias in order, one more than the number of aliases in all, all with the same instance |
| Semantics.FaultTruncates | mirai-kc/src/main/kotlin/io/github/karlatemp/miraikc/plugin/PluginManager.kt:69-92 | a throw only cuts the fixed effect sequence short: the effects are a prefix of the no-fault run, and all of it when nothing throws |
| Semantics.ClassRunSteps | mirai-kc/src/main/kotlin/io/github/karlatemp/miraikc/plugin/PluginManager.kt:69-92 | a failing stage ends the class; otherwise the effects are the concatenation of the plugin, initializer and command stages |
| Semantics.EntryRun | mirai-kc/src/main/kotlin/io/github/karlatemp/miraikc/plugin/PluginManager.kt:65-68 | an entry not ending in ".class" has no effect and cannot fail; an entry with effects ends in ".class" and names a class the loader resolves |
| Semantics.EntriesRun | mirai-kc/src/main/kotlin/io/github/karlatemp/miraikc/plugin/PluginManager.kt:61-94 | the entries of an archive fail exactly when one of them fails |
| Semantics.EntriesRunAppend | mirai-kc/src/main/kotlin/io/github/karlatemp/miraikc/plugin/PluginManager.kt:65-94 | running two runs of entries back to back is the first followed, unless it threw, by the second |
| Semantics.FailureSkipsRest | mirai-kc/src/main/kotlin/io/github/karlatemp/miraikc/plugin/PluginManager.kt:61-100 | once an entry has thrown, later entries change nothing |
| Semantics.FirstFailureStopsArchive | mirai-kc/src/main/kotlin/io/github/karlatemp/miraikc/plugin/PluginManager.kt:61-100 | the first failing entry ends the archive: the effects of earlier entries and its own partial effects stay, later entries are skipped |
| Semantics.ClassEntries | mirai-kc/src/main/kotlin/io/github/karlatemp/miraikc/plugin/PluginManager.kt:66 | keeps exactly the entry names ending in ".class" |
| Semantics.ClassEntriesAppend | mirai-kc/src/main/kotlin/io/github/karlatemp/miraikc/plugin/PluginManager.kt:65-66 | the ".class" filter keeps enumeration order: filtering a concatenation concatenates the filtered parts |
| Semantics.OnlyClassEntriesMatter | mirai-kc/src/main/kotlin/io/github/karlatemp/miraikc/plugin/PluginManager.kt:65-67 | dropping every entry not ending in ".class" changes nothing |
| Semantics.LoadOutcome | mirai-kc/src/main/kotlin/io/github/karlatemp/miraikc/plugin/PluginManager.kt:60-100 | a load fails exactly when the archive does not open or one of its entries fails, and then its last effect is the warning naming the file |
| Semantics.LoadWarnsOnce | mirai-kc/src/main/kotlin/io/github/karlatemp/miraikc/plugin/PluginManager.kt:98-100 | a load that fails emits exactly one warning naming the file, as its last effect; a load that succeeds emits none |
| Semantics.LoadRun | mirai-kc/src/main/kotlin/io/github/karlatemp/miraikc/plugin/PluginManager.kt:60-101 | a plugin is registered afterwards exactly when it was before or the load appended it; `jarFile` is null afterwards exactly when the archive opened and ran to the end, or it never opened and `jarFile` was null |
| Semantics.LoadKeepsEarlierEffects | mirai-kc/src/main/kotlin/io/github/karlatemp/miraikc/plugin/PluginManager.kt:60-101 | the registry and trace only grow; `jarFile` is cleared only when the archive opened and ran to the end, names the file after a failure, and is unchanged when the archive never opened |
| Semantics.IsJarFile | mirai-kc/src/main/kotlin/io/github/karlatemp/miraikc/plugin/PluginManager.kt:56 | a listed item passes the filter exactly when it is a regular file whose name ends in ".jar" |
| Semantics.JarFiles | mirai-kc/src/main/kotlin/io/github/karlatemp/miraikc/plugin/PluginManager.kt:56 | a file is loaded iff it is listed, a regular file, and has extension "jar"; a null listing gives no loads |
| Semantics.JarFilter | mirai-kc/src/main/kotlin/io/github/karlatemp/miraikc/plugin/PluginManager.kt:56 | a file is kept exactly when it is listed and passes the filter |
| Semantics.JarFilterAppend | mirai-kc/src/main/kotlin/io/github/karlatemp/miraikc/plugin/PluginManager.kt:56 | the filter keeps listing order: filtering a concatenation concatenates the filtered parts |
| Semantics.JarFilesOnce | mirai-kc/src/main/kotlin/io/github/karlatemp/miraikc/plugin/PluginManager.kt:56 | each listed jar is loaded as many times as it is listed; no other file is loaded |
| Semantics.LoadAllRun | mirai-kc/src/main/kotlin/io/github/karlatemp/miraikc/plugin/PluginManager.kt:56 | loading files in sequence keeps the earlier registry and trace as prefixes |
| Semantics.LoadAllTrace | mirai-kc/src/main/kotlin/io/github/karlatemp/miraikc/plugin/PluginManager.kt:56 | loading files in sequence appends each file's effects in turn, failed loads included, and the registry grows by the plugins those effects append |
| Semantics.ReloadRun | mirai-kc/src/main/kotlin/io/github/karlatemp/miraikc/plugin/PluginManager.kt:53-57 | the trace after reload starts with the old trace followed by the disable effects; with a null listing reload is exactly disableAll |
| Semantics.ReloadTrace | mirai-kc/src/main/kotlin/io/github/karlatemp/miraikc/plugin/PluginManager.kt:53-57 | reload first disables every registered plugin, then loads each jar in listing order; the registry afterwards holds exactly the plugins those loads appended |
| Semantics.ReloadNullListing | mirai-kc/src/main/kotlin/io/github/karlatemp/miraikc/plugin/PluginManager.kt:56 | with a null listing, reload only disables |
| Semantics.ReloadForgetsOldRegistry | mirai-kc/src/main/kotlin/io/github/karlatemp/miraikc/plugin/PluginManager.kt:53-57 | the registry after reload does not depend on the one before; reloading twice gives the same registry as once, with no duplicates |
| Semantics.ReloadedPluginsHaveJobs | mirai-kc/src/main/kotlin/io/github/karlatemp/miraikc/plugin/PluginManager.kt:71-74 | every plugin registered by reload owns a job, so the next disableAll cancels all of them and reports none missing |
| Scenarios.GoodAndCorruptArchive | mirai-kc/src/main/kotlin/io/github/karlatemp/miraikc/plugin/PluginManager.kt:53-101 | good jar, non-jar file, unreadable jar: the registry is the good jar's plugin, one warning names the unreadable jar, `jarFile` is cleared |
| Scenarios.ReloadTwiceKeepsOne | mirai-kc/src/main/kotlin/io/github/karlatemp/miraikc/plugin/PluginManager.kt:53-57 | reloading the same one-plugin directory twice leaves one registered plugin |
| Manager.PluginManager.constructor | mirai-kc/src/main/kotlin/io/github/karlatemp/miraikc/plugin/PluginManager.kt:27-30 | the registry, the current archive and the trace start empty |
| Manager.PluginManager.DisableAll | mirai-kc/src/main/kotlin/io/github/karlatemp/miraikc/plugin/PluginManager.kt:42-50 | the new state is DisableRun of the old one |
| Manager.PluginManager.Reload | mirai-kc/src/main/kotlin/io/github/karlatemp/miraikc/plugin/PluginManager.kt:53-57 | the new state is ReloadRun of the old one and the listing |
| Manager.PluginManager.Load | mirai-kc/src/main/kotlin/io/github/karlatemp/miraikc/plugin/PluginManager.kt:60-101 | the new state is LoadRun of the old one and the file |
| Manager.PluginManager.LoadEntries | mirai-kc/src/main/kotlin/io/github/karlatemp/miraikc/plugin/PluginManager.kt:65-94 | failure, trace and registry growth are those of EntriesRun over the archive's entries |
| Manager.PluginManager.LoadEntry | mirai-kc/src/main/kotlin/io/github/karlatemp/miraikc/plugin/PluginManager.kt:65-93 | failure, trace and registry growth are those of EntryRun; `jarFile` is untouched |
| Manager.PluginManager.LoadClass | mirai-kc/src/main/kotlin/io/github/karlatemp/miraikc/plugin/PluginManager.kt:69-92 | failure, trace and registry growth are those of ClassRun; `jarFile` is untouched |
| Manager.PluginManager.ActivatePlugin | mirai-kc/src/main/kotlin/io/github/karlatemp/miraikc/plugin/PluginManager.kt:69-77 | failure, trace and registry growth are those of the MainPlugin stage |
| Manager.PluginManager.RunInitializer | mirai-kc/src/main/kotlin/io/github/karlatemp/miraikc/plugin/PluginManager.kt:78-80 | failure and trace are those of the AutoInitializer stage; the registry is untouched |
| Manager.PluginManager.RegisterCommands | mirai-kc/src/main/kotlin/io/github/karlatemp/miraikc/plugin/PluginManager.kt:81-92 | failure and trace are those of the command stage; the registry is untouched |
| Manager.PluginManager.RegisterAll | mirai-kc/src/main/kotlin/io/github/karlatemp/miraikc/plugin/PluginManager.kt:84-90 | registers the names in order and fails exactly when the faulty call index is within the list; then the registrations stop after that call |

## Left out

- `mkdirs` (line 55) and `listFiles` (line 56) are filesystem I/O. The directory listing is
  an input (`None` stands for `null`), so "the plugins directory exists after reload" is not modelled.
- `URLClassLoader`, `JarFile` and their `.use` closing (lines 62-63) are I/O. An archive
  either opens or does not, and parent-first class resolution is abstracted into the
  `classes` map. A `.use` close that throws is not modelled. It would log the warning after
  a clean run of the entries; for the loader's close, `jarFile` would already be `null`.
- `Class.forName`, `isAssignableFrom`, `getDeclaredAnnotation` and `instance` (lines 68-88)
  are reflection. They become the flags and instance identifiers of `ClassInfo`. Each call
  site has its own instance identifier. Two entries that resolve to the same class share them.
- The completion hook runs `onDisable()` once the job completes. Whether and when that
  happens, and whether it happens at most once, is a coroutine-library guarantee: cancelling
  a job and installing the hook are trace events only.
- `registerCommand` is an external call. Its effect is a trace event. Its own failure is a
  fault point of the class.
- The thread-safety of the `ConcurrentLinkedQueue` and the per-thread `jarFile` delegate are
  out of scope. Both are plain sequential fields.
- Logger and `System.err` output are trace events without their text. `MainPlugin`'s
  `name`/`author`/`version`, logger and scope construction (lines 104-123) are not part of this model.
- Plugins carry no Constructed/Enabled/Disabled state in the code, so none is modelled.

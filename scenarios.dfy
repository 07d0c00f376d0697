/** Concrete runs of `reload` on a small plugins directory. */
module Scenarios {
  import opened Naming
  import opened Semantics

  const PluginA := Plugin(1, true)

  /** A class that is only a `MainPlugin`. */
  const ClassA := ClassInfo(true, PluginA, false, 0, None, false, 0, None, NoFault)

  /** A jar with a manifest and one plugin class. */
  const GoodJar := DirEntry("a.jar", true,
                            Archive(true, ["META-INF/MANIFEST.MF", "A.class"], map["A" := ClassA]))

  /** A jar that cannot be opened. */
  const CorruptJar := DirEntry("b.jar", true, Archive(false, [], map[]))

  /** A file the `jar` filter drops. */
  const Notes := DirEntry("notes.txt", true, Archive(true, ["A.class"], map["A" := ClassA]))

  lemma JarNames()
    ensures IsJarFile(GoodJar) && IsJarFile(CorruptJar) && !IsJarFile(Notes)
  {
    JarExtension("a.jar");
    JarExtension("b.jar");
    JarExtension("notes.txt");
    assert "a.jar"[1..] == ".jar";
    assert "b.jar"[1..] == ".jar";
    assert "notes.txt"[5..] != ".jar" by {
      assert "notes.txt"[5..][1] == 't';
    }
  }

  /** The filter over a three-item listing whose middle item is not a jar. */
  lemma FilterThree(g: DirEntry, n: DirEntry, c: DirEntry)
    requires IsJarFile(g) && !IsJarFile(n) && IsJarFile(c)
    ensures JarFilter([g]) == [g]
    ensures JarFilter([g, n, c]) == [g, c]
  {
    assert [g][..0] == [] && [n][..0] == [] && [c][..0] == [];
    JarFilterAppend([g], [n]);
    JarFilterAppend([g] + [n], [c]);
    assert [g] + [n] + [c] == [g, n, c];
  }

  lemma FilterOfListing()
    ensures JarFiles(Some([GoodJar])) == [GoodJar]
    ensures JarFiles(Some([GoodJar, Notes, CorruptJar])) == [GoodJar, CorruptJar]
  {
    JarNames();
    FilterThree(GoodJar, Notes, CorruptJar);
  }

  lemma GoodJarLoads()
    ensures LoadOutcome(GoodJar) == Outcome([HookAttached(PluginA), Added(PluginA), Enabled(PluginA)], false)
  {
    var a := GoodJar.content;
    assert "A.class"[1..] == ".class";
    assert ClassName("A.class") == "A";
    assert "META-INF/MANIFEST.MF"[14..] != ".class" by {
      assert "META-INF/MANIFEST.MF"[14..][1] == 'S';
    }
    assert EntryRun(a, "META-INF/MANIFEST.MF") == Outcome([], false);
    assert EntryRun(a, "A.class") == ClassRun(ClassA);
    assert a.entries[..1] == ["META-INF/MANIFEST.MF"];
    assert a.entries[..1][..0] == [];
    assert EntriesRun(a, a.entries[..1]) == Outcome([], false);
  }

  lemma TraceOfGoodJar()
    ensures AddedIn([HookAttached(PluginA), Added(PluginA), Enabled(PluginA)]) == [PluginA]
    ensures AddedIn([HookAttached(PluginA), Added(PluginA), Enabled(PluginA), LoadFailed("b.jar")]) == [PluginA]
  {
    var good := [HookAttached(PluginA), Added(PluginA), Enabled(PluginA)];
    AddedInAppend([HookAttached(PluginA)], [Added(PluginA)]);
    AddedInAppend([HookAttached(PluginA), Added(PluginA)], [Enabled(PluginA)]);
    assert [HookAttached(PluginA), Added(PluginA)] + [Enabled(PluginA)] == good;
    AddedInAppend(good, [LoadFailed("b.jar")]);
    assert good + [LoadFailed("b.jar")] == [HookAttached(PluginA), Added(PluginA), Enabled(PluginA), LoadFailed("b.jar")];
  }

  lemma LoadGood(d: State)
    ensures LoadRun(d, GoodJar) ==
              State(d.plugins + [PluginA], None, d.log + [HookAttached(PluginA), Added(PluginA), Enabled(PluginA)])
  {
    GoodJarLoads();
    TraceOfGoodJar();
  }

  lemma LoadCorrupt(d: State)
    ensures LoadRun(d, CorruptJar) == State(d.plugins, d.jarFile, d.log + [LoadFailed("b.jar")])
  {
    assert LoadOutcome(CorruptJar) == Outcome([LoadFailed("b.jar")], true);
    assert AddedIn([LoadFailed("b.jar")]) == [] by {
      assert AddedIn([LoadFailed("b.jar")][1..]) == [];
    }
  }

  lemma LoadGoodThenCorrupt(d: State)
    ensures LoadAllRun(d, [GoodJar, CorruptJar]) ==
              State(d.plugins + [PluginA], None,
                    d.log + [HookAttached(PluginA), Added(PluginA), Enabled(PluginA), LoadFailed("b.jar")])
  {
    var good := [HookAttached(PluginA), Added(PluginA), Enabled(PluginA)];
    var jars := [GoodJar, CorruptJar];
    assert jars[..1] == [GoodJar];
    assert [GoodJar][..0] == [];
    var mid := LoadRun(d, GoodJar);
    LoadGood(d);
    assert LoadAllRun(d, [GoodJar]) == mid;
    assert LoadAllRun(d, jars) == LoadRun(mid, CorruptJar);
    LoadCorrupt(mid);
    AppendAssoc(d.log, good, [LoadFailed("b.jar")], []);
  }

  /** With one good and one corrupt jar (and a file that is not a jar), reload
      leaves exactly the good jar's plugin registered and enabled, warns about
      the corrupt jar, and clears the current-archive field. */
  lemma GoodAndCorruptArchive(s: State)
    ensures var t := ReloadRun(s, Some([GoodJar, Notes, CorruptJar]));
            t.plugins == [PluginA] && t.jarFile == None &&
            t.log == s.log + DisableEvents(s.plugins)
                     + [HookAttached(PluginA), Added(PluginA), Enabled(PluginA), LoadFailed("b.jar")]
  {
    FilterOfListing();
    LoadGoodThenCorrupt(DisableRun(s));
  }

  /** Reloading the same directory twice leaves one registered plugin, not two. */
  lemma ReloadTwiceKeepsOne(s: State)
    ensures var once := ReloadRun(s, Some([GoodJar]));
            once.plugins == [PluginA] && ReloadRun(once, Some([GoodJar])).plugins == [PluginA]
  {
    FilterOfListing();
    GoodJarLoads();
    TraceOfGoodJar();
    assert [GoodJar][..0] == [];
    assert LoadAllEvents([GoodJar]) == [HookAttached(PluginA), Added(PluginA), Enabled(PluginA)];
    ReloadTrace(s, Some([GoodJar]));
    ReloadForgetsOldRegistry(s, s, Some([GoodJar]));
  }
}

/** Pure string conversions used by the plugin loader: the `.class` entry
    filter, the entry-name to class-name conversion, and Kotlin's
    `File.extension`, on which the `jar` file filter rests. */
module Naming {

  /** An archive entry is a compiled class when its name ends in ".class". */
  predicate IsClassEntry(name: string)
    ensures IsClassEntry(name) ==> |name| >= 6 && name ==name[..|name| - 6] + ".class"
  {
    |name| >= 6 && name[|name| - 6..] == ".class"
  }

  /** Kotlin's `String.replace(oldChar, newChar)`: every occurrence of `from`
      becomes `to`, every other character stays where it is. */
  function ReplaceChar(s: string, from: char, to: char): (r: string)
    ensures |r| == |s|
    ensures forall i :: 0 <= i < |s| ==> r[i] == if s[i] == from then to else s[i]
  {
    if s == [] then []
    else [if s[0] == from then to else s[0]] + ReplaceChar(s[1..], from, to)
  }

  /** The binary class name of a `.class` entry: the entry name without its
      six-character suffix, with each path separator '/' turned into '.'. */
  function ClassName(entryName: string): (cname: string)
    requires IsClassEntry(entryName)
    ensures |cname| == |entryName| - 6
    ensures '/' !in cname
    ensures forall i :: 0 <= i < |cname| ==>
              cname[i] == if entryName[i] == '/' then '.' else entryName[i]
  {
    ReplaceChar(entryName[..|entryName| - 6], '/', '.')
  }

  /** Every stem followed by ".class" is a class entry, and its class name is
      the stem with '/' read as '.'. */
  lemma ClassEntryOfStem(stem: string)
    ensures IsClassEntry(stem + ".class")
    ensures ClassName(stem + ".class") == ReplaceChar(stem, '/', '.')
  {
    var name := stem + ".class";
    assert name[|name| - 6..] == ".class";
    assert name[..|name| - 6] == stem;
  }

  /** Turning a class name back into a path recovers the entry name, as long
      as the entry's stem held no '.' of its own (which the conversion would
      otherwise confuse with a separator). */
  lemma {:induction false} ClassNameRoundTrip(entryName: string)
    requires IsClassEntry(entryName)
    requires '.' !in entryName[..|entryName| - 6]
    ensures ReplaceChar(ClassName(entryName), '.', '/') + ".class" == entryName
  {
    var stem := entryName[..|entryName| - 6];
    var back := ReplaceChar(ClassName(entryName), '.', '/');
    forall i | 0 <= i < |stem|
      ensures back[i] == stem[i]
    {
      assert stem[i] != '.';
    }
    assert back == stem;
    assert stem + entryName[|entryName| - 6..] == entryName;
  }

  /** The position of the last `c` in `s`, or -1 when `s` holds none. */
  function LastIndexOf(s: string, c: char): (i: int)
    ensures -1 <= i < |s|
    ensures i >= 0 ==> s[i] == c
    ensures forall j :: i < j < |s| ==> s[j] != c
  {
    if s == [] then -1
    else if s[|s| - 1] == c then |s| - 1
    else LastIndexOf(s[..|s| - 1], c)
  }

  /** Kotlin's `File.extension`: what follows the last '.' of the file name,
      or "" when the name has no '.'. */
  function Extension(name: string): (ext: string)
    ensures '.' !in ext
    ensures |ext| <= |name| && ext == name[|name| - |ext|..]
    ensures '.' !in name ==> ext == ""
    ensures '.' in name ==> |ext| < |name| && name[|name| - |ext| - 1] == '.'
  {
    var i := LastIndexOf(name, '.');
    if i < 0 then "" else name[i + 1..]
  }

  /** `s` ends with `suffix`. */
  predicate EndsWith(s: string, suffix: string) {
    |suffix| <= |s| && s[|s| - |suffix|..] == suffix
  }

  lemma JarExtensionEndsWith(name: string)
    requires Extension(name) == "jar"
    ensures EndsWith(name, ".jar")
  {
    var ext, n := Extension(name), |name|;
    assert ext != "";
    assert n >= 4 && name[n - 4] == '.' && name[n - 3..] == ext;
    assert name[n - 4..] == [name[n - 4]] + name[n - 3..];
  }

  lemma EndsWithJarExtension(name: string)
    requires EndsWith(name, ".jar")
    ensures Extension(name) == "jar"
  {
    var ext, n := Extension(name), |name|;
    var tail := name[n - 4..];
    assert tail == ".jar";
    assert name[n - 4] == tail[0] == '.';
    assert forall j :: n - |ext| <= j < n ==> name[j] == ext[j - (n - |ext|)];
    assert forall j :: n - 4 < j < n ==> name[j] == tail[j - (n - 4)] != '.';
    assert |ext| == 3;
    assert ext == tail[1..];
  }

  /** A file name has extension "jar" exactly when it ends in ".jar". */
  lemma JarExtension(name: string)
    ensures Extension(name) == "jar" <==> EndsWith(name, ".jar")
  {
    if Extension(name) == "jar" {
      JarExtensionEndsWith(name);
    }
    if EndsWith(name, ".jar") {
      EndsWithJarExtension(name);
    }
  }
}

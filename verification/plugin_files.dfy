/**
 * The file side of ShinyPluginManager.loadPlugins: which names in the plugins directory
 * are taken as plugin archives, and how they become the list of URLs handed to the loader.
 */
module PluginFiles {
  import opened Wrappers

  /** A plugin location as produced by File.toURI().toURL(). */
  type Url = string

  /** Characters that Java's regular-expression `.` does not match (no DOTALL flag). */
  predicate IsLineTerminator(ch: char)
  {
    ch == '\n' || ch == '\r' || ch == '\U{85}' || ch == '\U{2028}' || ch == '\U{2029}'
  }

  /** A name the pattern `.+\.jar` matches in full: a non-empty base of non-line-terminator
      characters followed by the case-sensitive suffix ".jar". */
  predicate IsJarName(name: string)
    ensures IsJarName(name) ==> |name| >= 5 && IsDotPlus(name[..|name| - 4])
  {
    |name| >= 5 &&
    name[|name| - 4..] == ".jar" &&
    forall k :: 0 <= k < |name| - 4 ==> !IsLineTerminator(name[k])
  }

  /** The base `.+` may match: non-empty, no line terminator. */
  predicate IsDotPlus(base: string)
  {
    |base| >= 1 && forall ch :: ch in base ==> !IsLineTerminator(ch)
  }

  /** Appending ".jar" to a base gives an accepted name exactly when `.+` matches the base. */
  lemma {:induction false} JarNameOfBase(base: string)
    ensures IsJarName(base + ".jar") <==> IsDotPlus(base)
  {
    var name := base + ".jar";
    assert name[..|base|] == base;
    assert name[|name| - 4..] == ".jar";
    if IsDotPlus(base) {
      forall k | 0 <= k < |name| - 4 ensures !IsLineTerminator(name[k]) {
        assert name[k] == base[k];
        assert base[k] in base;
      }
    }
    if IsJarName(name) {
      forall ch | ch in base ensures !IsLineTerminator(ch) {
        var k :| 0 <= k < |base| && base[k] == ch;
        assert name[k] == ch;
      }
    }
  }

  /** Every accepted name is some `.+` base followed by ".jar". */
  lemma {:induction false} JarNameHasBase(name: string)
    requires IsJarName(name)
    ensures name == name[..|name| - 4] + ".jar" && IsDotPlus(name[..|name| - 4])
  {
    var base := name[..|name| - 4];
    assert name == base + name[|name| - 4..];
    JarNameOfBase(base);
  }

  /** An ordinary archive name matches. */
  lemma JarNameAccepted()
    ensures IsJarName("plugin.jar")
  {
    assert "plugin.jar"[6..] == ".jar";
  }

  /** The suffix is matched case-sensitively. */
  lemma JarNameCaseSensitive()
    ensures !IsJarName("plugin.JAR")
  {
    assert "plugin.JAR"[6..] != ".jar";
  }

  /** `.+` needs at least one character before the suffix. */
  lemma JarNameNeedsBase()
    ensures !IsJarName(".jar")
  {
    assert |".jar"| == 4;
  }

  /** The whole name must match, so the suffix must be at the very end. */
  lemma JarNameWholeName()
    ensures !IsJarName("plugin.jar.bak")
  {
    assert "plugin.jar.bak"[10..] != ".jar";
  }

  /** `.` does not match a line terminator in the base. */
  lemma JarNameNoNewline()
    ensures !IsJarName("plugin\n.jar")
  {
    assert "plugin\n.jar"[6] == '\n';
  }

  /** directory.listFiles(new PatternFilenameFilter(".+\\.jar")) over a listing of names, in
      listing order. */
  function JarFiles(listing: seq<string>): (jars: seq<string>)
    ensures |jars| <= |listing|
    ensures forall f :: f in jars <==> f in listing && IsJarName(f)
    ensures (forall f :: f in listing ==> !IsJarName(f)) <==> jars == []
  {
    if listing == [] then []
    else (if IsJarName(listing[0]) then [listing[0]] else []) + JarFiles(listing[1..])
  }

  /** The URLs the conversion loop keeps: in file order, each file whose conversion
      succeeds, the others skipped. */
  function Resolve(files: seq<string>, toUrl: string -> Option<Url>): (urls: seq<Url>)
    ensures |urls| <= |files|
    decreases |files|
  {
    if files == [] then []
    else
      var front := files[..|files| - 1];
      match toUrl(files[|files| - 1])
      case Some(u) => Resolve(front, toUrl) + [u]
      case None => Resolve(front, toUrl)
  }

  /** A URL is collected exactly when some file converts to it. */
  lemma {:induction false} ResolveMembers(files: seq<string>, toUrl: string -> Option<Url>, u: Url)
    ensures u in Resolve(files, toUrl) <==> exists f :: f in files && toUrl(f) == Some(u)
    decreases |files|
  {
    if files != [] {
      var front, last := files[..|files| - 1], files[|files| - 1];
      ResolveMembers(front, toUrl, u);
      assert forall f :: f in files <==> f in front || f == last;
    }
  }

  /** A file whose conversion fails does not disturb the others: resolving a concatenation
      is resolving each part. */
  lemma {:induction false} ResolveAppend(a: seq<string>, b: seq<string>, toUrl: string -> Option<Url>)
    ensures Resolve(a + b, toUrl) == Resolve(a, toUrl) + Resolve(b, toUrl)
    decreases |b|
  {
    if b != [] {
      var b' := b[..|b| - 1];
      assert (a + b)[..|a + b| - 1] == a + b';
      ResolveAppend(a, b', toUrl);
    } else {
      assert a + b == a;
    }
  }

  /** Skipping a malformed file leaves the URLs of the files around it, in order. */
  lemma {:induction false} ResolveSkipsFailure(a: seq<string>, f: string, b: seq<string>, toUrl: string -> Option<Url>)
    requires toUrl(f) == None
    ensures Resolve(a + [f] + b, toUrl) == Resolve(a, toUrl) + Resolve(b, toUrl)
  {
    ResolveAppend(a + [f], b, toUrl);
    ResolveAppend(a, [f], toUrl);
    assert [f][..0] == [];
  }

  /** When every conversion succeeds, one URL per file, each the conversion of its file. */
  lemma {:induction false} ResolveAllSucceed(files: seq<string>, toUrl: string -> Option<Url>)
    requires forall f :: f in files ==> toUrl(f).Some?
    ensures |Resolve(files, toUrl)| == |files|
    ensures forall k :: 0 <= k < |files| ==> Some(Resolve(files, toUrl)[k]) == toUrl(files[k])
    decreases |files|
  {
    if files != [] {
      var front, last := files[..|files| - 1], files[|files| - 1];
      assert forall f :: f in front ==> f in files;
      ResolveAllSucceed(front, toUrl);
      var u := toUrl(last).value;
      assert Resolve(files, toUrl) == Resolve(front, toUrl) + [u];
      forall k | 0 <= k < |files| ensures Some(Resolve(files, toUrl)[k]) == toUrl(files[k]) {
        if k < |front| {
          assert files[k] == front[k];
        }
      }
    }
  }

  /** The conversion loop of loadPlugins: `urls.add(jar.toURI().toURL())` for each jar, a
      MalformedURLException skipping that jar. */
  method CollectUrls(files: seq<string>, toUrl: string -> Option<Url>) returns (urls: seq<Url>)
    ensures urls == Resolve(files, toUrl)
  {
    urls := [];
    for i := 0 to |files|
      invariant urls == Resolve(files[..i], toUrl)
    {
      assert files[..i + 1][..i] == files[..i];
      match toUrl(files[i])
      case Some(u) =>
        urls := urls + [u];
      case None =>
    }
    assert files[..|files|] == files;
  }
}

/**
 * The string logic of `Wfdbexec.set_environment`: normalising the operating
 * system's name, deriving the toolbox's home directory from the location of
 * its own class files, and the directory of the native WFDB binaries,
 * `<home>nativelibs<sep><os>-<arch><sep>`.
 *
 * The JVM properties `os.name`, `os.arch` and `file.separator` and the
 * URL-decoded code-source path are inputs (a `SystemProperties` value).
 */
module Platform {

  predicate StartsWith(s: string, p: string) {
    |p| <= |s| && s[..|p|] == p
  }

  predicate EndsWith(s: string, p: string) {
    |p| <= |s| && s[|s| - |p|..] == p
  }

  /** `s.contains(p)`: `p` occurs somewhere in `s`. */
  predicate Contains(s: string, p: string)
    decreases |s|
  {
    StartsWith(s, p) || (s != [] && Contains(s[1..], p))
  }

  /**
   * `String.replace(target, repl)`: every occurrence of `target`, scanning from
   * the left without overlaps, replaced by `repl`. An empty target matches
   * before every character and at the end.
   */
  function Replace(s: string, target: string, repl: string): string
    decreases |s|
  {
    if target == [] then
      (if s == [] then repl else repl + [s[0]] + Replace(s[1..], target, repl))
    else if |s| < |target| then s
    else if s[..|target|] == target then repl + Replace(s[|target|..], target, repl)
    else [s[0]] + Replace(s[1..], target, repl)
  }

  /** `s` with every `c` left out: the reference for `replace` of a one-character string by "". */
  function Without(s: string, c: char): (r: string)
    ensures c !in r
  {
    if s == [] then [] else (if s[0] == c then [] else [s[0]]) + Without(s[1..], c)
  }

  /** `s` with every `a` turned into `b`: the reference for `replace` of one character by another. */
  function Swapped(s: string, a: char, b: char): (r: string)
    ensures |r| == |s|
    ensures forall i :: 0 <= i < |s| ==> r[i] == if s[i] == a then b else s[i]
  {
    seq(|s|, i requires 0 <= i < |s| => if s[i] == a then b else s[i])
  }

  lemma {:induction false} ReplaceCharByNothing(s: string, c: char)
    ensures Replace(s, [c], "") == Without(s, c)
    decreases |s|
  {
    if s != [] {
      ReplaceCharByNothing(s[1..], c);
      assert s[..1] == [s[0]];
    }
  }

  lemma {:induction false} ReplaceCharByChar(s: string, a: char, b: char)
    ensures Replace(s, [a], [b]) == Swapped(s, a, b)
    decreases |s|
  {
    if s != [] {
      ReplaceCharByChar(s[1..], a, b);
      assert s[..1] == [s[0]];
      assert Swapped(s, a, b) == [if s[0] == a then b else s[0]] + Swapped(s[1..], a, b);
    }
  }

  predicate IsUpper(c: char) {
    'A' <= c <= 'Z'
  }

  /** `Character.toLowerCase` on the ASCII letters, the only ones these names use. */
  function LowerChar(c: char): char {
    if IsUpper(c) then (c as int + 32) as char else c
  }

  /** `String.toLowerCase`. */
  function Lower(s: string): (r: string)
    ensures |r| == |s|
    ensures forall i :: 0 <= i < |r| ==> !IsUpper(r[i])
  {
    seq(|s|, i requires 0 <= i < |s| => LowerChar(s[i]))
  }

  /** Lower-casing a name that is already lower case changes nothing. */
  lemma LowerIdempotent(s: string)
    requires forall i :: 0 <= i < |s| ==> !IsUpper(s[i])
    ensures Lower(s) == s
  {
  }

  /**
   * The operating system's name as `set_environment` keeps it: its spaces
   * removed, lower-cased, and every Windows variant collapsed to "windows".
   */
  function NormaliseOsName(raw: string): (r: string)
    ensures ' ' !in r
    ensures forall i :: 0 <= i < |r| ==> !IsUpper(r[i])
    ensures StartsWith(r, "windows") ==> r == "windows"
    ensures r == (if StartsWith(Lower(Without(raw, ' ')), "windows") then "windows" else Lower(Without(raw, ' ')))
  {
    var squeezed := Replace(raw, " ", "");
    ReplaceCharByNothing(raw, ' ');
    var lower := Lower(squeezed);
    if StartsWith(lower, "windows") then "windows" else lower
  }

  /**
   * The decoded code-source path as `set_environment` keeps it: on Windows, a
   * leading "/" is dropped and every "/" becomes a backslash.
   */
  function PackageDir(osName: string, decoded: string): (r: string)
    ensures StartsWith(osName, "windows") ==> '/' !in r
    ensures StartsWith(osName, "windows") ==>
      r == Swapped(if StartsWith(decoded, "/") then decoded[1..] else decoded, '/', '\\')
    ensures !StartsWith(osName, "windows") ==> r == decoded
  {
    if StartsWith(osName, "windows") then
      var p := if StartsWith(decoded, "/") then decoded[1..] else decoded;
      ReplaceCharByChar(p, '/', '\\');
      Replace(p, "/", "\\")
    else decoded
  }

  /** The last element of `s.split(sep)` for a path that does not end in `sep`: the text after the last separator. */
  function LastComponent(s: string, sep: char): (r: string)
    ensures sep !in r
    ensures EndsWith(s, r)
    ensures |r| < |s| ==> s[|s| - |r| - 1] == sep
  {
    if s == [] || s[|s| - 1] == sep then []
    else LastComponent(s[..|s| - 1], sep) + [s[|s| - 1]]
  }

  /**
   * `WFDB_JAVA_HOME`: from a jar, the path with every occurrence of
   * `sep + <archive name>` removed and `sep` appended; from a development
   * tree, the path with every "/bin/" replaced by "/mcode/".
   */
  function JavaHome(packageDir: string, sep: char): string {
    if EndsWith(packageDir, ".jar") then
      Replace(packageDir, [sep] + LastComponent(packageDir, sep), "") + [sep]
    else
      Replace(packageDir, "/bin/", "/mcode/")
  }

  /** `WFDB_NATIVE_BIN`: the directory that holds the binaries for this system. */
  function NativeBin(home: string, osName: string, osArch: string, sep: char): string {
    home + "nativelibs" + [sep] + Lower(osName) + "-" + Lower(osArch) + [sep]
  }

  /** What `set_environment` reads: three JVM properties and where the class files were loaded from. */
  datatype SystemProperties = SystemProperties(
    osName: string, osArch: string, fileSeparator: char, codeSourcePath: string)

  /** The static fields `set_environment` assigns. */
  datatype Environment = Environment(
    osName: string, osArch: string, fileSeparator: char,
    packageDir: string, javaHome: string, nativeBin: string)

  function SetEnvironment(props: SystemProperties): (e: Environment)
    ensures e.osName == NormaliseOsName(props.osName)
    ensures e.osArch == props.osArch && e.fileSeparator == props.fileSeparator
    ensures e.packageDir == PackageDir(e.osName, props.codeSourcePath)
    ensures e.javaHome == JavaHome(e.packageDir, props.fileSeparator)
    ensures e.nativeBin ==
      e.javaHome + "nativelibs" + [e.fileSeparator] + e.osName + "-" + Lower(e.osArch) + [e.fileSeparator]
  {
    var os := NormaliseOsName(props.osName);
    var dir := PackageDir(os, props.codeSourcePath);
    var home := JavaHome(dir, props.fileSeparator);
    LowerIdempotent(os);
    Environment(os, props.osArch, props.fileSeparator, dir, home,
                NativeBin(home, os, props.osArch, props.fileSeparator))
  }

  /**
   * No occurrence of `t = [sep] + name` in `dir + t` begins inside `dir` when
   * `dir` itself does not contain `t` and `name` holds no separator, so
   * replacing `t` by `repl` rewrites only the suffix.
   */
  lemma {:induction false} ReplaceSuffixOnly(dir: string, sep: char, name: string, repl: string)
    requires sep !in name
    requires !Contains(dir, [sep] + name)
    ensures Replace(dir + ([sep] + name), [sep] + name, repl) == dir + repl
    decreases |dir|
  {
    var t := [sep] + name;
    var s := dir + t;
    if dir == [] {
      assert s == t;
      assert s[|t|..] == [];
      assert Replace([], t, repl) == [];
      assert repl + [] == repl;
    } else {
      assert s[..|t|] != t by {
        if |t| <= |dir| {
          assert s[..|t|] == dir[..|t|];
        } else {
          assert s[|dir|] == sep;
          assert t[|dir|] == name[|dir| - 1] && name[|dir| - 1] in name;
        }
      }
      assert s[1..] == dir[1..] + t;
      ReplaceSuffixOnly(dir[1..], sep, name, repl);
    }
  }

  /** The last path component of `dir + sep + name` is `name` when `name` has no separator. */
  lemma {:induction false} LastComponentOfPath(dir: string, sep: char, name: string)
    requires sep !in name
    ensures LastComponent(dir + ([sep] + name), sep) == name
    decreases |name|
  {
    var s := dir + ([sep] + name);
    if name == [] {
      assert s[|s| - 1] == sep;
    } else {
      var init := name[..|name| - 1];
      assert s[..|s| - 1] == dir + ([sep] + init);
      assert sep !in init by { assert forall c :: c in init ==> c in name; }
      LastComponentOfPath(dir, sep, init);
      assert init + [name[|name| - 1]] == name;
    }
  }

  /**
   * Run from `<dir><sep><archive>.jar`, the home directory is `<dir><sep>`,
   * provided the archive's name with its leading separator occurs nowhere
   * else in the path.
   */
  lemma JarHome(dir: string, sep: char, name: string)
    requires sep !in name && EndsWith(name, ".jar")
    requires !Contains(dir, [sep] + name)
    ensures JavaHome(dir + ([sep] + name), sep) == dir + [sep]
  {
    var s := dir + ([sep] + name);
    assert s[|s| - 4..] == name[|name| - 4..];
    LastComponentOfPath(dir, sep, name);
    ReplaceSuffixOnly(dir, sep, name, "");
    assert dir + "" == dir;
  }

  /**
   * Replacing every `t` in `dir + t` rewrites only the trailing `t` when no
   * occurrence of `t` starts inside `dir`, that is, none lies in `dir` and
   * the first `|t| - 1` characters of `t`.
   */
  lemma {:induction false} ReplaceAtEndOnly(dir: string, t: string, repl: string)
    requires t != []
    requires !Contains(dir + t[..|t| - 1], t)
    ensures Replace(dir + t, t, repl) == dir + repl
    decreases |dir|
  {
    var s := dir + t;
    if dir == [] {
      assert s == t;
      assert s[|t|..] == [];
      assert repl + [] == repl;
    } else {
      var x := dir + t[..|t| - 1];
      assert x != [] && x[1..] == dir[1..] + t[..|t| - 1];
      assert !StartsWith(x, t) && !Contains(x[1..], t);
      assert s[..|t|] == x[..|t|];
      assert |s| >= |t| && s[..|t|] != t;
      assert Replace(s, t, repl) == [s[0]] + Replace(s[1..], t, repl);
      assert s[1..] == dir[1..] + t;
      ReplaceAtEndOnly(dir[1..], t, repl);
      assert [s[0]] + (dir[1..] + repl) == dir + repl;
    }
  }

  /**
   * Run from the class directory `<dir>/bin/` of a development tree, the
   * home directory is its sibling `<dir>/mcode/`, provided "/bin/" occurs
   * nowhere earlier in the path.
   */
  lemma DevelopmentHome(dir: string, sep: char)
    requires !Contains(dir + "/bin", "/bin/")
    ensures JavaHome(dir + "/bin/", sep) == dir + "/mcode/"
  {
    var p := dir + "/bin/";
    assert p[|p| - 4..] == "bin/";
    assert "/bin/"[..4] == "/bin";
    ReplaceAtEndOnly(dir, "/bin/", "/mcode/");
  }
}

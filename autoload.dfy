/** The class autoloader registered by autoload.php: a fully qualified class
    name in the plugin's namespace is mapped to a file under libs/, which is
    loaded when it exists. */
module Autoload {
  import opened Php

  /** The plugin's namespace prefix, `KolorWeb\KWLogManager\`. */
  const Prefix: string := "KolorWeb\\KWLogManager\\"
  /** The one class whose file name does not follow the `class-` scheme. */
  const SingletonClass: string := "Characteristic\\IsSingleton"
  const SingletonFile: string := "Characteristic\\is-singleton"

  /** `__DIR__ . '/libs/'` for the plugin directory `pluginDir`. */
  function BaseDir(pluginDir: string): string {
    pluginDir + "/libs/"
  }

  /** The file name, before namespace separators become slashes, for a
      class name relative to the namespace. */
  function RelativeFile(relative: string): string {
    if relative == SingletonClass then SingletonFile else "class-" + Lower(relative)
  }

  /** The path the autoloader computes for `cls`, or None when `cls` is not
      in the plugin's namespace (another autoloader is then asked). */
  function ClassFile(cls: string, pluginDir: string): (r: Option<string>)
    ensures r.None? <==> !(Prefix <= cls)
    ensures r.Some? ==>
      var base := BaseDir(pluginDir);
      && base <= r.value
      && |r.value| >= |base| + 4
      && r.value[|r.value| - 4..] == ".php"
      && '\\' !in r.value[|base|..]
  {
    if !(Prefix <= cls) then None
    else
      var relative := cls[|Prefix|..];
      var tail := ReplaceChar(RelativeFile(relative), '\\', '/');
      var file := BaseDir(pluginDir) + tail + ".php";
      assert file[|BaseDir(pluginDir)|..] == tail + ".php";
      Some(file)
  }

  /** The file actually loaded for `cls`: the computed path, if it exists. */
  function Autoloaded(cls: string, pluginDir: string, fileExists: string -> bool): (r: Option<string>)
    ensures r.Some? <==> ClassFile(cls, pluginDir).Some? && fileExists(ClassFile(cls, pluginDir).value)
    ensures r.Some? ==> r == ClassFile(cls, pluginDir)
  {
    match ClassFile(cls, pluginDir)
    case None => None
    case Some(file) => if fileExists(file) then Some(file) else None
  }

  /** The singleton trait lives in libs/Characteristic/is-singleton.php. */
  lemma SingletonPath(pluginDir: string)
    ensures ClassFile(Prefix + SingletonClass, pluginDir)
         == Some(pluginDir + "/libs/" + "Characteristic/is-singleton" + ".php")
  {
    var cls := Prefix + SingletonClass;
    assert Prefix <= cls && cls[|Prefix|..] == SingletonClass;
    var tail := ReplaceChar(SingletonFile, '\\', '/');
    assert tail == "Characteristic/is-singleton";
  }

  /** Every other class `R` of the namespace is looked up as
      libs/class-<lower-cased R, backslashes made slashes>.php. */
  lemma ClassPath(relative: string, pluginDir: string)
    requires relative != SingletonClass
    ensures ClassFile(Prefix + relative, pluginDir)
         == Some(pluginDir + "/libs/class-" + ReplaceChar(Lower(relative), '\\', '/') + ".php")
  {
    var cls := Prefix + relative;
    assert Prefix <= cls && cls[|Prefix|..] == relative;
    var tail := ReplaceChar(Lower(relative), '\\', '/');
    ReplaceCharAppend("class-", Lower(relative), '\\', '/');
    assert ReplaceChar("class-", '\\', '/') == "class-";
    assert BaseDir(pluginDir) + ("class-" + tail) + ".php" == pluginDir + "/libs/class-" + tail + ".php";
  }

  lemma ReplaceBackslashInjective(a: string, b: string)
    requires '/' !in a && '/' !in b
    requires ReplaceChar(a, '\\', '/') == ReplaceChar(b, '\\', '/')
    ensures a == b
  {
    assert |a| == |b|;
    forall i | 0 <= i < |a| ensures a[i] == b[i] {
      assert ReplaceChar(a, '\\', '/')[i] == ReplaceChar(b, '\\', '/')[i];
    }
  }

  /** For class names without slashes (the only kind PHP produces), two
      classes of the namespace share a file exactly when their relative names
      agree up to ASCII case: the mapping is case-insensitive and otherwise
      one-to-one. */
  lemma SameFileIffSameLowerName(ra: string, rb: string, pluginDir: string)
    requires ra != SingletonClass && rb != SingletonClass
    requires '/' !in ra && '/' !in rb
    ensures ClassFile(Prefix + ra, pluginDir) == ClassFile(Prefix + rb, pluginDir)
        <==> Lower(ra) == Lower(rb)
  {
    ClassPath(ra, pluginDir);
    ClassPath(rb, pluginDir);
    var ta := ReplaceChar(Lower(ra), '\\', '/');
    var tb := ReplaceChar(Lower(rb), '\\', '/');
    if ClassFile(Prefix + ra, pluginDir) == ClassFile(Prefix + rb, pluginDir) {
      var pre := pluginDir + "/libs/class-";
      assert pre + ta + ".php" == pre + tb + ".php";
      assert |ta| == |tb|;
      assert ta == (pre + ta + ".php")[|pre|..|pre| + |ta|];
      assert tb == (pre + tb + ".php")[|pre|..|pre| + |tb|];
      assert '/' !in Lower(ra) by {
        forall i | 0 <= i < |ra| ensures Lower(ra)[i] != '/' { assert ra[i] != '/'; }
      }
      assert '/' !in Lower(rb) by {
        forall i | 0 <= i < |rb| ensures Lower(rb)[i] != '/' { assert rb[i] != '/'; }
      }
      ReplaceBackslashInjective(Lower(ra), Lower(rb));
    }
  }
}

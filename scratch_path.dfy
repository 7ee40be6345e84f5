/** `create_temp_file` (c_src/chuffed_solver.cpp:119-160): naming and creating the scratch
    file on each platform. The file system is a map from path to contents; what the
    operating system's name generators choose is an input (`TempEnv`). */
module ScratchPath {
  import opened Wrappers

  type FileSystem = map<string, string>

  datatype Platform = Posix | Windows

  /** The six characters mkstemp substitutes for its placeholder. */
  const Placeholder: string := "XXXXXX"

  predicate IsAlphanumeric(c: char)
  {
    'a' <= c <= 'z' || 'A' <= c <= 'Z' || '0' <= c <= '9'
  }

  predicate IsUpperHexDigit(c: char)
  {
    '0' <= c <= '9' || 'A' <= c <= 'F'
  }

  /** A replacement mkstemp picks for the placeholder. */
  predicate IsToken(t: string)
  {
    |t| == 6 && forall i :: 0 <= i < 6 ==> IsAlphanumeric(t[i])
  }

  /** The unique number GetTempFileNameA writes into a name, in hexadecimal. */
  predicate IsHexNumber(h: string)
  {
    1 <= |h| <= 4 && forall i :: 0 <= i < |h| ==> IsUpperHexDigit(h[i])
  }

  /** What the platform's primitives answer during one `create_temp_file`. */
  datatype TempEnv = TempEnv(
    /** POSIX: the characters mkstemp(s) substitutes, or nothing when it fails for a reason
        other than the template (no space, no permission, ...). */
    token: Option<string>,
    /** Windows: GetTempPathA's directory, or nothing when it returns 0. A Windows path
        never holds a double quote. */
    tempDir: Option<string>,
    /** Windows: the unique number GetTempFileNameA settled on, or nothing when it returns
        0. Called with `uUnique == 0`, GetTempFileNameA itself moves past numbers whose file
        exists, so a number whose name is already taken stands for its failing. */
    unique: Option<string>,
    /** Windows: whether DeleteFileA removed the file GetTempFileNameA created. */
    deleteOk: bool)
  {
    predicate Valid()
    {
      && (token.Some? ==> IsToken(token.value))
      && (tempDir.Some? ==> forall i :: 0 <= i < |tempDir.value| ==> tempDir.value[i] != '"')
      && (unique.Some? ==> IsHexNumber(unique.value))
    }
  }

  predicate EndsWith(s: string, suffix: string)
  {
    |suffix| <= |s| && s[|s| - |suffix|..] == suffix
  }

  /** The POSIX template: the scratch directory, the prefix, the placeholder, the suffix. */
  function PosixTemplate(prefix: string, suffix: string): (t: string)
    ensures |t| == 5 + |prefix| + 6 + |suffix|
    ensures t[..5] == "/tmp/" && t[5..5 + |prefix|] == prefix
    ensures t[5 + |prefix|..11 + |prefix|] == Placeholder
    ensures EndsWith(t, suffix)
  {
    "/tmp/" + prefix + Placeholder + suffix
  }

  predicate PlaceholderBefore(template: string, suffixLen: nat)
  {
    6 + suffixLen <= |template|
    && template[|template| - suffixLen - 6..|template| - suffixLen] == Placeholder
  }

  /** POSIX mkstemp as the source calls it, with glibc's or musl's rule: the template must
      END in the placeholder (EINVAL otherwise); the placeholder becomes the token and the
      file is created exclusively, so the name was free. BSD-derived C libraries replace
      only trailing X's instead and are not modelled. */
  function Mkstemp(template: string, token: Option<string>, fs: FileSystem): (r: Option<string>)
    requires token.Some? ==> IsToken(token.value)
    ensures r.Some? ==> PlaceholderBefore(template, 0)
    ensures r.Some? ==> r.value !in fs && |r.value| == |template|
    ensures r.Some? ==> r.value[..|template| - 6] == template[..|template| - 6]
  {
    if !PlaceholderBefore(template, 0) || token.None? then None
    else
      var path := template[..|template| - 6] + token.value;
      if path in fs then None else Some(path)
  }

  /** mkstemps, the call that suits a template with a suffix: the placeholder sits right
      before the last `suffixLen` characters, which are kept. */
  function Mkstemps(template: string, suffixLen: nat, token: Option<string>, fs: FileSystem): (r: Option<string>)
    requires token.Some? ==> IsToken(token.value)
    ensures r.Some? ==> PlaceholderBefore(template, suffixLen)
    ensures r.Some? ==> r.value !in fs && |r.value| == |template|
    ensures r.Some? ==> r.value[..|template| - suffixLen - 6] == template[..|template| - suffixLen - 6]
    ensures r.Some? ==> r.value[|template| - suffixLen..] == template[|template| - suffixLen..]
    ensures r.None? ==>
              || !PlaceholderBefore(template, suffixLen)
              || token.None?
              || template[..|template| - suffixLen - 6] + token.value + template[|template| - suffixLen..] in fs
  {
    if !PlaceholderBefore(template, suffixLen) || token.None? then None
    else
      var cut := |template| - suffixLen;
      var path := template[..cut - 6] + token.value + template[cut..];
      assert path[..cut - 6] == template[..cut - 6];
      assert path[cut..] == template[cut..];
      if path in fs then None else Some(path)
  }

  /** As written, the POSIX branch can never create its scratch file: the template
      "/tmp/chuffed_XXXXXX.fzn" does not end in the placeholder. */
  lemma MkstempRejectsScratchTemplate(token: Option<string>, fs: FileSystem)
    requires token.Some? ==> IsToken(token.value)
    ensures Mkstemp(PosixTemplate("chuffed_", ".fzn"), token, fs) == None
  {
    var t := PosixTemplate("chuffed_", ".fzn");
    assert t[|t| - 1] == 'n';
  }

  /** With mkstemps and the suffix length, the same template yields
      "/tmp/chuffed_" + token + ".fzn" whenever that name is free. */
  lemma MkstempsAcceptsScratchTemplate(token: string, fs: FileSystem)
    requires IsToken(token)
    requires "/tmp/chuffed_" + token + ".fzn" !in fs
    ensures Mkstemps(PosixTemplate("chuffed_", ".fzn"), 4, Some(token), fs)
         == Some("/tmp/chuffed_" + token + ".fzn")
  {
    var t := PosixTemplate("chuffed_", ".fzn");
    assert t[..|t| - 10] == "/tmp/chuffed_";
    assert t[|t| - 4..] == ".fzn";
  }

  /** `find_last_of(c)`: the index of the last `c` in `s`, or nothing (`npos`). */
  function LastIndexOf(s: string, c: char): (r: Option<nat>)
    ensures r.Some? ==> r.value < |s| && s[r.value] == c
    ensures r.Some? ==> forall j :: r.value < j < |s| ==> s[j] != c
    ensures r.None? ==> forall j :: 0 <= j < |s| ==> s[j] != c
  {
    if s == [] then None
    else if s[|s| - 1] == c then Some(|s| - 1)
    else LastIndexOf(s[..|s| - 1], c)
  }

  /** The Windows naming rule: drop everything from the last '.' of `name` on, when there is
      one, and append `suffix`. */
  function ReplaceExtension(name: string, suffix: string): (path: string)
    ensures EndsWith(path, suffix)
    ensures var stem := path[..|path| - |suffix|];
      && stem <= name
      && (stem == name <==> forall j :: 0 <= j < |name| ==> name[j] != '.')
      && (stem != name ==> name[|stem|] == '.' && forall j :: |stem| < j < |name| ==> name[j] != '.')
  {
    var dot := LastIndexOf(name, '.');
    var stem := if dot.Some? then name[..dot.value] else name;
    assert (stem + suffix)[..|stem|] == stem;
    stem + suffix
  }

  /** The name GetTempFileNameA creates: directory, the first three characters of the
      prefix "CHF", the unique number, ".TMP". */
  function WindowsTempName(dir: string, unique: string): (name: string)
    ensures |name| == |dir| + |unique| + 7
    ensures name[..|dir|] == dir && name[|dir|..|dir| + 3] == "CHF"
    ensures name[|dir| + 3..|name| - 4] == unique
    ensures EndsWith(name, ".TMP")
  {
    dir + "CHF" + unique + ".TMP"
  }

  /** The Windows scratch path swaps ".TMP" for the suffix, whatever dots the directory
      holds. */
  lemma WindowsScratchPath(dir: string, unique: string, suffix: string)
    requires IsHexNumber(unique)
    ensures ReplaceExtension(WindowsTempName(dir, unique), suffix) == dir + "CHF" + unique + suffix
  {
    var name := WindowsTempName(dir, unique);
    var stem := dir + "CHF" + unique;
    assert name == stem + ".TMP";
    var dot := LastIndexOf(name, '.');
    assert name[|stem|] == '.';
    assert forall j :: |stem| < j < |name| ==> name[j] != '.';
    assert dot == Some(|stem|);
    assert name[..|stem|] == stem;
  }

  /** The outcome of `create_temp_file`: the scratch path, if any, and the file system. */
  datatype TempResult = TempResult(path: Option<string>, fs: FileSystem)

  /** `create_temp_file(prefix, suffix)`. On POSIX the placeholder is replaced through
      mkstemps and the empty file is left in place. On Windows GetTempFileNameA creates a
      unique ".TMP" file, which is deleted again (a failed delete is ignored and leaves it
      behind), and the returned path, with the suffix, is not created. */
  function CreateTempFile(platform: Platform, prefix: string, suffix: string, fs: FileSystem, env: TempEnv): (r: TempResult)
    requires env.Valid()
    ensures platform == Posix && r.path.Some? ==>
      && env.token.Some?
      && r.path.value == "/tmp/" + prefix + env.token.value + suffix
      && r.path.value !in fs
      && r.fs == fs[r.path.value := ""]
    ensures platform == Posix && env.token.Some? && "/tmp/" + prefix + env.token.value + suffix !in fs ==> r.path.Some?
    ensures platform == Windows && r.path.Some? ==>
      && env.tempDir.Some? && env.unique.Some?
      && var name := WindowsTempName(env.tempDir.value, env.unique.value);
      && name !in fs
      && r.path.value == env.tempDir.value + "CHF" + env.unique.value + suffix
      && EndsWith(r.path.value, suffix)
      && r.fs == if env.deleteOk then fs else fs[name := ""]
    ensures (platform == Windows && env.tempDir.Some? && env.unique.Some?
             && WindowsTempName(env.tempDir.value, env.unique.value) !in fs) ==> r.path.Some?
    ensures r.path.None? ==> r.fs == fs
  {
    match platform
    case Posix =>
      var template := PosixTemplate(prefix, suffix);
      assert template[..|template| - |suffix| - 6] == "/tmp/" + prefix;
      assert template[|template| - |suffix|..] == suffix;
      var created := Mkstemps(template, |suffix|, env.token, fs);
      if created.None? then TempResult(None, fs)
      else TempResult(created, fs[created.value := ""])
    case Windows =>
      if env.tempDir.None? || env.unique.None? then TempResult(None, fs)
      else
        var name := WindowsTempName(env.tempDir.value, env.unique.value);
        if name in fs then TempResult(None, fs)
        else
          var left := if env.deleteOk then fs else fs[name := ""];
          WindowsScratchPath(env.tempDir.value, env.unique.value, suffix);
          TempResult(Some(ReplaceExtension(name, suffix)), left)
  }
}

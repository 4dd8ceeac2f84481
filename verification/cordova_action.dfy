/**
  CordovaAction: validate the options, add the platform when its directory is
  missing, run `cordova prepare` and `cordova compile` with the assembled
  arguments, and export the artifact paths.
 */
module CordovaAction {
  import opened RubyValues
  import opened Trace
  import opened Validation
  import opened CordovaArgs

  // ---------------------------------------------------------------------
  // Validation
  // ---------------------------------------------------------------------

  const TypeMessage: string := "Valid options are development, enterprise, adhoc, and appstore."

  /** The verify blocks of the action's options, in declaration order. */
  const CordovaVerifiers: seq<Verify> := [
    PlatformVerify,
    Verify("release", IsBoolean, "Release should be boolean"),
    Verify("device", IsBoolean, "Device should be boolean"),
    Verify("prod", IsBoolean, "Prod should be boolean"),
    Verify(PackageType, IsPackageType, TypeMessage),
    Verify("bundle", IsBoolean, "Bundle should be boolean"),
    Verify("verbose", IsBoolean, "Verbose should be boolean")
  ]

  /** The options must hold: a known platform, one of the six package types,
      and real booleans for the five checked switches. With the blocks taken
      in declaration order, an unknown platform is the first thing reported. */
  lemma CordovaValidation(p: Bag)
    ensures FirstRejection(p, CordovaVerifiers).None? <==>
              && IsPlatform(Get(p, "platform"))
              && IsPackageType(Get(p, PackageType))
              && Get(p, "release").Bool? && Get(p, "device").Bool? && Get(p, "prod").Bool?
              && Get(p, "bundle").Bool? && Get(p, "verbose").Bool?
    ensures !IsPlatform(Get(p, "platform")) ==> FirstRejection(p, CordovaVerifiers) == Some(PlatformMessage)
    ensures IsPlatform(Get(p, "platform")) && !IsPackageType(Get(p, PackageType)) && Get(p, "release").Bool?
              && Get(p, "device").Bool? && Get(p, "prod").Bool? ==>
              FirstRejection(p, CordovaVerifiers) == Some(TypeMessage)
  {
    var vs := CordovaVerifiers;
    CordovaAccepted(p);
    if !IsPlatform(Get(p, "platform")) {
      FirstRejectionAt(p, vs, 0);
    }
    if IsPlatform(Get(p, "platform")) && !IsPackageType(Get(p, PackageType)) && Get(p, "release").Bool?
       && Get(p, "device").Bool? && Get(p, "prod").Bool? {
      FirstRejectionAt(p, vs, 4);
    }
  }

  /** What each of the seven blocks accepts. */
  lemma CordovaAccepted(p: Bag)
    ensures var vs := CordovaVerifiers;
            && |vs| == 7
            && (Accepted(p, vs[0]) <==> IsPlatform(Get(p, "platform")))
            && (Accepted(p, vs[1]) <==> Get(p, "release").Bool?)
            && (Accepted(p, vs[2]) <==> Get(p, "device").Bool?)
            && (Accepted(p, vs[3]) <==> Get(p, "prod").Bool?)
            && (Accepted(p, vs[4]) <==> IsPackageType(Get(p, PackageType)))
            && (Accepted(p, vs[5]) <==> Get(p, "bundle").Bool?)
            && (Accepted(p, vs[6]) <==> Get(p, "verbose").Bool?)
            && vs[0].message == PlatformMessage && vs[4].message == TypeMessage
  {
  }

  // ---------------------------------------------------------------------
  // Step 1: add the platform when it is missing
  // ---------------------------------------------------------------------

  function PlatformName(p: Bag): string {
    ToS(Get(p, "platform"))
  }

  function PlatformDir(p: Bag): string {
    "./platforms/" + PlatformName(p)
  }

  const AddPrefix: string := "cordova platform add "

  /** `cordova platform add <platform> --no-telemetry`, with `--nofetch` appended
      exactly when `cordova_no_fetch` is set. */
  function AddPlatformCommand(p: Bag): (cmd: string)
    ensures var head := AddPrefix + PlatformName(p) + " --no-telemetry";
            |head| <= |cmd| && cmd[..|head|] == head
    ensures EndsWith(cmd, " --nofetch") <==> Truthy(Get(p, "cordova_no_fetch"))
    ensures |cmd| == |AddPrefix + PlatformName(p) + " --no-telemetry"| + (if Truthy(Get(p, "cordova_no_fetch")) then 10 else 0)
  {
    var head := AddPrefix + PlatformName(p) + " --no-telemetry";
    var cmd := if Truthy(Get(p, "cordova_no_fetch")) then head + " --nofetch" else head;
    assert cmd[..|head|] == head;
    assert cmd[|cmd| - 1] == (if Truthy(Get(p, "cordova_no_fetch")) then 'h' else 'y');
    assert Truthy(Get(p, "cordova_no_fetch")) ==> cmd[|cmd| - 10..] == " --nofetch";
    cmd
  }

  /** `check_platform`: one add command when the platform is set and its
      directory does not exist, nothing otherwise. */
  function AddPlatformCalls(w: World, p: Bag): (r: seq<Call>)
    ensures r != [] <==> Truthy(Get(p, "platform")) && PlatformDir(p) !in w.directories
    ensures r != [] ==> r == [Sh(AddPlatformCommand(p))]
  {
    if Truthy(Get(p, "platform")) && PlatformDir(p) !in w.directories then [Sh(AddPlatformCommand(p))] else []
  }

  /** Once the platform's directory exists, `check_platform` adds nothing:
      adding a platform is done at most once. */
  lemma AddPlatformOnce(w: World, p: Bag)
    ensures AddPlatformCalls(w.(directories := w.directories + {PlatformDir(p)}), p) == []
    ensures PlatformDir(p) in w.directories ==> AddPlatformCalls(w, p) == []
  {
  }

  // ---------------------------------------------------------------------
  // Step 2: prepare and compile
  // ---------------------------------------------------------------------

  const CordovaPrefix: string := "npx --no-install cordova "

  /** The part both commands share after the subcommand name. */
  function CommandTail(p: Bag, escape: string -> string): string {
    " " + PlatformName(p) + " --no-telemetry " + Join(GlobalArgs(p, escape))
  }

  function PrepareCommand(p: Bag, escape: string -> string): string {
    CordovaPrefix + "prepare" + CommandTail(p, escape)
  }

  function CompileBase(p: Bag, escape: string -> string): string {
    CordovaPrefix + "compile" + CommandTail(p, escape)
  }

  /** The prepare command and the compile command differ only in the
      subcommand name: same length, same characters outside it. */
  lemma PrepareCompileAgree(p: Bag, escape: string -> string)
    ensures |PrepareCommand(p, escape)| == |CompileBase(p, escape)|
    ensures PrepareCommand(p, escape)[..25] == CompileBase(p, escape)[..25] == CordovaPrefix
    ensures PrepareCommand(p, escape)[32..] == CompileBase(p, escape)[32..] == CommandTail(p, escape)
    ensures PrepareCommand(p, escape)[25..32] == "prepare" && CompileBase(p, escape)[25..32] == "compile"
  {
    assert |CordovaPrefix| == 25;
    ThreeParts(CordovaPrefix, "prepare", CommandTail(p, escape));
    ThreeParts(CordovaPrefix, "compile", CommandTail(p, escape));
  }

  /** The three parts of a concatenation can be read back by position. */
  lemma ThreeParts(x: string, y: string, z: string)
    ensures |x + y + z| == |x| + |y| + |z|
    ensures (x + y + z)[..|x|] == x && (x + y + z)[|x|..|x| + |y|] == y && (x + y + z)[|x| + |y|..] == z
  {
  }

  /** The compile command line: the platform arguments follow a single `--`
      for iOS and `-- --` for Android; any other platform compiles nothing. */
  function CompileCommand(p: Bag, escape: string -> string, platformArgs: string): (r: Option<string>)
    ensures r.Some? <==> PlatformName(p) == "ios" || PlatformName(p) == "android"
    ensures PlatformName(p) == "ios" ==> r == Some(CompileBase(p, escape) + " -- " + platformArgs)
    ensures PlatformName(p) == "android" ==> r == Some(CompileBase(p, escape) + " -- -- " + platformArgs)
  {
    if PlatformName(p) == "ios" then Some(CompileBase(p, escape) + " -- " + platformArgs)
    else if PlatformName(p) == "android" then Some(CompileBase(p, escape) + " -- -- " + platformArgs)
    else None
  }

  /** `cordova compile` and `cordova prepare` command lines. */
  predicate IsCompileCall(c: Call) {
    c.Sh? && |c.command| >= 32 && c.command[..32] == CordovaPrefix + "compile"
  }

  /** The platform arguments `build` computes before running anything: Android's
      for android, iOS's for ios, none otherwise. */
  function PlatformArgsFor(w: World, p: Bag): (r: Result<Option<string>>)
    ensures PlatformName(p) == "android" ==> (r.Ok? <==> RespondsToEmpty(Get(p, KeyPassword)))
    ensures PlatformName(p) == "ios" ==> (r.Ok? <==> IosResolve(p, w.env, w.appIdentifier).Ok?)
    ensures r.Ok? ==> (r.value.Some? <==> PlatformName(p) == "android" || PlatformName(p) == "ios")
    ensures PlatformName(p) != "android" && PlatformName(p) != "ios" ==> r == Ok(None)
    ensures r.Ok? && PlatformName(p) == "android" ==> r.value == Some(AndroidArgs(p, w.escape).value)
    ensures r.Ok? && PlatformName(p) == "ios" ==> r.value == Some(IosArgs(p, w.env, w.appIdentifier, w.escape).value)
  {
    if PlatformName(p) == "android" then
      match AndroidArgs(p, w.escape)
      case Err(e) => Err(e)
      case Ok(a) => Ok(Some(a))
    else if PlatformName(p) == "ios" then
      match IosArgs(p, w.env, w.appIdentifier, w.escape)
      case Err(e) => Err(e)
      case Ok(a) => Ok(Some(a))
    else Ok(None)
  }

  /** The prepare command, issued exactly when `cordova_prepare` is set. */
  function PrepareCalls(p: Bag, escape: string -> string): (r: seq<Call>)
    ensures |r| <= 1
    ensures r != [] <==> Truthy(Get(p, "cordova_prepare"))
    ensures r != [] ==> r == [Sh(PrepareCommand(p, escape))]
  {
    if Truthy(Get(p, "cordova_prepare")) then [Sh(PrepareCommand(p, escape))] else []
  }

  /** The compile command, issued exactly when there are platform arguments for
      a platform that compiles. */
  function CompileCalls(p: Bag, escape: string -> string, platformArgs: Option<string>): (r: seq<Call>)
    ensures |r| <= 1
    ensures r != [] <==> platformArgs.Some? && (PlatformName(p) == "ios" || PlatformName(p) == "android")
    ensures r != [] ==> r == [Sh(CompileCommand(p, escape, platformArgs.value).value)]
  {
    if platformArgs.Some? && CompileCommand(p, escape, platformArgs.value).Some? then
      [Sh(CompileCommand(p, escape, platformArgs.value).value)]
    else []
  }

  /** A command line whose first 25 characters are the `npx` prefix and whose
      next ones name the subcommand. */
  lemma SubcommandAt(s: string, name: string)
    requires |name| == 7 && |s| >= 32 && s[..25] == CordovaPrefix && s[25..32] == name
    ensures s[..32] == CordovaPrefix + name
  {
    assert s[..32] == s[..25] + s[25..32];
  }

  /** Equal-length different words give different command lines after a common prefix. */
  lemma WordsDiffer(x: string, a: string, b: string)
    requires |a| == |b| && a != b
    ensures x + a != x + b
  {
    assert (x + a)[|x|..] == a && (x + b)[|x|..] == b;
  }

  lemma PrepareIsNotCompile(p: Bag, escape: string -> string)
    ensures !IsCompileCall(Sh(PrepareCommand(p, escape)))
  {
    PrepareCompileAgree(p, escape);
    SubcommandAt(PrepareCommand(p, escape), "prepare");
    WordsDiffer(CordovaPrefix, "prepare", "compile");
  }

  /** Whatever follows it, a line starting with the compile base is a compile call. */
  lemma CompileCallFor(p: Bag, escape: string -> string, sep: string, args: string)
    ensures var c := CompileBase(p, escape) + sep + args;
            IsCompileCall(Sh(c)) && Sh(c) != Sh(PrepareCommand(p, escape))
  {
    PrepareCompileAgree(p, escape);
    var base := CompileBase(p, escape);
    var c := base + sep + args;
    assert c[..32] == base[..32];
    SubcommandAt(base, "compile");
    PrepareIsNotCompile(p, escape);
  }

  /** The last command is the compile line built from the platform arguments. */
  predicate LastIsCompile(w: World, p: Bag, cs: seq<Call>) {
    && PlatformArgsFor(w, p).Ok?
    && PlatformArgsFor(w, p).value.Some?
    && cs != []
    && CompileCommand(p, w.escape, PlatformArgsFor(w, p).value.value).Some?
    && cs[|cs| - 1] == Sh(CompileCommand(p, w.escape, PlatformArgsFor(w, p).value.value).value)
  }

  /** The commands `build` issues: prepare when `cordova_prepare` is set, then
      compile for ios and android. Nothing is issued when the platform
      arguments raise. */
  function BuildCommands(w: World, p: Bag): (r: Result<seq<Call>>)
    ensures r.Ok? <==> PlatformArgsFor(w, p).Ok?
    ensures r.Ok? ==> |r.value| <= 2
    ensures r.Ok? ==> |r.value| == (if Truthy(Get(p, "cordova_prepare")) then 1 else 0)
                                 + (if PlatformName(p) == "ios" || PlatformName(p) == "android" then 1 else 0)
    ensures r.Ok? ==> (Sh(PrepareCommand(p, w.escape)) in r.value <==> Truthy(Get(p, "cordova_prepare")))
    ensures r.Ok? ==> ((exists i :: 0 <= i < |r.value| && IsCompileCall(r.value[i])) <==>
                       PlatformName(p) == "ios" || PlatformName(p) == "android")
    ensures r.Ok? && Truthy(Get(p, "cordova_prepare")) ==> r.value[0] == Sh(PrepareCommand(p, w.escape))
    ensures r.Ok? && (PlatformName(p) == "ios" || PlatformName(p) == "android") ==> LastIsCompile(w, p, r.value)
  {
    match PlatformArgsFor(w, p)
    case Err(e) => Err(e)
    case Ok(a) =>
      var prepare := PrepareCalls(p, w.escape);
      var compile := CompileCalls(p, w.escape, a);
      PrepareIsNotCompile(p, w.escape);
      CompileCallsCompile(p, w.escape, a);
      CommandOrder(prepare, compile, Sh(PrepareCommand(p, w.escape)));
      LastOfPair(prepare, compile);
      Ok(prepare + compile)
  }

  lemma LastOfPair(prepare: seq<Call>, compile: seq<Call>)
    ensures compile != [] ==> (prepare + compile)[|prepare + compile| - 1] == compile[|compile| - 1]
  {
  }

  /** Android end to end: an empty key password is replaced by the keystore
      password, and the compile line carries the arguments of the Bag so
      filled, after two `--`. */
  lemma AndroidCompileUsesKeystorePassword(w: World, p: Bag, k: string)
    requires PlatformName(p) == "android"
    requires Get(p, KeyPassword) == Str("") && Get(p, KeystorePassword) == Str(k)
    ensures BuildCommands(w, p).Ok?
    ensures var cs := BuildCommands(w, p).value;
            && cs != []
            && cs[|cs| - 1] == Sh(CompileBase(p, w.escape) + " -- -- " + PlatformArgs(p[KeyPassword := Str(k)], AndroidArgsMap, w.escape))
  {
    assert AndroidKeyFallback(p) == Ok(p[KeyPassword := Str(k)]);
  }

  /** iOS end to end: an empty profile is taken from `SIGH_UUID`, the package
      type is aliased, and the compile line carries the arguments of the Bag
      so resolved, after one `--`. */
  lemma IosCompileUsesSighUuid(w: World, p: Bag)
    requires PlatformName(p) == "ios"
    requires Get(p, ProvisioningProfile) == Str("") && SighUuid in w.env
    ensures BuildCommands(w, p).Ok?
    ensures var q := p[ProvisioningProfile := Str(w.env[SighUuid])];
            var resolved := q[PackageType := AliasPackageType(Get(p, PackageType))];
            var cs := BuildCommands(w, p).value;
            && cs != []
            && cs[|cs| - 1] == Sh(CompileBase(p, w.escape) + " -- " + PlatformArgs(resolved, IosArgsMap, w.escape))
  {
    var q := p[ProvisioningProfile := Str(w.env[SighUuid])];
    var resolved := q[PackageType := AliasPackageType(Get(p, PackageType))];
    IosResolveFromSighUuid(p, w.env, w.appIdentifier);
    assert IosArgs(p, w.env, w.appIdentifier, w.escape) == Ok(PlatformArgs(resolved, IosArgsMap, w.escape));
  }

  lemma IosResolveFromSighUuid(p: Bag, env: map<string, string>, appIdentifier: Option<string>)
    requires Get(p, ProvisioningProfile) == Str("") && SighUuid in env
    ensures var q := p[ProvisioningProfile := Str(env[SighUuid])];
            IosResolve(p, env, appIdentifier) == Ok(q[PackageType := AliasPackageType(Get(p, PackageType))])
  {
    var q := p[ProvisioningProfile := Str(env[SighUuid])];
    assert FillProvisioningProfile(p, env, appIdentifier) == Ok(q);
    assert Get(q, PackageType) == Get(p, PackageType);
  }

  /** The compile call, when there is one, is a compile call. */
  lemma CompileCallsCompile(p: Bag, escape: string -> string, a: Option<string>)
    ensures var compile := CompileCalls(p, escape, a);
            compile != [] ==> IsCompileCall(compile[0])
  {
    if CompileCalls(p, escape, a) != [] {
      CompileCallFor(p, escape, if PlatformName(p) == "ios" then " -- " else " -- -- ", a.value);
    }
  }

  /** At most one prepare call followed by at most one compile call. */
  lemma CommandOrder(prepare: seq<Call>, compile: seq<Call>, pc: Call)
    requires |prepare| <= 1 && |compile| <= 1
    requires !IsCompileCall(pc) && (prepare != [] ==> prepare == [pc])
    requires compile != [] ==> IsCompileCall(compile[0])
    ensures var cs := prepare + compile;
            && |cs| <= 2
            && (pc in cs <==> prepare != [])
            && ((exists i :: 0 <= i < |cs| && IsCompileCall(cs[i])) <==> compile != [])
            && (prepare != [] ==> cs[0] == pc)
  {
    var cs := prepare + compile;
    if compile != [] {
      assert IsCompileCall(cs[|cs| - 1]);
    }
    if prepare != [] {
      assert cs[0] == prepare[0];
    }
  }

  // ---------------------------------------------------------------------
  // Step 3: export the artifact paths
  // ---------------------------------------------------------------------

  const AndroidPathKey: string := "CORDOVA_ANDROID_RELEASE_BUILD_PATH"
  const IosPathKey: string := "CORDOVA_IOS_RELEASE_BUILD_PATH"
  const ApkRoot: string := "./platforms/android/app/build/outputs/apk/"
  const IpaRoot: string := "./platforms/ios/build/device/"

  /** The APK path: the build type names both the directory and the file. */
  function AndroidBuildPath(isRelease: bool): (r: string)
    ensures var t := if isRelease then "release" else "debug";
            r == ApkRoot + t + "/app-" + t + ".apk"
  {
    var buildType := if isRelease then "release" else "debug";
    var apkName := if isRelease then "app-release" else "app-debug";
    ApkRoot + buildType + "/" + apkName + ".apk"
  }

  /** Release and debug builds never share an APK path. */
  lemma AndroidBuildPathsDiffer()
    ensures AndroidBuildPath(true) != AndroidBuildPath(false)
  {
    assert AndroidBuildPath(true)[|ApkRoot|] == 'r';
    assert AndroidBuildPath(false)[|ApkRoot|] == 'd';
  }

  /** The build type in the APK path is chosen by `isRelease` alone: the
      directory after the APK root is `release` exactly for a release build. */
  lemma AndroidBuildPathNamesType(isRelease: bool)
    ensures var path := AndroidBuildPath(isRelease);
            |path| >= |ApkRoot| + 7 && (path[|ApkRoot|..|ApkRoot| + 7] == "release" <==> isRelease)
  {
    var path := AndroidBuildPath(isRelease);
    if !isRelease {
      assert path[|ApkRoot|] == 'd';
      assert path[|ApkRoot|..|ApkRoot| + 7][0] == 'd';
    } else {
      assert path == ApkRoot + "release" + "/app-release.apk";
      assert path[|ApkRoot|..|ApkRoot| + 7] == "release";
    }
  }

  function IosBuildPath(appName: string): string {
    IpaRoot + appName + ".ipa"
  }

  /** The app name can be read back from the IPA path. */
  function IpaAppName(path: string): (r: Option<string>)
    ensures r.Some? ==> IosBuildPath(r.value) == path
  {
    if |path| >= |IpaRoot| + 4 && path[..|IpaRoot|] == IpaRoot && path[|path| - 4..] == ".ipa" then
      var name := path[|IpaRoot|..|path| - 4];
      assert path == path[..|IpaRoot|] + name + path[|path| - 4..];
      Some(name)
    else None
  }

  lemma IosBuildPathRoundTrip(appName: string)
    ensures IpaAppName(IosBuildPath(appName)) == Some(appName)
  {
    var path := IosBuildPath(appName);
    assert path[..|IpaRoot|] == IpaRoot;
    assert path[|path| - 4..] == ".ipa";
    assert path[|IpaRoot|..|path| - 4] == appName;
  }

  /** `set_build_paths`: both paths are exported, whatever the platform. */
  function ExportCalls(appName: string, release: Value): (r: seq<Call>)
    ensures |r| == 2
    ensures r[0] == SetEnv(AndroidPathKey, AndroidBuildPath(Truthy(release)))
    ensures r[1] == SetEnv(IosPathKey, IosBuildPath(appName))
  {
    [SetEnv(AndroidPathKey, AndroidBuildPath(Truthy(release))), SetEnv(IosPathKey, IosBuildPath(appName))]
  }

  // ---------------------------------------------------------------------
  // The action
  // ---------------------------------------------------------------------

  /** `build` then `set_build_paths`: nothing runs when the platform arguments
      raise, and the exports follow only a successful build. */
  function BuildAndExport(w: World, p: Bag): (r: Run<()>)
    ensures Sound(w, r)
    ensures BuildCommands(w, p).Err? ==> r == Run([], Err(BuildCommands(w, p).error))
    ensures BuildCommands(w, p).Ok? ==>
              r == Then(Exec(w, BuildCommands(w, p).value), Exec(w, ExportCalls(w.appName, Get(p, "release"))))
  {
    match BuildCommands(w, p)
    case Err(e) => Raise(e)
    case Ok(cs) =>
      var build := Exec(w, cs);
      var exports := Exec(w, ExportCalls(w.appName, Get(p, "release")));
      ThenSound(w, build, exports);
      Then(build, exports)
  }

  /** `run`: check_platform, build, set_build_paths, behind the verify blocks. */
  function CordovaRun(w: World, p: Bag): (r: Run<()>)
    ensures Sound(w, r)
    ensures FirstRejection(p, CordovaVerifiers).Some? ==>
              r == Run([], Err(UserError(FirstRejection(p, CordovaVerifiers).value)))
    ensures FirstRejection(p, CordovaVerifiers).None? ==>
              r == Then(Exec(w, AddPlatformCalls(w, p)), BuildAndExport(w, p))
  {
    var add := Exec(w, AddPlatformCalls(w, p));
    var rest := BuildAndExport(w, p);
    ThenSound(w, add, rest);
    Validated(p, CordovaVerifiers, Then(add, rest))
  }

  /** A valid run issues the add command (if any), the build commands and the
      two exports, in that order, and stops at the first one that fails. */
  lemma CordovaRunSteps(w: World, p: Bag)
    ensures FirstRejection(p, CordovaVerifiers).None? && BuildCommands(w, p).Ok? ==>
              var all := AddPlatformCalls(w, p) + (BuildCommands(w, p).value + ExportCalls(w.appName, Get(p, "release")));
              CordovaRun(w, p) == Exec(w, all)
  {
    if FirstRejection(p, CordovaVerifiers).None? && BuildCommands(w, p).Ok? {
      var a := AddPlatformCalls(w, p);
      var b := BuildCommands(w, p).value;
      var e := ExportCalls(w.appName, Get(p, "release"));
      ThreeSteps(w, a, b, e);
    }
  }

  lemma ThreeSteps(w: World, a: seq<Call>, b: seq<Call>, e: seq<Call>)
    ensures Then(Exec(w, a), Then(Exec(w, b), Exec(w, e))) == Exec(w, a + (b + e))
  {
    ExecAppend(w, b, e);
    ExecAppend(w, a, b + e);
  }

  /** Running two call lists one after the other is running their concatenation. */
  lemma ExecAppend(w: World, a: seq<Call>, b: seq<Call>)
    ensures Then(Exec(w, a), Exec(w, b)) == Exec(w, a + b)
    decreases |a|
  {
    if a == [] {
      assert a + b == b;
    } else {
      assert (a + b)[0] == a[0];
      assert (a + b)[1..] == a[1..] + b;
      ExecAppend(w, a[1..], b);
      var rest := Exec(w, a[1..]);
      if Succeeds(w, a[0]) && rest.result.Ok? {
        AppendAssoc([a[0]], rest.trace, Exec(w, b).trace);
      }
    }
  }

  /** When the platform arguments raise (a nil key password on Android, say),
      nothing after the add command is issued. */
  lemma CordovaRunArgsError(w: World, p: Bag)
    requires FirstRejection(p, CordovaVerifiers).None?
    requires BuildCommands(w, p).Err?
    ensures var r := CordovaRun(w, p);
            r.result.Err? && r.trace == Exec(w, AddPlatformCalls(w, p)).trace
            && (AllSucceed(w, AddPlatformCalls(w, p)) ==> r.result.error == BuildCommands(w, p).error)
  {
  }
}

/**
  UpdateVersionAndBuildNumberAction: settle the app version (keep the one in
  the config file, or run UpdateVersionAction), let IncrementNumberAction bump
  the build number, publish both in the environment and return them.
 */
module VersionAndBuildNumber {
  import opened RubyValues
  import opened Trace
  import opened Validation
  import opened UpdateVersion
  import opened VersionRewrite

  /** The Hash `{ version: …, build_number: … }` the action returns. */
  datatype VersionInfo = VersionInfo(version: Value, buildNumber: Value)

  const BuildNumberEnv: string := "APP_BUILD_NUMBER"
  const BuildVersionEnv: string := "APP_BUILD_VERSION"

  /** The Hash handed to `UpdateVersionAction.run`: the config path and `auto_increment`, nothing else. */
  function UpdateVersionOptions(p: Bag): Bag {
    map[PathKey := Get(p, PathKey), "auto_increment" := Get(p, "auto_increment")]
  }

  /** With `skip_version`: the version currently in the config file, as the
      query command prints it without newlines (nil when it printed none). */
  function CurrentVersion(w: World, path: Value): (r: Run<Value>)
    ensures Sound(w, r)
    ensures r.trace == [Sh(QueryVersionCommand(path))]
    ensures r.result.Ok? <==> Succeeds(w, Sh(QueryVersionCommand(path)))
    ensures r.result.Ok? ==> r.result.value == DeleteNewlines(w.output(QueryVersionCommand(path)))
  {
    var query := QueryVersionCommand(path);
    var sh := Exec(w, [Sh(query)]);
    ThenSound(w, sh, Return(DeleteNewlines(w.output(query))));
    Then(sh, Return(DeleteNewlines(w.output(query))))
  }

  /** The version step: the current version with `skip_version`, otherwise
      the one UpdateVersionAction chooses and writes. */
  function VersionStep(w: World, p: Bag): (r: Run<Value>)
    ensures Sound(w, r)
    ensures forall i :: 0 <= i < |r.trace| ==> IsUpdateVersionCall(r.trace[i])
  {
    if Truthy(Get(p, "skip_version")) then
      CurrentVersion(w, Get(p, PathKey))
    else
      UpdateVersionCalls(w, UpdateVersionOptions(p));
      UpdateVersionRun(w, UpdateVersionOptions(p))
  }

  /** The `IncrementNumberAction.run` call for the option bag. */
  function IncrementCall(p: Bag): Call {
    IncrementNumber(Get(p, PathKey), Get(p, "platform"))
  }

  /** After the version step: bump the build number, then set the two
      environment variables and return the pair. */
  function Finish(w: World, p: Bag, version: Value): (r: Run<VersionInfo>)
    ensures Sound(w, r)
    ensures r.result.Ok? <==> Succeeds(w, IncrementCall(p))
    ensures r.result.Ok? ==> r.result.value == VersionInfo(version, w.buildNumber)
    ensures r.result.Ok? ==> r.trace == [IncrementCall(p), SetEnv(BuildNumberEnv, ToS(version)), SetEnv(BuildVersionEnv, ToS(w.buildNumber))]
    ensures r.result.Err? ==> r == Run([IncrementCall(p)], Err(CallFailed(IncrementCall(p))))
    ensures r.trace[0] == IncrementCall(p) && forall i :: 1 <= i < |r.trace| ==> r.trace[i].SetEnv?
  {
    var calls := [IncrementCall(p), SetEnv(BuildNumberEnv, ToS(version)), SetEnv(BuildVersionEnv, ToS(w.buildNumber))];
    var ex := Exec(w, calls);
    assert Succeeds(w, calls[1]) && Succeeds(w, calls[2]);
    assert AllSucceed(w, calls) <==> Succeeds(w, calls[0]);
    ThenSound(w, ex, Return(VersionInfo(version, w.buildNumber)));
    Then(ex, Return(VersionInfo(version, w.buildNumber)))
  }

  /** `run`, without the option checks (VersionAction calls it this way). */
  function UvbnRun(w: World, p: Bag): (r: Run<VersionInfo>)
    ensures Sound(w, r)
    ensures var step := VersionStep(w, p);
            && (step.result.Err? ==> r == Run(step.trace, Err(step.result.error)))
            && (step.result.Ok? ==> r == Prepend(step.trace, Finish(w, p, step.result.value)))
  {
    var step := VersionStep(w, p);
    match step.result
    case Err(e) => Run(step.trace, Err(e))
    case Ok(version) =>
      PrependSound(w, step.trace, Finish(w, p, version));
      Prepend(step.trace, Finish(w, p, version))
  }

  /** The verify blocks of the action's options, in declaration order. */
  function UvbnVerifiers(w: World): seq<Verify> {
    [PlatformVerify, PathVerify(w)]
  }

  /** With the blocks taken in declaration order, an unknown platform is
      reported first, then a config path that does not exist. */
  lemma UvbnValidation(w: World, p: Bag)
    ensures FirstRejection(p, UvbnVerifiers(w)) ==
              if !IsPlatform(Get(p, "platform")) then Some(PlatformMessage)
              else if !PathExists(w, Get(p, PathKey)) then Some(PathMessage)
              else None
  {
    var vs := UvbnVerifiers(w);
    assert Accepted(p, vs[0]) <==> IsPlatform(Get(p, "platform"));
    assert vs[1..] == [PathVerify(w)];
    assert Accepted(p, vs[1..][0]) <==> PathExists(w, Get(p, PathKey));
    assert vs[1..][1..] == [];
  }

  /** The action as fastlane runs it: option checks first. */
  function UvbnAction(w: World, p: Bag): (r: Run<VersionInfo>)
    ensures Sound(w, r)
    ensures !IsPlatform(Get(p, "platform")) ==> r == Run([], Err(UserError(PlatformMessage)))
    ensures IsPlatform(Get(p, "platform")) && !PathExists(w, Get(p, PathKey)) ==> r == Run([], Err(UserError(PathMessage)))
    ensures IsPlatform(Get(p, "platform")) && PathExists(w, Get(p, PathKey)) ==> r == UvbnRun(w, p)
  {
    UvbnValidation(w, p);
    Validated(p, UvbnVerifiers(w), UvbnRun(w, p))
  }
}

/**
  What UpdateVersionAndBuildNumberAction promises: one build-number bump after
  the version is settled, the two environment variables, and where the
  version comes from.
 */
module VersionAndBuildNumberLemmas {
  import opened RubyValues
  import opened Trace
  import opened Validation
  import opened UpdateVersion
  import opened VersionRewrite
  import opened VersionAndBuildNumber

  // ---------------------------------------------------------------------
  // Counting the build-number bumps
  // ---------------------------------------------------------------------

  /** How many times a trace calls IncrementNumberAction. */
  function Increments(t: seq<Call>): nat
    decreases |t|
  {
    if t == [] then 0
    else (if t[0].IncrementNumber? then 1 else 0) + Increments(t[1..])
  }

  lemma {:induction false} IncrementsAppend(a: seq<Call>, b: seq<Call>)
    ensures Increments(a + b) == Increments(a) + Increments(b)
    decreases |a|
  {
    if a == [] {
      assert a + b == b;
    } else {
      assert (a + b)[1..] == a[1..] + b;
      IncrementsAppend(a[1..], b);
    }
  }

  lemma {:induction false} NoIncrements(t: seq<Call>)
    requires forall i :: 0 <= i < |t| ==> !t[i].IncrementNumber?
    ensures Increments(t) == 0
    decreases |t|
  {
    if t != [] {
      NoIncrements(t[1..]);
    }
  }

  /** The build number is bumped at most once; on success exactly once, and
      that bump comes right after the calls of the version step, which made none. */
  lemma UvbnIncrementsOnce(w: World, p: Bag)
    ensures var r := UvbnRun(w, p);
            var step := VersionStep(w, p);
            && Increments(r.trace) <= 1
            && (r.result.Ok? ==>
                  && step.result.Ok?
                  && Increments(r.trace) == 1
                  && |step.trace| < |r.trace|
                  && r.trace[..|step.trace|] == step.trace
                  && Increments(step.trace) == 0
                  && r.trace[|step.trace|] == IncrementCall(p))
  {
    var step := VersionStep(w, p);
    var rest := if step.result.Ok? then Finish(w, p, step.result.value).trace else [];
    IncrementsAfter(step.trace, rest);
  }

  /** Version-step calls followed by nothing, or by a bump and then only
      `SetEnv`s: the bump is the only one and sits right after the version step. */
  lemma IncrementsAfter(a: seq<Call>, b: seq<Call>)
    requires forall i :: 0 <= i < |a| ==> IsUpdateVersionCall(a[i])
    requires b != [] ==> b[0].IncrementNumber? && forall i :: 1 <= i < |b| ==> b[i].SetEnv?
    ensures Increments(a) == 0
    ensures Increments(a + b) == if b == [] then 0 else 1
    ensures (a + b)[..|a|] == a
    ensures b != [] ==> (a + b)[|a|] == b[0]
  {
    NoIncrements(a);
    IncrementsAppend(a, b);
    if b != [] {
      NoIncrements(b[1..]);
    }
  }

  // ---------------------------------------------------------------------
  // The environment
  // ---------------------------------------------------------------------

  /** The process environment after the calls of a trace. */
  function ApplyEnv(env: map<string, string>, t: seq<Call>): map<string, string>
    decreases |t|
  {
    if t == [] then env
    else
      var next := if t[0].SetEnv? then env[t[0].name := t[0].value] else env;
      ApplyEnv(next, t[1..])
  }

  lemma {:induction false} ApplyEnvAppend(env: map<string, string>, a: seq<Call>, b: seq<Call>)
    ensures ApplyEnv(env, a + b) == ApplyEnv(ApplyEnv(env, a), b)
    decreases |a|
  {
    if a == [] {
      assert a + b == b;
    } else {
      assert (a + b)[1..] == a[1..] + b;
      var next := if a[0].SetEnv? then env[a[0].name := a[0].value] else env;
      ApplyEnvAppend(next, a[1..], b);
    }
  }

  lemma {:induction false} ApplyEnvNoSet(env: map<string, string>, t: seq<Call>)
    requires forall i :: 0 <= i < |t| ==> !t[i].SetEnv?
    ensures ApplyEnv(env, t) == env
    decreases |t|
  {
    if t != [] {
      ApplyEnvNoSet(env, t[1..]);
    }
  }

  /** On success `APP_BUILD_NUMBER` holds the version and `APP_BUILD_VERSION`
      the build number (the names are the other way round from their
      contents), and no other variable is touched. */
  lemma UvbnEnvironment(w: World, p: Bag)
    ensures var r := UvbnRun(w, p);
            r.result.Ok? ==>
              ApplyEnv(w.env, r.trace) ==
                w.env[BuildNumberEnv := ToS(r.result.value.version)][BuildVersionEnv := ToS(r.result.value.buildNumber)]
  {
    var step := VersionStep(w, p);
    if step.result.Ok? {
      var version := step.result.value;
      EnvironmentAfter(w.env, step.trace, IncrementCall(p), BuildNumberEnv, ToS(version), BuildVersionEnv, ToS(w.buildNumber));
    }
  }

  /** Calls that set no variable, the bump, then the two `SetEnv`s: only the
      two variables change, in that order. */
  lemma EnvironmentAfter(env: map<string, string>, a: seq<Call>, inc: Call, n1: string, v1: string, n2: string, v2: string)
    requires forall i :: 0 <= i < |a| ==> IsUpdateVersionCall(a[i])
    requires inc.IncrementNumber?
    ensures ApplyEnv(env, a + [inc, SetEnv(n1, v1), SetEnv(n2, v2)]) == env[n1 := v1][n2 := v2]
  {
    var t := [inc, SetEnv(n1, v1), SetEnv(n2, v2)];
    ApplyEnvNoSet(env, a);
    ApplyEnvAppend(env, a, t);
    var e1 := env[n1 := v1];
    assert t[1..][1..] == [t[2]];
    assert ApplyEnv(e1, [t[2]]) == ApplyEnv(e1[n2 := v2], []);
    assert ApplyEnv(env, t[1..]) == ApplyEnv(e1, [t[2]]);
  }

  // ---------------------------------------------------------------------
  // The two ways of settling the version
  // ---------------------------------------------------------------------

  /** With `skip_version` the config file is only queried: no prompt, no npm,
      no file access, and the version is the query output without newlines. */
  lemma UvbnSkipVersion(w: World, p: Bag)
    requires Truthy(Get(p, "skip_version"))
    ensures var r := UvbnRun(w, p);
            var query := QueryVersionCommand(Get(p, PathKey));
            && r.trace != [] && r.trace[0] == Sh(query)
            && (forall i :: 1 <= i < |r.trace| ==> !IsUpdateVersionCall(r.trace[i]))
            && (r.result.Ok? ==> r.result.value.version == DeleteNewlines(w.output(query)))
  {
    var step := VersionStep(w, p);
    var rest := if step.result.Ok? then Finish(w, p, step.result.value).trace else [];
    OnlyFirst(Sh(QueryVersionCommand(Get(p, PathKey))), rest);
  }

  /** A call followed by a bump and `SetEnv`s: only the first is a version-step call. */
  lemma OnlyFirst(c: Call, b: seq<Call>)
    requires b != [] ==> b[0].IncrementNumber? && forall i :: 1 <= i < |b| ==> b[i].SetEnv?
    ensures ([c] + b)[0] == c
    ensures forall i :: 1 <= i < |[c] + b| ==> !IsUpdateVersionCall(([c] + b)[i])
  {
    forall i | 1 <= i < |[c] + b| ensures !IsUpdateVersionCall(([c] + b)[i]) {
      assert ([c] + b)[i] == b[i - 1];
    }
  }

  /** The Hash handed to UpdateVersionAction carries the caller's path and `auto_increment`. */
  lemma UpdateVersionOptionsGet(p: Bag)
    ensures Get(UpdateVersionOptions(p), PathKey) == Get(p, PathKey)
    ensures Get(UpdateVersionOptions(p), "auto_increment") == Get(p, "auto_increment")
  {
    assert |PathKey| == 15 && |"auto_increment"| == 14;
  }

  /** Without `skip_version` the version is the one UpdateVersionAction
      returned, and that value is what it wrote into the config file. */
  lemma UvbnUpdatesVersion(w: World, p: Bag)
    requires !Truthy(Get(p, "skip_version"))
    ensures var r := UvbnRun(w, p);
            var path := Get(p, PathKey);
            r.result.Ok? ==>
              && UpdateVersionRun(w, UpdateVersionOptions(p)).result == Ok(r.result.value.version)
              && path.Str? && path.s in w.files
              && WriteFile(path.s, Rewrite(w.files[path.s], ToS(r.result.value.version))) in r.trace
  {
    var q := UpdateVersionOptions(p);
    var update := UpdateVersionRun(w, q);
    UpdateVersionOptionsGet(p);
    UpdateVersionOutcome(w, q);
    if update.result.Ok? {
      LastIn(update.trace, Finish(w, p, update.result.value).trace);
    }
  }

  /** The last call of a non-empty trace is among the calls of any run it starts. */
  lemma LastIn(a: seq<Call>, b: seq<Call>)
    requires a != []
    ensures a[|a| - 1] in a + b
  {
    assert (a + b)[|a| - 1] == a[|a| - 1];
  }

  /** In auto mode (and without `skip_version`) the first call asks npm for the version. */
  lemma UvbnAutoIncrement(w: World, p: Bag)
    requires !Truthy(Get(p, "skip_version")) && Truthy(Get(p, "auto_increment"))
    ensures UvbnRun(w, p).trace[0] == Sh(NpmVersionCommand)
  {
    UpdateVersionOptionsGet(p);
  }

  /** Without `auto_increment` npm is never asked for the version, and the
      first call queries the config file, whether or not the version is skipped. */
  lemma UvbnWithoutNpm(w: World, p: Bag)
    requires !Truthy(Get(p, "auto_increment"))
    ensures var r := UvbnRun(w, p);
            && Sh(NpmVersionCommand) !in r.trace
            && r.trace != [] && r.trace[0] == Sh(QueryVersionCommand(Get(p, PathKey)))
  {
    var step := VersionStep(w, p);
    var query := QueryVersionCommand(Get(p, PathKey));
    assert |query| > 40 && |NpmVersionCommand| < 40;
    if !Truthy(Get(p, "skip_version")) {
      UpdateVersionOptionsGet(p);
      UpdateVersionCalls(w, UpdateVersionOptions(p));
    }
    assert Sh(NpmVersionCommand) !in step.trace;
    assert step.trace != [] && step.trace[0] == Sh(query);
    var rest := if step.result.Ok? then Finish(w, p, step.result.value).trace else [];
    assert Sh(NpmVersionCommand) !in rest;
    NotInEither(Sh(NpmVersionCommand), step.trace, rest);
  }

  /** Without `skip_version` and `auto_increment`, once the config query has
      succeeded the operator is asked: the prompt is the second call. */
  lemma UvbnPrompts(w: World, p: Bag)
    ensures !Truthy(Get(p, "skip_version")) && !Truthy(Get(p, "auto_increment"))
              && Succeeds(w, Sh(QueryVersionCommand(Get(p, PathKey)))) ==>
              var r := UvbnRun(w, p);
              |r.trace| >= 2 && r.trace[1] == Prompt
  {
    if !Truthy(Get(p, "skip_version")) && !Truthy(Get(p, "auto_increment"))
       && Succeeds(w, Sh(QueryVersionCommand(Get(p, PathKey)))) {
      var q := UpdateVersionOptions(p);
      UpdateVersionOptionsGet(p);
      UpdateVersionPrompts(w, q);
      var step := VersionStep(w, p);
      assert step == UpdateVersionRun(w, q);
      var r := UvbnRun(w, p);
      assert |step.trace| <= |r.trace| && r.trace[..|step.trace|] == step.trace;
      PrefixAt(step.trace, r.trace, 1);
    }
  }

  /** A call in neither part is not in the whole, which starts where its first part does. */
  lemma NotInEither(c: Call, a: seq<Call>, b: seq<Call>)
    requires c !in a && c !in b && a != []
    ensures c !in a + b && (a + b)[0] == a[0]
  {
  }
}

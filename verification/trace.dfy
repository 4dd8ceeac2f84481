/**
  External effects as a trace. Every shell command, prompt, file access,
  environment write and call into another fastlane action is a `Call`; what
  the outside world answers is fixed by a `World` value. An action's run is
  the list of calls it issued and either its result or the error that ended it.
 */
module Trace {
  import opened RubyValues

  /** One observable step of an action. */
  datatype Call =
    | Sh(command: string)                       // fastlane `sh`
    | Prompt                                    // `STDIN.gets`
    | ReadFile(source: string)                  // `File.read`
    | WriteFile(target: string, contents: string) // `File.open(path, 'w') { |f| f.puts … }`
    | SetEnv(name: string, value: string)       // `ENV[name] = value`
    | IncrementNumber(configPath: Value, platform: Value)
    | BumpVersion(message: string)
    | PushToGitRemote(remote: Value, localBranch: Value, remoteBranch: Value, force: Value, tags: Value)

  /** Why a run stopped. */
  datatype Error =
    | UserError(message: string)  // `UI.user_error!` from an option's verify block
    | CallFailed(call: Call)      // a command exited non-zero, a file was missing, an action raised
    | NoMethod(name: string)      // NoMethodError, e.g. `nil.empty?`
    | WrongType(what: string)     // TypeError, e.g. `File.read(nil)`

  datatype Result<+T> = Ok(value: T) | Err(error: Error)

  /** What the outside world answers. */
  datatype World = World(
    succeeds: Call -> bool,          // exit status of commands and of the opaque actions
    output: string -> string,        // standard output of a shell command
    stdinLine: Option<string>,       // the line `STDIN.gets` returns (None at end of input)
    files: map<string, string>,      // readable files and their text
    directories: set<string>,        // existing directories
    env: map<string, string>,        // the process environment
    appIdentifier: Option<string>,   // `AppfileConfig.try_fetch_value(:app_identifier)`
    appName: string,                 // the `widget/name` text of config.xml
    escape: string -> string,        // `Shellwords.escape`
    buildNumber: Value)              // what `IncrementNumberAction.run` returns

  datatype Run<+T> = Run(trace: seq<Call>, result: Result<T>)

  /** Whether a call completes normally in world `w`. */
  predicate Succeeds(w: World, c: Call) {
    match c
    case SetEnv(_, _) => true
    case Prompt => true
    case ReadFile(source) => source in w.files
    case _ => w.succeeds(c)
  }

  predicate AllSucceed(w: World, calls: seq<Call>) {
    forall i :: 0 <= i < |calls| ==> Succeeds(w, calls[i])
  }

  /** A run is sound when it stopped exactly at its first failing call: a
      `CallFailed` error names the last call of the trace, which failed after
      all earlier ones succeeded; otherwise every call in the trace succeeded. */
  predicate Sound<T>(w: World, r: Run<T>) {
    if r.result.Err? && r.result.error.CallFailed? then
      && |r.trace| > 0
      && r.trace[|r.trace| - 1] == r.result.error.call
      && !Succeeds(w, r.result.error.call)
      && AllSucceed(w, r.trace[..|r.trace| - 1])
    else
      AllSucceed(w, r.trace)
  }

  /** A run that issued no call and returned `x`. */
  function Return<T>(x: T): Run<T> {
    Run([], Ok(x))
  }

  /** A run that issued no call and raised `e`. */
  function Raise<T>(e: Error): Run<T> {
    Run([], Err(e))
  }

  /** Issues `calls` in order, stopping at the first one that fails. */
  function Exec(w: World, calls: seq<Call>): (r: Run<()>)
    ensures Sound(w, r)
    ensures r.result.Ok? <==> AllSucceed(w, calls)
    ensures r.result.Ok? ==> r.trace == calls
    ensures r.result.Err? ==> r.result.error.CallFailed?
    ensures |r.trace| <= |calls| && r.trace == calls[..|r.trace|]
    decreases |calls|
  {
    if calls == [] then Return(())
    else if !Succeeds(w, calls[0]) then Run([calls[0]], Err(CallFailed(calls[0])))
    else
      var rest := Exec(w, calls[1..]);
      assert calls == [calls[0]] + calls[1..];
      ExecCons(w, calls[0], calls[1..], rest);
      Run([calls[0]] + rest.trace, rest.result)
  }

  /** A call that succeeds, followed by the run of the remaining calls, is the
      run of all of them. */
  lemma ExecCons(w: World, c: Call, calls: seq<Call>, rest: Run<()>)
    requires Succeeds(w, c) && Sound(w, rest)
    requires rest.result.Ok? <==> AllSucceed(w, calls)
    requires rest.result.Ok? ==> rest.trace == calls
    requires rest.result.Err? ==> rest.result.error.CallFailed?
    requires |rest.trace| <= |calls| && rest.trace == calls[..|rest.trace|]
    ensures var r := Prepend([c], rest);
            && Sound(w, r)
            && (r.result.Ok? <==> AllSucceed(w, [c] + calls))
            && (r.result.Ok? ==> r.trace == [c] + calls)
            && |r.trace| <= |[c] + calls| && r.trace == ([c] + calls)[..|r.trace|]
  {
    PrependSound(w, [c], rest);
    assert AllSucceed(w, [c] + calls) <==> AllSucceed(w, calls) by {
      assert ([c] + calls)[0] == c;
      assert forall i :: 1 <= i < |[c] + calls| ==> ([c] + calls)[i] == calls[i - 1];
      assert forall j :: 0 <= j < |calls| ==> calls[j] == ([c] + calls)[j + 1];
    }
    assert [c] + rest.trace == ([c] + calls)[..1 + |rest.trace|];
  }

  /** Runs `first`; only if it finished normally are `next`'s calls issued. */
  function Then<T>(first: Run<()>, next: Run<T>): (r: Run<T>)
    ensures first.result.Err? ==> r == Run(first.trace, Err(first.result.error))
    ensures first.result.Ok? ==> r == Run(first.trace + next.trace, next.result)
  {
    match first.result
    case Err(e) => Run(first.trace, Err(e))
    case Ok(_) => Run(first.trace + next.trace, next.result)
  }

  /** Prefixes calls that all succeeded to a run. */
  function Prepend<T>(calls: seq<Call>, next: Run<T>): Run<T> {
    Run(calls + next.trace, next.result)
  }

  /** Sequencing keeps runs sound. */
  lemma ThenSound<T>(w: World, first: Run<()>, next: Run<T>)
    requires Sound(w, first) && Sound(w, next)
    ensures Sound(w, Then(first, next))
  {
    if first.result.Ok? {
      PrependSound(w, first.trace, next);
    }
  }

  /** Calls that all succeeded can precede a sound run. */
  lemma PrependSound<T>(w: World, calls: seq<Call>, next: Run<T>)
    requires AllSucceed(w, calls) && Sound(w, next)
    ensures Sound(w, Prepend(calls, next))
  {
    var t := calls + next.trace;
    if next.result.Err? && next.result.error.CallFailed? {
      assert t[..|t| - 1] == calls + next.trace[..|next.trace| - 1];
    }
  }
}

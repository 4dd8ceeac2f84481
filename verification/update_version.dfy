/**
  UpdateVersionAction: choose the new version (from the package manifest in
  auto mode, from the operator otherwise), rewrite every `version="…"`
  attribute of the config file with it, and return it.
 */
module UpdateVersion {
  import opened RubyValues
  import opened Trace
  import opened Validation
  import opened VersionRewrite

  /** Prints the package version known to npm. */
  const NpmVersionCommand: string := "npx -c 'echo $npm_package_version'"

  /** Prints the `version` attribute of the `widget` element of the config file. */
  function QueryVersionCommand(path: Value): string {
    "echo \"cat //*[local-name()='widget']/@version\" | xmllint --shell " + ToS(path)
      + "|  awk -F'[=\"]' '!/>/{print $(NF-1)}'"
  }

  /** The prompted choice: the stripped answer when it is not blank, the old
      version otherwise. */
  function ChooseVersion(oldVersion: Value, answer: string): (v: Value)
    ensures !AllSpace(answer) ==> v == Str(Strip(answer)) && Strip(answer) != []
    ensures AllSpace(answer) ==> v == oldVersion
  {
    StripEmptyIff(answer);
    var chosen := Strip(answer);
    if |chosen| > 0 then Str(chosen) else oldVersion
  }

  /** The answer the operator types is what is taken, without its line end. */
  lemma {:induction false} ChooseTypedVersion(oldVersion: Value, typed: string)
    requires typed != [] && !IsSpace(typed[0]) && !IsSpace(typed[|typed| - 1])
    ensures ChooseVersion(oldVersion, typed + "\n") == Str(typed)
  {
    var line := typed + "\n";
    assert line[0] == typed[0];
    assert TrimStart(line) == line;
    assert line[..|line| - 1] == typed;
    assert TrimEnd(line) == TrimEnd(typed) == typed;
    assert !AllSpace(line);
  }

  /** Step 1 in auto mode: the npm package version without its newline. No prompt. */
  function AutoVersion(w: World): (r: Run<Value>)
    ensures Sound(w, r)
    ensures r.trace == [Sh(NpmVersionCommand)]
    ensures r.result.Ok? <==> Succeeds(w, Sh(NpmVersionCommand))
    ensures r.result.Ok? ==> r.result.value == DeleteNewlines(w.output(NpmVersionCommand))
  {
    var sh := Exec(w, [Sh(NpmVersionCommand)]);
    var r := Then(sh, Return(DeleteNewlines(w.output(NpmVersionCommand))));
    ThenSound(w, sh, Return(DeleteNewlines(w.output(NpmVersionCommand))));
    r
  }

  /** Step 1 in interactive mode: run the query command, prompt, choose.
      End of input makes `gets` answer nil, which has no `strip`. */
  function PromptedVersion(w: World, query: string): (r: Run<Value>)
    ensures Sound(w, r)
    ensures Succeeds(w, Sh(query)) ==> r.trace == [Sh(query), Prompt]
    ensures !Succeeds(w, Sh(query)) ==> r == Run([Sh(query)], Err(CallFailed(Sh(query))))
    ensures Succeeds(w, Sh(query)) && w.stdinLine.None? ==> r.result == Err(NoMethod("strip"))
    ensures Succeeds(w, Sh(query)) && w.stdinLine.Some? ==>
              r.result == Ok(ChooseVersion(DeleteNewlines(w.output(query)), w.stdinLine.value))
  {
    var oldVersion := DeleteNewlines(w.output(query));
    var answer :=
      match w.stdinLine
      case None => Run([Prompt], Err(NoMethod("strip")))
      case Some(line) => Run([Prompt], Ok(ChooseVersion(oldVersion, line)));
    var sh := Exec(w, [Sh(query)]);
    ThenSound(w, sh, answer);
    Then(sh, answer)
  }

  /** Calls that only run commands and prompt. */
  predicate AsksOnly(t: seq<Call>) {
    forall i :: 0 <= i < |t| ==> t[i].Sh? || t[i].Prompt?
  }

  /** Calls that only read and write files. */
  predicate FileOnly(t: seq<Call>) {
    forall i :: 0 <= i < |t| ==> t[i].ReadFile? || t[i].WriteFile?
  }

  /** Step 1: the npm version in auto mode, the prompted one otherwise. */
  function ChooseStep(w: World, p: Bag): (r: Run<Value>)
    ensures Sound(w, r)
    ensures AsksOnly(r.trace)
    ensures !Truthy(Get(p, "auto_increment")) ==> Sh(NpmVersionCommand) !in r.trace
    ensures r.trace != [] && r.trace[0] == (if Truthy(Get(p, "auto_increment")) then Sh(NpmVersionCommand) else Sh(QueryVersionCommand(Get(p, PathKey))))
  {
    var query := QueryVersionCommand(Get(p, PathKey));
    assert |query| > 40 && |NpmVersionCommand| < 40;
    if Truthy(Get(p, "auto_increment")) then AutoVersion(w) else PromptedVersion(w, query)
  }

  /** `run`: the chosen version, then read, rewrite and write back the config file. */
  function UpdateVersionRun(w: World, p: Bag): (r: Run<Value>)
    ensures ChoiceThenFiles(w, ChooseStep(w, p), r)
    ensures r.trace != [] && r.trace[0] == (if Truthy(Get(p, "auto_increment")) then Sh(NpmVersionCommand) else Sh(QueryVersionCommand(Get(p, PathKey))))
  {
    AfterChoice(w, Get(p, PathKey), ChooseStep(w, p))
  }

  /** Outside auto mode, once the config query has succeeded the operator is
      asked: the prompt is the second call. */
  lemma UpdateVersionPrompts(w: World, p: Bag)
    ensures !Truthy(Get(p, "auto_increment")) && Succeeds(w, Sh(QueryVersionCommand(Get(p, PathKey)))) ==>
              var r := UpdateVersionRun(w, p);
              |r.trace| >= 2 && r.trace[0] == Sh(QueryVersionCommand(Get(p, PathKey))) && r.trace[1] == Prompt
  {
    var query := QueryVersionCommand(Get(p, PathKey));
    if !Truthy(Get(p, "auto_increment")) && Succeeds(w, Sh(query)) {
      var choose := ChooseStep(w, p);
      assert choose.trace == [Sh(query), Prompt];
      PrefixAt(choose.trace, UpdateVersionRun(w, p).trace, 1);
    }
  }

  /** A prefix's calls are the whole's calls at the same positions. */
  lemma PrefixAt(a: seq<Call>, b: seq<Call>, i: nat)
    requires |a| <= |b| && b[..|a|] == a && i < |a|
    ensures b[i] == a[i]
  {
    assert b[..|a|][i] == b[i];
  }

  /** The action as fastlane runs it: a config path that does not exist is
      reported before anything is asked or written. */
  function UpdateVersionAction(w: World, p: Bag): (r: Run<Value>)
    ensures !PathExists(w, Get(p, PathKey)) ==> r == Run([], Err(UserError(PathMessage)))
    ensures PathExists(w, Get(p, PathKey)) ==> r == UpdateVersionRun(w, p)
  {
    var vs := [PathVerify(w)];
    assert Accepted(p, vs[0]) <==> PathExists(w, Get(p, PathKey));
    if !PathExists(w, Get(p, PathKey)) then
      FirstRejectionAt(p, vs, 0);
      Validated(p, vs, UpdateVersionRun(w, p))
    else
      Validated(p, vs, UpdateVersionRun(w, p))
  }

  /** A sound run that starts with the calls of `choose` and afterwards only
      reads and writes files. */
  predicate ChoiceThenFiles(w: World, choose: Run<Value>, r: Run<Value>) {
    && Sound(w, r)
    && |choose.trace| <= |r.trace| && r.trace[..|choose.trace|] == choose.trace
    && FileOnly(r.trace[|choose.trace|..])
  }

  /** What follows the choice: nothing if it raised, otherwise the write-back. */
  function AfterChoice(w: World, path: Value, choose: Run<Value>): (r: Run<Value>)
    requires Sound(w, choose)
    ensures Sound(w, r)
    ensures choose.trace != [] ==> r.trace != [] && r.trace[0] == choose.trace[0]
    ensures |choose.trace| <= |r.trace| && r.trace[..|choose.trace|] == choose.trace
    ensures FileOnly(r.trace[|choose.trace|..])
    ensures choose.result.Err? ==> r == choose
    ensures choose.result.Ok? ==> r.result == WriteBack(w, path, choose.result.value).result
  {
    match choose.result
    case Err(e) => choose
    case Ok(version) =>
      var back := WriteBack(w, path, version);
      PrependSound(w, choose.trace, back);
      ConcatIndex(choose.trace, back.trace);
      PrefixSplit(choose.trace, back.trace);
      Prepend(choose.trace, back)
  }

  /** Reads the file at `path`, rewrites it with `version` and writes it back,
      answering `version`. A path that is not a String raises TypeError. */
  function WriteBack(w: World, path: Value, version: Value): (r: Run<Value>)
    ensures Sound(w, r)
    ensures !path.Str? ==> r == Run([], Err(WrongType("pathToConfigXML")))
    ensures r.result.Ok? <==> path.Str? && path.s in w.files && Succeeds(w, WriteFile(path.s, Rewrite(w.files[path.s], ToS(version))))
    ensures r.result.Ok? ==> r.result.value == version
    ensures r.result.Ok? ==> r.trace == [ReadFile(path.s), WriteFile(path.s, Rewrite(w.files[path.s], ToS(version)))]
    ensures path.Str? && path.s !in w.files ==> r == Run([ReadFile(path.s)], Err(CallFailed(ReadFile(path.s))))
    ensures FileOnly(r.trace)
  {
    if !path.Str? then Raise(WrongType("pathToConfigXML"))
    else
      var read := Exec(w, [ReadFile(path.s)]);
      if read.result.Err? then Run(read.trace, Err(read.result.error))
      else
        var write := Exec(w, [WriteFile(path.s, Rewrite(w.files[path.s], ToS(version)))]);
        var rest := Then(write, Return(version));
        ThenSound(w, write, Return(version));
        ThenSound(w, read, rest);
        Then(read, rest)
  }

  /** What a finished run did: auto mode never prompts and takes the npm
      version; interactive mode queries, prompts and chooses; either way the
      returned value is exactly the one written into every occurrence. */
  lemma {:induction false} UpdateVersionOutcome(w: World, p: Bag)
    ensures var r := UpdateVersionRun(w, p);
            var path := Get(p, PathKey);
            r.result.Ok? ==>
              && path.Str? && path.s in w.files
              && r.trace[|r.trace| - 1] == WriteFile(path.s, Rewrite(w.files[path.s], ToS(r.result.value)))
              && (Truthy(Get(p, "auto_increment")) ==>
                    && r.trace == [Sh(NpmVersionCommand), ReadFile(path.s), r.trace[2]]
                    && Prompt !in r.trace
                    && r.result.value == DeleteNewlines(w.output(NpmVersionCommand)))
              && (!Truthy(Get(p, "auto_increment")) ==>
                    && r.trace == [Sh(QueryVersionCommand(path)), Prompt, ReadFile(path.s), r.trace[3]]
                    && w.stdinLine.Some?
                    && r.result.value == ChooseVersion(DeleteNewlines(w.output(QueryVersionCommand(path))), w.stdinLine.value))
  {
    if UpdateVersionRun(w, p).result.Ok? {
      var path := Get(p, PathKey);
      var choose := ChooseStep(w, p);
      WriteBackAfter(w, path, choose);
      var files := [ReadFile(path.s), WriteFile(path.s, Rewrite(w.files[path.s], ToS(choose.result.value)))];
      if Truthy(Get(p, "auto_increment")) {
        assert choose == AutoVersion(w);
        assert [Sh(NpmVersionCommand)] + files == [Sh(NpmVersionCommand), files[0], files[1]];
      } else {
        var query := QueryVersionCommand(path);
        assert choose == PromptedVersion(w, query);
        assert Succeeds(w, Sh(query));
        assert [Sh(query), Prompt] + files == [Sh(query), Prompt, files[0], files[1]];
      }
    }
  }

  /** A choice followed by a successful write-back: the config file was read
      and written once each, and the chosen value is returned. */
  lemma WriteBackAfter(w: World, path: Value, choose: Run<Value>)
    requires Sound(w, choose) && AfterChoice(w, path, choose).result.Ok?
    ensures choose.result.Ok? && path.Str? && path.s in w.files
    ensures AfterChoice(w, path, choose)
              == Run(choose.trace + [ReadFile(path.s), WriteFile(path.s, Rewrite(w.files[path.s], ToS(choose.result.value)))], choose.result)
  {
  }

  /** The kinds of call the action makes: shell commands, the prompt, and
      reading and writing the config file. */
  predicate IsUpdateVersionCall(c: Call) {
    c.Sh? || c.Prompt? || c.ReadFile? || c.WriteFile?
  }

  /** The action makes no other kind of call; out of auto mode it never asks
      npm for the version. */
  lemma {:induction false} UpdateVersionCalls(w: World, p: Bag)
    ensures var r := UpdateVersionRun(w, p);
            forall i :: 0 <= i < |r.trace| ==>
              && IsUpdateVersionCall(r.trace[i])
              && (!Truthy(Get(p, "auto_increment")) ==> r.trace[i] != Sh(NpmVersionCommand))
  {
    var r := UpdateVersionRun(w, p);
    KindsOfParts(ChooseStep(w, p).trace, r.trace);
  }

  /** Commands and prompts followed by file accesses are all calls of this
      action, and `npm` is asked only if the first part asked it. */
  lemma KindsOfParts(a: seq<Call>, t: seq<Call>)
    requires AsksOnly(a) && |a| <= |t| && t[..|a|] == a && FileOnly(t[|a|..])
    ensures forall i :: 0 <= i < |t| ==> IsUpdateVersionCall(t[i])
    ensures Sh(NpmVersionCommand) !in a ==> forall i :: 0 <= i < |t| ==> t[i] != Sh(NpmVersionCommand)
  {
    var k := |a|;
    forall i | 0 <= i < |t|
      ensures IsUpdateVersionCall(t[i])
      ensures Sh(NpmVersionCommand) !in a ==> t[i] != Sh(NpmVersionCommand)
    {
      if i < k {
        assert t[i] == t[..k][i] == a[i];
      } else {
        assert t[i] == t[k..][i - k];
      }
    }
  }


  // ---------------------------------------------------------------------
  // The documented round trip
  // ---------------------------------------------------------------------

  /** A config file with a single occurrence, whatever its old value, holds
      exactly the new value there afterwards; everything around it is unchanged.
      The text around the occurrence may hold anything but a further match
      (`xmlns`, `id`, `<name>` and the like). */
  lemma {:induction false} SingleOccurrenceReplaced(before: string, current: string, after: string, v: string)
    requires NoOccurrence(before) && NoOccurrence(after) && AllVersionChars(current)
    ensures Rewrite(before + Opening + current + "\"" + after, v) == before + Opening + v + "\"" + after
  {
    var rest := Opening + current + "\"" + after;
    Associate(before, Opening, current, "\"", after);
    assert rest[0] == Opening[0] == 'v';
    NoOccurrenceBeforeV(before, rest);
    RewriteSkipsNoMatch(before, rest, v);
    RewriteOccurrence(current, after, v);
    RewriteNoOccurrence(after, v);
    Associate(before, Opening, v, "\"", after);
  }

  lemma Flatten(x: string, a: string, b: string, c: string, d: string, e: string)
    ensures x + (a + b + c + d + e) == x + a + b + c + d + e
  {
    AppendAssoc(x, a + b + c + d, e);
    AppendAssoc(x, a + b + c, d);
    AppendAssoc(x, a + b, c);
    AppendAssoc(x, a, b);
  }

  lemma Associate(a: string, b: string, c: string, d: string, e: string)
    ensures a + b + c + d + e == a + (b + c + d + e)
  {
  }

  /** Text shorter than `version="` holds no occurrence. */
  lemma ShortNoOccurrence(s: string)
    requires |s| < |Opening|
    ensures NoOccurrence(s)
  {
    forall i | 0 <= i < |s| ensures MatchLength(s[i..]) == None {
      assert !StartsWith(s[i..], Opening);
    }
  }

  /** A config file whose only occurrence is `version="1.2.3"` holds exactly
      `version="1.3.0"` afterwards. */
  lemma {:induction false} ManifestRoundTrip(before: string, after: string)
    requires NoOccurrence(before) && NoOccurrence(after)
    ensures Rewrite(before + Opening + "1.2.3" + "\"" + after, "1.3.0") == before + Opening + "1.3.0" + "\"" + after
  {
    assert AllVersionChars("1.2.3");
    SingleOccurrenceReplaced(before, "1.2.3", after, "1.3.0");
  }

  /** Two occurrences are both replaced; the text between and around them is kept. */
  lemma {:induction false} TwoOccurrencesReplaced(before: string, first: string, middle: string, second: string, after: string, v: string)
    requires NoOccurrence(before) && NoOccurrence(middle) && NoOccurrence(after)
    requires AllVersionChars(first) && AllVersionChars(second)
    ensures Rewrite(before + Opening + first + "\"" + middle + Opening + second + "\"" + after, v)
            == before + Opening + v + "\"" + middle + Opening + v + "\"" + after
  {
    var tail := middle + Opening + second + "\"" + after;
    var rest := Opening + first + "\"" + tail;
    assert rest[0] == Opening[0] == 'v';
    NoOccurrenceBeforeV(before, rest);
    RewriteSkipsNoMatch(before, rest, v);
    RewriteOccurrence(first, tail, v);
    SingleOccurrenceReplaced(middle, second, after, v);
    Associate(before, Opening, first, "\"", tail);
    Associate(before, Opening, v, "\"", middle + Opening + v + "\"" + after);
    Flatten(before + Opening + first + "\"", middle, Opening, second, "\"", after);
    Flatten(before + Opening + v + "\"", middle, Opening, v, "\"", after);
  }

  /** The XML declaration's `version="1.0"` matches the pattern too and is
      rewritten along with the widget's version. */
  lemma {:induction false} XmlDeclarationRewritten(middle: string, current: string, after: string, v: string)
    requires NoOccurrence(middle) && NoOccurrence(after) && AllVersionChars(current)
    ensures Rewrite("<?xml " + Opening + "1.0" + "\"" + middle + Opening + current + "\"" + after, v)
            == "<?xml " + Opening + v + "\"" + middle + Opening + v + "\"" + after
  {
    assert AllVersionChars("1.0");
    ShortNoOccurrence("<?xml ");
    TwoOccurrencesReplaced("<?xml ", "1.0", middle, current, after, v);
  }

  /** Typing a version at the prompt for a config file with a single
      occurrence writes back the file with the typed version in it, unchanged
      elsewhere, and returns the typed version. */
  lemma {:induction false} PromptedRoundTrip(w: World, p: Bag, before: string, current: string, after: string, typed: string)
    requires !Truthy(Get(p, "auto_increment"))
    requires Get(p, PathKey).Str? && Get(p, PathKey).s in w.files
    requires w.files[Get(p, PathKey).s] == before + Opening + current + "\"" + after
    requires NoOccurrence(before) && NoOccurrence(after) && AllVersionChars(current)
    requires typed != [] && !IsSpace(typed[0]) && !IsSpace(typed[|typed| - 1])
    requires w.stdinLine == Some(typed + "\n")
    requires Succeeds(w, Sh(QueryVersionCommand(Get(p, PathKey))))
    requires Succeeds(w, WriteFile(Get(p, PathKey).s, before + Opening + typed + "\"" + after))
    ensures var r := UpdateVersionRun(w, p);
            && r.result == Ok(Str(typed))
            && r.trace[|r.trace| - 1] == WriteFile(Get(p, PathKey).s, before + Opening + typed + "\"" + after)
  {
    var path := Get(p, PathKey);
    var query := QueryVersionCommand(path);
    ChooseTypedVersion(DeleteNewlines(w.output(query)), typed);
    SingleOccurrenceReplaced(before, current, after, typed);
    var choose := PromptedVersion(w, query);
    assert choose.result == Ok(Str(typed));
    var text := w.files[path.s];
    assert Rewrite(text, ToS(Str(typed))) == before + Opening + typed + "\"" + after;
    var back := WriteBack(w, path, Str(typed));
    assert back.result == Ok(Str(typed));
    assert back.trace[1] == WriteFile(path.s, before + Opening + typed + "\"" + after);
    assert UpdateVersionRun(w, p) == Prepend(choose.trace, back);
  }
}

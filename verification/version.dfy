/**
  VersionAction: run UpdateVersionAndBuildNumberAction, commit the version
  bump with a message naming platform, build number and version, push, and
  return what UpdateVersionAndBuildNumberAction returned.
 */
module Version {
  import opened RubyValues
  import opened Trace
  import opened Validation
  import opened UpdateVersion
  import opened VersionAndBuildNumber
  import opened VersionAndBuildNumberLemmas

  // ---------------------------------------------------------------------
  // The commit message
  // ---------------------------------------------------------------------

  /** The platform named in the commit message: `ios` for the platform `ios`,
      `android` for everything else (including the empty platform and nil). */
  function PlatformTag(platform: Value): (t: string)
    ensures t == "ios" || t == "android"
    ensures t == "ios" <==> ToS(platform) == "ios"
  {
    if ToS(platform) == "ios" then "ios" else "android"
  }

  /** Everything up to the build number: `fastlane(<tag>): build `. */
  function Header(tag: string): string {
    "fastlane(" + tag + "): build "
  }

  /** Between the build number and the version. */
  const Separator: string := ", version: "

  /** What follows the header: the build number, the separator, the version. */
  function Fields(build: string, version: string): string {
    build + Separator + version
  }

  /** The message handed to BumpVersionAction. */
  function CommitMessage(platform: Value, info: VersionInfo): string {
    Header(PlatformTag(platform)) + Fields(ToS(info.buildNumber), ToS(info.version))
  }

  /** The three fields a commit message carries. */
  datatype Commit = Commit(tag: string, build: string, version: string)

  /** Reads the fields back from a message: the tag from the header, the build
      number up to the first comma, the version after the separator. */
  function ParseCommitMessage(m: string): (r: Option<Commit>)
    ensures r.Some? ==> && (r.value.tag == "ios" || r.value.tag == "android")
                        && ',' !in r.value.build
                        && m == Header(r.value.tag) + Fields(r.value.build, r.value.version)
  {
    if StartsWith(m, Header("ios")) then
      ParseFields("ios", m[|Header("ios")|..])
    else if StartsWith(m, Header("android")) then
      ParseFields("android", m[|Header("android")|..])
    else None
  }

  function ParseFields(tag: string, s: string): (r: Option<Commit>)
    ensures r.Some? ==> r.value.tag == tag && ',' !in r.value.build && s == Fields(r.value.build, r.value.version)
  {
    var i := IndexOf(s, ',');
    if StartsWith(s[i..], Separator) then
      Resliced(s, i, |Separator|);
      Some(Commit(tag, s[..i], s[i + |Separator|..]))
    else None
  }

  /** Cutting a string at `i` and `i + k` and gluing the three pieces back. */
  lemma Resliced(s: string, i: nat, k: nat)
    requires i + k <= |s|
    ensures s == s[..i] + s[i..][..k] + s[i + k..]
  {
    assert s[i..][..k] == s[i..i + k];
  }

  /** The header's tenth character is the first of the tag. */
  lemma HeaderTagStart(tag: string, rest: string)
    requires tag != []
    ensures |Header(tag) + rest| > 9 && (Header(tag) + rest)[9] == tag[0]
  {
  }

  /** The fields after the header are read back when the build number has no comma. */
  lemma ParseFieldsRoundTrip(tag: string, b: string, v: string)
    requires ',' !in b
    ensures ParseFields(tag, Fields(b, v)) == Some(Commit(tag, b, v))
  {
    var tail := Fields(b, v);
    assert Separator == [','] + Separator[1..];
    assert tail == b + [','] + (Separator[1..] + v);
    IndexOfFirst(b, ',', Separator[1..] + v);
    assert tail[|b|..] == Separator + v;
    assert tail[..|b|] == b;
    assert tail[|b| + |Separator|..] == v;
  }

  /** A message with an `android` header does not start with the `ios` one. */
  lemma AndroidIsNotIos(tail: string)
    ensures !StartsWith(Header("android") + tail, Header("ios"))
  {
    HeaderTagStart("android", tail);
    HeaderTagStart("ios", []);
    assert Header("ios") + [] == Header("ios");
  }

  /** The header is recognised and the rest of the message handed to the field parser. */
  lemma ParseHeader(tag: string, tail: string)
    requires tag == "ios" || tag == "android"
    ensures ParseCommitMessage(Header(tag) + tail) == ParseFields(tag, tail)
  {
    var m := Header(tag) + tail;
    assert m[..|Header(tag)|] == Header(tag) && m[|Header(tag)|..] == tail;
    if tag == "android" {
      AndroidIsNotIos(tail);
    }
  }

  /** A build number without a comma (a plain number always is) can be read
      back from the message, and so can the platform tag and the version. */
  lemma CommitMessageRoundTrip(platform: Value, info: VersionInfo)
    requires ',' !in ToS(info.buildNumber)
    ensures ParseCommitMessage(CommitMessage(platform, info)) ==
              Some(Commit(PlatformTag(platform), ToS(info.buildNumber), ToS(info.version)))
  {
    var tag := PlatformTag(platform);
    var tail := Fields(ToS(info.buildNumber), ToS(info.version));
    ParseHeader(tag, tail);
    ParseFieldsRoundTrip(tag, ToS(info.buildNumber), ToS(info.version));
  }

  // ---------------------------------------------------------------------
  // The run
  // ---------------------------------------------------------------------

  /** The Hash handed to `UpdateVersionAndBuildNumberAction.run`: platform,
      config path and `skip_version`. It has no `auto_increment`. */
  function UvbnOptions(p: Bag): Bag {
    map["platform" := Get(p, "platform"), PathKey := Get(p, PathKey), "skip_version" := Get(p, "skip_version")]
  }

  /** The `PushToGitRemoteAction.run` call, with the push options as given. */
  function PushCall(p: Bag): Call {
    PushToGitRemote(Get(p, "remote"), Get(p, "local_branch"), Get(p, "remote_branch"), Get(p, "force"), Get(p, "tags"))
  }

  /** Committing the version bump, then pushing it. */
  function PublishCalls(p: Bag, info: VersionInfo): seq<Call> {
    [BumpVersion(CommitMessage(Get(p, "platform"), info)), PushCall(p)]
  }

  /** `run`, after the option checks. */
  function VersionRun(w: World, p: Bag): (r: Run<VersionInfo>)
    ensures Sound(w, r)
  {
    var uvbn := UvbnRun(w, UvbnOptions(p));
    match uvbn.result
    case Err(e) => Run(uvbn.trace, Err(e))
    case Ok(info) =>
      var publish := Exec(w, PublishCalls(p, info));
      ThenSound(w, publish, Return(info));
      PrependSound(w, uvbn.trace, Then(publish, Return(info)));
      Prepend(uvbn.trace, Then(publish, Return(info)))
  }

  /** The action as fastlane runs it. Its option checks are those of
      UpdateVersionAndBuildNumberAction, taken in declaration order: a known
      platform, then an existing config path. */
  function VersionAction(w: World, p: Bag): (r: Run<VersionInfo>)
    ensures Sound(w, r)
    ensures !IsPlatform(Get(p, "platform")) ==> r == Run([], Err(UserError(PlatformMessage)))
    ensures IsPlatform(Get(p, "platform")) && !PathExists(w, Get(p, PathKey)) ==> r == Run([], Err(UserError(PathMessage)))
    ensures IsPlatform(Get(p, "platform")) && PathExists(w, Get(p, PathKey)) ==> r == VersionRun(w, p)
  {
    UvbnValidation(w, p);
    Validated(p, UvbnVerifiers(w), VersionRun(w, p))
  }

  /** On success the version bump is committed with the message built from
      UpdateVersionAndBuildNumberAction's result, then pushed, and that
      result is returned unchanged. */
  lemma VersionOrder(w: World, p: Bag)
    ensures var uvbn := UvbnRun(w, UvbnOptions(p));
            var r := VersionRun(w, p);
            r.result.Ok? ==>
              && uvbn.result == r.result
              && r.trace == uvbn.trace + [BumpVersion(CommitMessage(Get(p, "platform"), r.result.value)), PushCall(p)]
  {
    VersionRunCases(w, p);
    if VersionRun(w, p).result.Ok? {
      PublishedOk(w, p, UvbnRun(w, UvbnOptions(p)), VersionRun(w, p));
    }
  }

  /** A run that succeeded after UpdateVersionAndBuildNumberAction went through
      it and then through both publishing calls. */
  lemma PublishedOk(w: World, p: Bag, uvbn: Run<VersionInfo>, r: Run<VersionInfo>)
    requires uvbn.result.Err? ==> r == uvbn
    requires uvbn.result.Ok? ==> r == Prepend(uvbn.trace, Then(Exec(w, PublishCalls(p, uvbn.result.value)), Return(uvbn.result.value)))
    requires r.result.Ok?
    ensures uvbn.result == r.result && r.trace == uvbn.trace + PublishCalls(p, r.result.value)
  {
  }


  /** The version is never taken from npm, because no `auto_increment` is
      passed on: the run starts by querying the config file, and without
      `skip_version` the operator is asked next once that query succeeded. */
  lemma VersionNeverAsksNpm(w: World, p: Bag)
    ensures var r := VersionRun(w, p);
            && Sh(NpmVersionCommand) !in r.trace
            && r.trace != [] && r.trace[0] == Sh(QueryVersionCommand(Get(p, PathKey)))
    ensures !Truthy(Get(p, "skip_version")) && Succeeds(w, Sh(QueryVersionCommand(Get(p, PathKey)))) ==>
              var r := VersionRun(w, p);
              |r.trace| >= 2 && r.trace[1] == Prompt
  {
    var q := UvbnOptions(p);
    UvbnOptionsGet(p);
    UvbnWithoutNpm(w, q);
    UvbnPrompts(w, q);
    VersionRunCases(w, p);
    PublishedNoNpm(w, p, UvbnRun(w, q), VersionRun(w, p));
    var uvbn := UvbnRun(w, q);
    if uvbn.result.Ok? && |uvbn.trace| >= 2 {
      var info := uvbn.result.value;
      PrefixOfPrepend(uvbn.trace, Then(Exec(w, PublishCalls(p, info)), Return(info)));
    }
  }

  lemma PrefixOfPrepend<T>(calls: seq<Call>, r: Run<T>)
    requires |calls| >= 2
    ensures |Prepend(calls, r).trace| >= 2 && Prepend(calls, r).trace[1] == calls[1]
  {
    assert (calls + r.trace)[1] == calls[1];
  }

  /** Publishing adds no npm query and keeps the first call. */
  lemma PublishedNoNpm(w: World, p: Bag, uvbn: Run<VersionInfo>, r: Run<VersionInfo>)
    requires uvbn.result.Err? ==> r == uvbn
    requires uvbn.result.Ok? ==> r == Prepend(uvbn.trace, Then(Exec(w, PublishCalls(p, uvbn.result.value)), Return(uvbn.result.value)))
    requires Sh(NpmVersionCommand) !in uvbn.trace && uvbn.trace != []
    ensures Sh(NpmVersionCommand) !in r.trace && r.trace != [] && r.trace[0] == uvbn.trace[0]
  {
    if uvbn.result.Ok? {
      var info := uvbn.result.value;
      PublishTrace(w, PublishCalls(p, info), info);
      NotInEither(Sh(NpmVersionCommand), uvbn.trace, Then(Exec(w, PublishCalls(p, info)), Return(info)).trace);
    }
  }

  /** When UpdateVersionAndBuildNumberAction fails, nothing is committed or
      pushed; when it succeeds, the commit and the push follow it. */
  lemma VersionRunCases(w: World, p: Bag)
    ensures var uvbn := UvbnRun(w, UvbnOptions(p));
            uvbn.result.Err? ==> VersionRun(w, p) == uvbn
    ensures var uvbn := UvbnRun(w, UvbnOptions(p));
            uvbn.result.Ok? ==>
              var info := uvbn.result.value;
              VersionRun(w, p) == Prepend(uvbn.trace, Then(Exec(w, PublishCalls(p, info)), Return(info)))
  {
  }

  /** The Hash handed on passes the config path through and has no `auto_increment`. */
  lemma UvbnOptionsGet(p: Bag)
    ensures Get(UvbnOptions(p), PathKey) == Get(p, PathKey)
    ensures Get(UvbnOptions(p), "auto_increment") == Nil
    ensures Get(UvbnOptions(p), "skip_version") == Get(p, "skip_version")
  {
    assert |"auto_increment"| == 14;
  }

  /** Publishing runs only the commit and the push. */
  lemma PublishTrace(w: World, calls: seq<Call>, info: VersionInfo)
    requires forall i :: 0 <= i < |calls| ==> calls[i].BumpVersion? || calls[i].PushToGitRemote?
    ensures Sh(NpmVersionCommand) !in Then(Exec(w, calls), Return(info)).trace
  {
  }
}

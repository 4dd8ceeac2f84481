/**
  Argument assembly of CordovaAction: the platform argument maps, the
  option-bag-to-flags mapper, the Android key-password fallback, the iOS
  provisioning-profile fill and package-type aliasing, and the global build
  arguments shared by `cordova prepare` and `cordova compile`.
 */
module CordovaArgs {
  import opened RubyValues
  import opened Trace

  /** An ordered map from action option to the CLI parameter it is passed as. */
  type ArgsMap = seq<(string, string)>

  const AndroidArgsMap: ArgsMap := [
    ("keystore_path", "keystore"),
    ("keystore_password", "storePassword"),
    ("key_password", "password"),
    ("keystore_alias", "alias"),
    ("bundle", "bundle"),
    ("min_sdk_version", "gradleArg=-PcdvMinSdkVersion"),
    ("cordova_no_fetch", "cordovaNoFetch"),
    ("verbose", "verbose")
  ]

  const IosArgsMap: ArgsMap := [
    ("type", "packageType"),
    ("team_id", "developmentTeam"),
    ("provisioning_profile", "provisioningProfile"),
    ("build_flag", "buildFlag")
  ]

  /** The one option whose Array value is spread into one flag per element. */
  const BuildFlagKey: string := "build_flag"

  /** `--<cli>=<value>`. */
  function Flag(cli: string, value: string): string {
    "--" + cli + "=" + value
  }

  /** Whether token `t` is a `--<cli>=…` flag. */
  predicate IsFlagFor(t: string, cli: string) {
    |t| >= |cli| + 3 && t[..|cli| + 3] == "--" + cli + "="
  }

  lemma FlagIsFlagFor(cli: string, value: string)
    ensures IsFlagFor(Flag(cli, value), cli)
  {
    assert Flag(cli, value)[..|cli| + 3] == "--" + cli + "=";
  }

  /** One `--<cli>=<escape(f)>` per element of `flags`, in order. */
  function FlagTokens(cli: string, flags: seq<string>, escape: string -> string): (r: seq<string>)
    ensures |r| == |flags|
    ensures forall i :: 0 <= i < |flags| ==> r[i] == Flag(cli, escape(flags[i]))
    decreases |flags|
  {
    if flags == [] then [] else [Flag(cli, escape(flags[0]))] + FlagTokens(cli, flags[1..], escape)
  }

  /** The tokens one map entry contributes for value `v`. */
  function EntryTokens(key: string, cli: string, v: Value, escape: string -> string): (r: seq<string>)
    ensures key == BuildFlagKey && v.List? ==> |r| == |v.items|
    ensures key == BuildFlagKey && v.List? ==> forall i :: 0 <= i < |r| ==> r[i] == Flag(cli, escape(v.items[i]))
    ensures !(key == BuildFlagKey && v.List?) ==> (r == [] <==> v == Nil || v == Str(""))
    ensures !(key == BuildFlagKey && v.List?) && r != [] ==> r == [Flag(cli, escape(ToS(v)))]
  {
    ToSEmptyIff(v);
    if key == BuildFlagKey && v.List? then FlagTokens(cli, v.items, escape)
    else if ToS(v) == "" then []
    else [Flag(cli, escape(ToS(v)))]
  }

  /** The tokens `get_platform_args` emits, entry by entry in map order. */
  function PlatformTokens(p: Bag, m: ArgsMap, escape: string -> string): (r: seq<string>)
    ensures forall k :: 0 <= k < |r| ==> exists j :: 0 <= j < |m| && IsFlagFor(r[k], m[j].1)
    decreases |m|
  {
    if m == [] then []
    else
      var head := EntryTokens(m[0].0, m[0].1, Get(p, m[0].0), escape);
      var tail := PlatformTokens(p, m[1..], escape);
      assert forall k :: 0 <= k < |head| ==> IsFlagFor(head[k], m[0].1) by {
        forall k | 0 <= k < |head| ensures IsFlagFor(head[k], m[0].1) {
          var v := Get(p, m[0].0);
          if m[0].0 == BuildFlagKey && v.List? {
            FlagIsFlagFor(m[0].1, escape(v.items[k]));
          } else {
            FlagIsFlagFor(m[0].1, escape(ToS(v)));
          }
        }
      }
      assert forall k :: 0 <= k < |tail| ==> exists j :: 0 <= j < |m| && IsFlagFor(tail[k], m[j].1) by {
        forall k | 0 <= k < |tail| ensures exists j :: 0 <= j < |m| && IsFlagFor(tail[k], m[j].1) {
          var j :| 0 <= j < |m[1..]| && IsFlagFor(tail[k], m[1..][j].1);
          assert m[1..][j] == m[j + 1];
        }
      }
      head + tail
  }

  /** `get_platform_args`: the tokens joined by single spaces. */
  function PlatformArgs(p: Bag, m: ArgsMap, escape: string -> string): string {
    Join(PlatformTokens(p, m, escape))
  }

  /** Tokens come out in map order: the tokens of a concatenated map are the
      tokens of its first part followed by those of its second. */
  lemma {:induction false} PlatformTokensAppend(p: Bag, m1: ArgsMap, m2: ArgsMap, escape: string -> string)
    ensures PlatformTokens(p, m1 + m2, escape) == PlatformTokens(p, m1, escape) + PlatformTokens(p, m2, escape)
    decreases |m1|
  {
    if m1 == [] {
      assert m1 + m2 == m2;
    } else {
      var head := EntryTokens(m1[0].0, m1[0].1, Get(p, m1[0].0), escape);
      assert (m1 + m2)[0] == m1[0];
      assert (m1 + m2)[1..] == m1[1..] + m2;
      assert PlatformTokens(p, m1 + m2, escape) == head + PlatformTokens(p, m1[1..] + m2, escape);
      PlatformTokensAppend(p, m1[1..], m2, escape);
      AppendAssoc(head, PlatformTokens(p, m1[1..], escape), PlatformTokens(p, m2, escape));
    }
  }

  /** Options that are not keys of the map never influence the output. */
  lemma {:induction false} PlatformTokensFrame(p1: Bag, p2: Bag, m: ArgsMap, escape: string -> string)
    requires forall j :: 0 <= j < |m| ==> Get(p1, m[j].0) == Get(p2, m[j].0)
    ensures PlatformTokens(p1, m, escape) == PlatformTokens(p2, m, escape)
    decreases |m|
  {
    if m != [] {
      assert Get(p1, m[0].0) == Get(p2, m[0].0);
      assert forall j :: 0 <= j < |m[1..]| ==> m[1..][j] == m[j + 1];
      PlatformTokensFrame(p1, p2, m[1..], escape);
    }
  }

  /** `get_platform_args` written as the source writes it: a loop over the map
      entries collecting tokens, then `join(' ')`. */
  method CollectPlatformArgs(p: Bag, m: ArgsMap, escape: string -> string) returns (line: string)
    ensures line == PlatformArgs(p, m, escape)
  {
    var tokens: seq<string> := [];
    var i := 0;
    while i < |m|
      invariant 0 <= i <= |m|
      invariant tokens == PlatformTokens(p, m[..i], escape)
    {
      var entry := CollectEntry(m[i].0, m[i].1, Get(p, m[i].0), escape);
      PlatformTokensSnoc(p, m, i, escape);
      tokens := tokens + entry;
      i := i + 1;
    }
    assert m[..i] == m;
    line := Join(tokens);
  }

  /** One more entry of the map adds its tokens at the end. */
  lemma PlatformTokensSnoc(p: Bag, m: ArgsMap, i: nat, escape: string -> string)
    requires i < |m|
    ensures PlatformTokens(p, m[..i + 1], escape)
            == PlatformTokens(p, m[..i], escape) + EntryTokens(m[i].0, m[i].1, Get(p, m[i].0), escape)
  {
    assert m[..i + 1] == m[..i] + [m[i]];
    PlatformTokensAppend(p, m[..i], [m[i]], escape);
    assert [m[i]][1..] == [];
  }

  /** The body of the loop over the map: one entry's tokens. */
  method CollectEntry(key: string, cli: string, value: Value, escape: string -> string) returns (tokens: seq<string>)
    ensures tokens == EntryTokens(key, cli, value, escape)
  {
    tokens := [];
    if key == BuildFlagKey && value.List? {
      var j := 0;
      while j < |value.items|
        invariant 0 <= j <= |value.items|
        invariant tokens == FlagTokens(cli, value.items[..j], escape)
      {
        assert value.items[..j + 1] == value.items[..j] + [value.items[j]];
        FlagTokensSnoc(cli, value.items[..j], value.items[j], escape);
        tokens := tokens + [Flag(cli, escape(value.items[j]))];
        j := j + 1;
      }
      assert value.items[..j] == value.items;
    } else if ToS(value) != "" {
      tokens := [Flag(cli, escape(ToS(value)))];
    }
  }

  lemma {:induction false} FlagTokensSnoc(cli: string, flags: seq<string>, f: string, escape: string -> string)
    ensures FlagTokens(cli, flags + [f], escape) == FlagTokens(cli, flags, escape) + [Flag(cli, escape(f))]
  {
    var l := FlagTokens(cli, flags + [f], escape);
    var r := FlagTokens(cli, flags, escape) + [Flag(cli, escape(f))];
    assert |l| == |r|;
    forall i | 0 <= i < |l| ensures l[i] == r[i] {
      if i < |flags| {
        assert (flags + [f])[i] == flags[i];
      }
    }
  }

  // ---------------------------------------------------------------------
  // Android
  // ---------------------------------------------------------------------

  const KeyPassword: string := "key_password"
  const KeystorePassword: string := "keystore_password"

  /** `params[:key_password] = params[:keystore_password] if params[:key_password].empty?`;
      `empty?` on a value that has no such method raises NoMethodError. */
  function AndroidKeyFallback(p: Bag): (r: Result<Bag>)
    ensures r.Ok? <==> RespondsToEmpty(Get(p, KeyPassword))
    ensures r.Ok? && IsEmpty(Get(p, KeyPassword)) ==> Get(r.value, KeyPassword) == Get(p, KeystorePassword)
    ensures r.Ok? && !IsEmpty(Get(p, KeyPassword)) ==> r.value == p
    ensures r.Ok? ==> forall k :: k != KeyPassword ==> Get(r.value, k) == Get(p, k)
    ensures r.Err? ==> r.error == NoMethod("empty?")
  {
    var kp := Get(p, KeyPassword);
    if !RespondsToEmpty(kp) then Err(NoMethod("empty?"))
    else if IsEmpty(kp) then Ok(p[KeyPassword := Get(p, KeystorePassword)])
    else Ok(p)
  }

  /** The fallback is idempotent exactly when its outcome answers `empty?`
      again: it always is when `keystore_password` is a String (the option's
      declared type), and it raises on the second pass when an empty key
      password was replaced by a nil keystore password. */
  lemma AndroidKeyFallbackIdempotent(p: Bag)
    requires AndroidKeyFallback(p).Ok?
    ensures var q := AndroidKeyFallback(p).value;
            AndroidKeyFallback(q) == Ok(q) <==> RespondsToEmpty(Get(q, KeyPassword))
    ensures Get(p, KeystorePassword).Str? ==> AndroidKeyFallback(AndroidKeyFallback(p).value) == AndroidKeyFallback(p)
  {
    var q := AndroidKeyFallback(p).value;
    if RespondsToEmpty(Get(q, KeyPassword)) && IsEmpty(Get(q, KeyPassword)) {
      assert IsEmpty(Get(p, KeyPassword));
      assert q[KeyPassword := Get(q, KeystorePassword)] == q;
    }
  }

  /** `get_android_args`: the fallback, then the Android map. */
  function AndroidArgs(p: Bag, escape: string -> string): (r: Result<string>)
    ensures r.Ok? <==> RespondsToEmpty(Get(p, KeyPassword))
    ensures r.Ok? ==> r.value == PlatformArgs(AndroidKeyFallback(p).value, AndroidArgsMap, escape)
    ensures r.Err? ==> r == Err(NoMethod("empty?"))
  {
    match AndroidKeyFallback(p)
    case Err(e) => Err(e)
    case Ok(q) => Ok(PlatformArgs(q, AndroidArgsMap, escape))
  }

  // ---------------------------------------------------------------------
  // iOS
  // ---------------------------------------------------------------------

  const ProvisioningProfile: string := "provisioning_profile"
  const PackageType: string := "type"
  const SighUuid: string := "SIGH_UUID"

  /** `adhoc` becomes `ad-hoc`, `appstore` becomes `app-store`. */
  function AliasPackageType(t: Value): (r: Value)
    ensures t == Str("adhoc") ==> r == Str("ad-hoc")
    ensures t == Str("appstore") ==> r == Str("app-store")
    ensures t != Str("adhoc") && t != Str("appstore") ==> r == t
  {
    if t == Str("adhoc") then Str("ad-hoc")
    else if t == Str("appstore") then Str("app-store")
    else t
  }

  /** The six package types the `type` option accepts. */
  predicate IsPackageType(t: Value) {
    t in {Str("development"), Str("enterprise"), Str("adhoc"), Str("appstore"), Str("ad-hoc"), Str("app-store")}
  }

  /** Aliasing twice is aliasing once; an accepted type stays accepted, and no
      short spelling survives. */
  lemma AliasPackageTypeIdempotent(t: Value)
    ensures AliasPackageType(AliasPackageType(t)) == AliasPackageType(t)
    ensures IsPackageType(t) ==> IsPackageType(AliasPackageType(t))
    ensures AliasPackageType(t) != Str("adhoc") && AliasPackageType(t) != Str("appstore")
  {
  }

  /** The environment key of a profile installed by `sigh`:
      `sigh_<app_identifier>_<type without its first dash>`. */
  function SighProfileKey(appIdentifier: Option<string>, packageType: string): string {
    "sigh_" + ToS(FromOption(appIdentifier)) + "_" + RemoveFirstDash(packageType)
  }

  /** The lookup key does not depend on whether the type was given in its short
      or dashed spelling, so aliasing before or after the lookup is the same. */
  lemma SighProfileKeyIgnoresAlias(appIdentifier: Option<string>, t: string)
    ensures SighProfileKey(appIdentifier, AliasPackageType(Str(t)).s) == SighProfileKey(appIdentifier, t)
  {
    if t == "adhoc" {
      AdHocKey();
    } else if t == "appstore" {
      AppStoreKey();
    }
  }

  lemma AdHocKey()
    ensures RemoveFirstDash("ad-hoc") == RemoveFirstDash("adhoc")
  {
    AdHocSpelling();
    RemoveDashBetween("ad", "hoc");
    NoDash("ad" + "hoc");
  }

  lemma AdHocSpelling()
    ensures "ad" + "-" + "hoc" == "ad-hoc" && "ad" + "hoc" == "adhoc"
    ensures '-' !in "ad" && '-' !in "ad" + "hoc"
  {
  }

  lemma AppStoreKey()
    ensures RemoveFirstDash("app-store") == RemoveFirstDash("appstore")
  {
    AppStoreSpelling();
    RemoveDashBetween("app", "store");
    NoDash("app" + "store");
  }

  lemma AppStoreSpelling()
    ensures "app" + "-" + "store" == "app-store" && "app" + "store" == "appstore"
    ensures '-' !in "app" && '-' !in "app" + "store"
  {
  }

  lemma NoDash(s: string)
    requires '-' !in s
    ensures RemoveFirstDash(s) == s
  {
  }

  lemma RemoveDashBetween(a: string, b: string)
    requires '-' !in a
    ensures RemoveFirstDash(a + "-" + b) == a + b
  {
    var s := a + "-" + b;
    IndexOfFirst(a, '-', b);
    assert s[..|a|] + s[|a| + 1..] == a + b;
  }

  /** `ENV['SIGH_UUID'] || ENV["sigh_…"]`: the profile to use when none was given. */
  function ProfileFromEnv(p: Bag, env: map<string, string>, appIdentifier: Option<string>): (r: Result<Value>)
    ensures SighUuid in env ==> r == Ok(Str(env[SighUuid]))
    ensures SighUuid !in env && Get(p, PackageType).Str? ==>
              var key := SighProfileKey(appIdentifier, Get(p, PackageType).s);
              r == Ok(if key in env then Str(env[key]) else Nil)
    ensures SighUuid !in env && !Get(p, PackageType).Str? ==> r == Err(NoMethod("sub"))
  {
    if SighUuid in env then Ok(Str(env[SighUuid]))
    else match Get(p, PackageType)
      case Str(t) =>
        var key := SighProfileKey(appIdentifier, t);
        Ok(if key in env then Str(env[key]) else Nil)
      case _ => Err(NoMethod("sub"))
  }

  /** Fills `provisioning_profile` from the environment, only when it was empty. */
  function FillProvisioningProfile(p: Bag, env: map<string, string>, appIdentifier: Option<string>): (r: Result<Bag>)
    ensures !RespondsToEmpty(Get(p, ProvisioningProfile)) ==> r == Err(NoMethod("empty?"))
    ensures RespondsToEmpty(Get(p, ProvisioningProfile)) && !IsEmpty(Get(p, ProvisioningProfile)) ==> r == Ok(p)
    ensures r.Ok? ==> forall k :: k != ProvisioningProfile ==> Get(r.value, k) == Get(p, k)
    ensures r.Ok? && IsEmpty(Get(p, ProvisioningProfile)) ==>
              ProfileFromEnv(p, env, appIdentifier) == Ok(Get(r.value, ProvisioningProfile))
  {
    var pp := Get(p, ProvisioningProfile);
    if !RespondsToEmpty(pp) then Err(NoMethod("empty?"))
    else if !IsEmpty(pp) then Ok(p)
    else
      match ProfileFromEnv(p, env, appIdentifier)
      case Err(e) => Err(e)
      case Ok(profile) => Ok(p[ProvisioningProfile := profile])
  }

  /** `get_ios_args`: the profile fill, the type alias, then the iOS map. The
      Bag handed to the map differs from the caller's in those two options only. */
  function IosResolve(p: Bag, env: map<string, string>, appIdentifier: Option<string>): (r: Result<Bag>)
    ensures r.Ok? ==> Get(r.value, PackageType) == AliasPackageType(Get(p, PackageType))
    ensures r.Ok? ==> forall k :: k != ProvisioningProfile && k != PackageType ==> Get(r.value, k) == Get(p, k)
    ensures r.Ok? <==> FillProvisioningProfile(p, env, appIdentifier).Ok?
    ensures r.Ok? ==> Get(r.value, ProvisioningProfile) == Get(FillProvisioningProfile(p, env, appIdentifier).value, ProvisioningProfile)
    ensures r.Err? ==> r == Err(FillProvisioningProfile(p, env, appIdentifier).error)
  {
    match FillProvisioningProfile(p, env, appIdentifier)
    case Err(e) => Err(e)
    case Ok(q) => Ok(q[PackageType := AliasPackageType(Get(q, PackageType))])
  }

  function IosArgs(p: Bag, env: map<string, string>, appIdentifier: Option<string>, escape: string -> string): (r: Result<string>)
    ensures r.Ok? <==> IosResolve(p, env, appIdentifier).Ok?
    ensures r.Ok? ==> r.value == PlatformArgs(IosResolve(p, env, appIdentifier).value, IosArgsMap, escape)
  {
    match IosResolve(p, env, appIdentifier)
    case Err(e) => Err(e)
    case Ok(q) => Ok(PlatformArgs(q, IosArgsMap, escape))
  }

  // ---------------------------------------------------------------------
  // Global build arguments
  // ---------------------------------------------------------------------

  /** The boolean switches after the release/debug token, in emission order. */
  const Switches: seq<(string, string)> := [
    ("device", "--device"),
    ("prod", "--prod"),
    ("bundle", "--bundle"),
    ("browserify", "--browserify"),
    ("verbose", "--verbose")
  ]

  const BuildConfigFile: string := "cordova_build_config_file"

  function ModeToken(p: Bag): string {
    if Truthy(Get(p, "release")) then "--release" else "--debug"
  }

  function BuildConfigToken(p: Bag, escape: string -> string): string {
    "--buildConfig=" + escape(ToS(Get(p, BuildConfigFile)))
  }

  function When(c: bool, t: string): seq<string> {
    if c then [t] else []
  }

  /** `args << '--<switch>' if params[:<switch>]` for each switch in turn. */
  function SwitchTokens(p: Bag, sw: seq<(string, string)>): seq<string>
    decreases |sw|
  {
    if sw == [] then [] else When(Truthy(Get(p, sw[0].0)), sw[0].1) + SwitchTokens(p, sw[1..])
  }

  function SwitchNames(sw: seq<(string, string)>): (r: seq<string>)
    ensures |r| == |sw| && forall i :: 0 <= i < |sw| ==> r[i] == sw[i].1
    decreases |sw|
  {
    if sw == [] then [] else [sw[0].1] + SwitchNames(sw[1..])
  }

  /** A switch's token is emitted exactly when some entry naming it is set. */
  lemma {:induction false} SwitchTokensMember(p: Bag, sw: seq<(string, string)>, t: string)
    ensures t in SwitchTokens(p, sw) <==> exists i :: 0 <= i < |sw| && sw[i].1 == t && Truthy(Get(p, sw[i].0))
    decreases |sw|
  {
    if sw != [] {
      SwitchTokensMember(p, sw[1..], t);
      if exists i :: 0 <= i < |sw[1..]| && sw[1..][i].1 == t && Truthy(Get(p, sw[1..][i].0)) {
        var i :| 0 <= i < |sw[1..]| && sw[1..][i].1 == t && Truthy(Get(p, sw[1..][i].0));
        assert sw[i + 1] == sw[1..][i];
      }
      if exists i :: 0 <= i < |sw| && sw[i].1 == t && Truthy(Get(p, sw[i].0)) {
        var i :| 0 <= i < |sw| && sw[i].1 == t && Truthy(Get(p, sw[i].0));
        if i > 0 {
          assert sw[1..][i - 1] == sw[i];
        }
      }
    }
  }

  /** Every global argument that could be emitted, in the order it would be. */
  function AllGlobalArgs(p: Bag, escape: string -> string): seq<string> {
    [ModeToken(p)] + SwitchNames(Switches) + [BuildConfigToken(p, escape)]
  }

  /** `a` is `b` with some elements left out. */
  predicate IsSubsequence(a: seq<string>, b: seq<string>)
    decreases |b|
  {
    if a == [] then true
    else if b == [] then false
    else (a[0] == b[0] && IsSubsequence(a[1..], b[1..])) || IsSubsequence(a, b[1..])
  }

  lemma {:induction false} SubsequenceEmpty(b: seq<string>)
    ensures IsSubsequence([], b)
  {
  }

  lemma {:induction false} SubsequenceAppend(a: seq<string>, b: seq<string>, c: seq<string>, d: seq<string>)
    requires IsSubsequence(a, b) && IsSubsequence(c, d)
    ensures IsSubsequence(a + c, b + d)
    decreases |b|
  {
    if a == [] {
      assert a + c == c;
      SubsequenceSuffix(c, b, d);
    } else {
      assert (a + c)[0] == a[0] && (a + c)[1..] == a[1..] + c;
      assert (b + d)[0] == b[0] && (b + d)[1..] == b[1..] + d;
      if a[0] == b[0] && IsSubsequence(a[1..], b[1..]) {
        SubsequenceAppend(a[1..], b[1..], c, d);
      } else {
        SubsequenceAppend(a, b[1..], c, d);
      }
    }
  }

  lemma {:induction false} SubsequenceSuffix(c: seq<string>, b: seq<string>, d: seq<string>)
    requires IsSubsequence(c, d)
    ensures IsSubsequence(c, b + d)
    decreases |b|
  {
    if b == [] {
      assert b + d == d;
    } else if c != [] {
      assert (b + d)[1..] == b[1..] + d;
      SubsequenceSuffix(c, b[1..], d);
    }
  }

  lemma {:induction false} SwitchTokensOrdered(p: Bag, sw: seq<(string, string)>)
    ensures IsSubsequence(SwitchTokens(p, sw), SwitchNames(sw))
    decreases |sw|
  {
    if sw != [] {
      SwitchTokensOrdered(p, sw[1..]);
      var w := When(Truthy(Get(p, sw[0].0)), sw[0].1);
      if w == [] {
        SubsequenceEmpty([sw[0].1]);
      } else {
        assert IsSubsequence(w, [sw[0].1]) by {
          assert w[1..] == [] && [sw[0].1][1..] == [];
          SubsequenceEmpty([]);
        }
      }
      SubsequenceAppend(w, [sw[0].1], SwitchTokens(p, sw[1..]), SwitchNames(sw[1..]));
    }
  }

  /** The global arguments of `build`: release or debug first, then each switch
      that is set in the fixed order device, prod, bundle, browserify, verbose,
      and `--buildConfig=…` last when a config file is named. */
  function GlobalArgs(p: Bag, escape: string -> string): (r: seq<string>)
    ensures |r| >= 1 && r[0] == ModeToken(p)
    ensures r[0] == "--release" <==> Truthy(Get(p, "release"))
    ensures forall i :: 0 <= i < |Switches| ==> (Switches[i].1 in r <==> Truthy(Get(p, Switches[i].0)))
    ensures (BuildConfigToken(p, escape) in r) <==> ToS(Get(p, BuildConfigFile)) != ""
    ensures ToS(Get(p, BuildConfigFile)) != "" ==> r[|r| - 1] == BuildConfigToken(p, escape)
    ensures IsSubsequence(r, AllGlobalArgs(p, escape))
  {
    var cfg := BuildConfigToken(p, escape);
    var switches := SwitchTokens(p, Switches);
    var tail := When(ToS(Get(p, BuildConfigFile)) != "", cfg);
    var r := [ModeToken(p)] + switches + tail;
    GlobalArgsFacts(p, escape, switches, tail, r);
    r
  }

  lemma GlobalArgsFacts(p: Bag, escape: string -> string, switches: seq<string>, tail: seq<string>, r: seq<string>)
    requires switches == SwitchTokens(p, Switches)
    requires tail == When(ToS(Get(p, BuildConfigFile)) != "", BuildConfigToken(p, escape))
    requires r == [ModeToken(p)] + switches + tail
    ensures forall i :: 0 <= i < |Switches| ==> (Switches[i].1 in r <==> Truthy(Get(p, Switches[i].0)))
    ensures (BuildConfigToken(p, escape) in r) <==> ToS(Get(p, BuildConfigFile)) != ""
    ensures IsSubsequence(r, AllGlobalArgs(p, escape))
  {
    var cfg := BuildConfigToken(p, escape);
    forall i | 0 <= i < |Switches|
      ensures Switches[i].1 in r <==> Truthy(Get(p, Switches[i].0))
    {
      SwitchInArgs(p, escape, i, switches, tail, r);
    }
    ConfigInArgs(p, escape, switches, tail, r);
    GlobalArgsOrdered(p, escape, switches, tail, r);
  }

  /** The `--buildConfig=` token is on the command line exactly when a config file is named. */
  lemma ConfigInArgs(p: Bag, escape: string -> string, switches: seq<string>, tail: seq<string>, r: seq<string>)
    requires switches == SwitchTokens(p, Switches)
    requires tail == When(ToS(Get(p, BuildConfigFile)) != "", BuildConfigToken(p, escape))
    requires r == [ModeToken(p)] + switches + tail
    ensures (BuildConfigToken(p, escape) in r) <==> ToS(Get(p, BuildConfigFile)) != ""
  {
    var cfg := BuildConfigToken(p, escape);
    SwitchTokensMember(p, Switches, cfg);
    assert forall j :: 0 <= j < |Switches| ==> |Switches[j].1| <= 12;
    assert cfg != ModeToken(p);
    InThree(cfg, ModeToken(p), switches, tail);
  }

  /** Membership in a list made of a first element and two parts. */
  lemma InThree(x: string, a: string, b: seq<string>, c: seq<string>)
    ensures x in [a] + b + c <==> x == a || x in b || x in c
  {
  }

  /** A switch is on the command line exactly when its option is set. */
  lemma SwitchInArgs(p: Bag, escape: string -> string, i: nat, switches: seq<string>, tail: seq<string>, r: seq<string>)
    requires i < |Switches| && switches == SwitchTokens(p, Switches)
    requires tail == When(ToS(Get(p, BuildConfigFile)) != "", BuildConfigToken(p, escape))
    requires r == [ModeToken(p)] + switches + tail
    ensures Switches[i].1 in r <==> Truthy(Get(p, Switches[i].0))
  {
    SwitchMember(p, i, switches);
    SwitchIsNotMode(p, i);
    assert |BuildConfigToken(p, escape)| >= 14 && |Switches[i].1| <= 12;
    assert Switches[i].1 !in tail;
    InThree(Switches[i].1, ModeToken(p), switches, tail);
  }

  /** Switch names are `--` followed by the option name. */
  lemma SwitchesArePrefixed()
    ensures forall i :: 0 <= i < |Switches| ==> Switches[i].1 == "--" + Switches[i].0
  {
  }

  lemma SwitchMember(p: Bag, i: nat, switches: seq<string>)
    requires i < |Switches| && switches == SwitchTokens(p, Switches)
    ensures Switches[i].1 in switches <==> Truthy(Get(p, Switches[i].0))
  {
    SwitchTokensMember(p, Switches, Switches[i].1);
    SwitchesArePrefixed();
    forall j | 0 <= j < |Switches| && Switches[j].1 == Switches[i].1
      ensures Switches[j].0 == Switches[i].0
    {
      assert Switches[j].0 == Switches[j].1[2..];
      assert Switches[i].0 == Switches[i].1[2..];
    }
  }

  lemma SwitchIsNotMode(p: Bag, i: nat)
    requires i < |Switches|
    ensures Switches[i].1 != ModeToken(p)
  {
    SwitchesArePrefixed();
    assert Switches[i].0 != "release" && Switches[i].0 != "debug";
    assert ModeToken(p) == "--" + (if Truthy(Get(p, "release")) then "release" else "debug");
    assert ModeToken(p)[2..] != Switches[i].1[2..];
  }

  lemma GlobalArgsOrdered(p: Bag, escape: string -> string, switches: seq<string>, tail: seq<string>, r: seq<string>)
    requires switches == SwitchTokens(p, Switches)
    requires tail == When(ToS(Get(p, BuildConfigFile)) != "", BuildConfigToken(p, escape))
    requires r == [ModeToken(p)] + switches + tail
    ensures IsSubsequence(r, AllGlobalArgs(p, escape))
  {
    SwitchTokensOrdered(p, Switches);
    WhenSubsequence(ToS(Get(p, BuildConfigFile)) != "", BuildConfigToken(p, escape));
    FramedSubsequence(ModeToken(p), switches, SwitchNames(Switches), tail, BuildConfigToken(p, escape));
  }

  lemma {:induction false} WhenSubsequence(c: bool, t: string)
    ensures IsSubsequence(When(c, t), [t])
  {
    SubsequenceEmpty([]);
    SubsequenceEmpty([t]);
    assert [t][1..] == [];
  }

  /** A common first element, subsequences in the middle and at the end. */
  lemma {:induction false} FramedSubsequence(x: string, a: seq<string>, b: seq<string>, c: seq<string>, y: string)
    requires IsSubsequence(a, b) && IsSubsequence(c, [y])
    ensures IsSubsequence([x] + a + c, [x] + b + [y])
  {
    SubsequenceAppend(a, b, c, [y]);
    assert ([x] + a + c)[0] == x && ([x] + a + c)[1..] == a + c;
    assert ([x] + b + [y])[0] == x && ([x] + b + [y])[1..] == b + [y];
  }
}

# fastlane Cordova plugin, modelled in Dafny

This project models the four fastlane actions of the Cordova plugin:

- `cordova` builds a Cordova app. It adds the platform when its directory is missing and builds the command line from the options. It runs `cordova prepare` when `cordova_prepare` is set, and `cordova compile` for ios and android, and then exports the paths of the APK and the IPA.
- `update_version` chooses a new app version. In auto mode it takes the version from the npm package manifest; otherwise it asks the operator, and a blank answer keeps the current version. It then rewrites every `version="…"` attribute of `config.xml` whose value is made of digits and dots (`[0-9.]*`) with that version; an attribute holding anything else is left as it is.
- `update_version_and_build_number` settles the version, either by querying it (`skip_version`) or through `update_version`. It then has `increment_number` bump the build number, and sets `APP_BUILD_NUMBER` and `APP_BUILD_VERSION`.
- `version` runs the previous action, commits the bump with the message `fastlane(<platform>): build <n>, version: <v>`, and pushes.

Everything an action does to the outside world is a `Trace.Call`. A run is a `Trace.Run`: the calls it issued and its result, which is a value or the error that stopped it. A `Trace.World` answers for the outside world:

- which calls succeed, and what shell commands print;
- the line typed at the prompt;
- the files and directories that exist;
- the environment, the app identifier and the app name;
- `Shellwords.escape`;
- the build number `increment_number` returns.

A run stops at its first failing call (`Trace.Sound`). Option bags are maps from option name to a Ruby value: nil, a boolean, a String or an Array of Strings. A missing option reads as nil. The Ruby behaviours the actions rely on are modelled explicitly in `RubyValues`:

- truthiness and `to_s`;
- `delete!("\n")`, which answers nil when there is no newline;
- `strip`, `sub('-', '')` and `join(' ')`;
- `NoMethodError` on nil.

The config-file rewrite is `text.gsub(/version="[0-9.]*"/, …)`. It replaces every occurrence, including the one in the `<?xml version="1.0"?>` declaration. `UpdateVersion.XmlDeclarationRewritten` states the consequence.

When one action calls another, it calls `run` with a plain Hash. The inner action's verify blocks and defaults therefore do not apply. In particular, `version` passes no `auto_increment`, so npm is never asked and the version is prompted for unless `skip_version` is set (`Version.VersionNeverAsksNpm`).

## Model

| member | source | states |
|---|---|---|
| RubyValues.Get | lib/fastlane/plugin/cordova/actions/cordova_action.rb:34 | an option that was not given reads as nil; a given one reads as its value |
| RubyValues.GetAssign | lib/fastlane/plugin/cordova/actions/cordova_action.rb:56-58 | setting one option (as the key-password fallback does) changes what that option reads and nothing else |
| RubyValues.ToSEmptyIff | lib/fastlane/plugin/cordova/actions/cordova_action.rb:45 | `value.to_s.empty?` holds exactly for nil and the empty String, never for booleans or Arrays |
| RubyValues.Strip | lib/fastlane/plugin/cordova/actions/update_version.rb:21 | the stripped answer is a slice of the typed line with only whitespace around it, and neither of its ends is whitespace |
| RubyValues.StripEmptyIff | lib/fastlane/plugin/cordova/actions/update_version.rb:21-24 | the stripped answer is empty exactly when the typed line is all whitespace |
| RubyValues.RemoveNewlinesAppend | lib/fastlane/plugin/cordova/actions/update_version.rb:9 | deleting newlines distributes over concatenation |
| RubyValues.RemoveNewlines | lib/fastlane/plugin/cordova/actions/update_version.rb:9 | the result holds no newline, and every other character exactly as often as the input |
| RubyValues.DeleteNewlines | lib/fastlane/plugin/cordova/actions/update_version.rb:9 | `delete!("\n")` answers nil exactly when there was no newline; otherwise it answers the input with its newlines removed: shorter, and every other character kept as often as before |
| RubyValues.DeleteTrailingNewline | lib/fastlane/plugin/cordova/actions/update_version.rb:7-9 | the one-line output of a command gives back exactly its text |
| RubyValues.RemoveFirstDash | lib/fastlane/plugin/cordova/actions/cordova_action.rb:71 | `sub('-', '')` removes the first dash and only that; without a dash the String is unchanged |
| RubyValues.JoinAppend | lib/fastlane/plugin/cordova/actions/cordova_action.rb:52 | joining two non-empty token lists puts exactly one space between their joins |
| RubyValues.JoinLength | lib/fastlane/plugin/cordova/actions/cordova_action.rb:52 | the joined line is as long as its tokens plus one separator between each pair |
| Trace.Exec | lib/fastlane/plugin/cordova/actions/cordova_action.rb:157-159 | calls run in order; the run succeeds exactly when every call does; otherwise it stops at the first failure, after issuing a prefix of the calls |
| Trace.Then | lib/fastlane/plugin/cordova/actions/cordova_action.rb:157-159 | the second step runs only when the first finished normally; `Trace.ThenSound` shows the result stops at the first failing call |
| Trace.ThenSound | lib/fastlane/plugin/cordova/actions/cordova_action.rb:157-159 | sequencing two sound runs gives a sound run |
| Trace.PrependSound | lib/fastlane/plugin/cordova/actions/update_version_and_build_number.rb:24-35 | calls that all succeeded, followed by a sound run, give a sound run |
| Validation.FirstRejection | lib/fastlane/plugin/cordova/actions/cordova_action.rb:176-389 | no message exactly when every verify block accepts; otherwise the message of the first block, in declaration order, that rejects |
| Validation.FirstRejectionAt | lib/fastlane/plugin/cordova/actions/cordova_action.rb:176-389 | the block reported is the first rejecting one, whatever follows it |
| Validation.PathVerify | lib/fastlane/plugin/cordova/actions/update_version.rb:75-82 | the path check accepts exactly the paths of existing files or directories, with the config.xml message |
| Validation.Validated | lib/fastlane/plugin/cordova/actions/cordova_action.rb:183-188 | a rejection issues no call and raises a user error with that message; otherwise the action runs unchanged |
| CordovaArgs.FlagTokens | lib/fastlane/plugin/cordova/actions/cordova_action.rb:37-42 | one escaped `--buildFlag=` per Array element, in order |
| CordovaArgs.EntryTokens | lib/fastlane/plugin/cordova/actions/cordova_action.rb:33-50 | an Array `build_flag` spreads into one flag per element; any other value gives one escaped flag, or none exactly when it is nil or empty |
| CordovaArgs.PlatformTokens | lib/fastlane/plugin/cordova/actions/cordova_action.rb:31-53 | every emitted token is a flag of some CLI parameter of the map |
| CordovaArgs.PlatformTokensAppend | lib/fastlane/plugin/cordova/actions/cordova_action.rb:33 | tokens come out in map order: a concatenated map gives the concatenated tokens |
| CordovaArgs.PlatformTokensFrame | lib/fastlane/plugin/cordova/actions/cordova_action.rb:31-53 | options that are not keys of the map never change the platform arguments |
| CordovaArgs.CollectPlatformArgs | lib/fastlane/plugin/cordova/actions/cordova_action.rb:31-53 | the loop over the map that appends tokens and joins them computes the platform arguments |
| CordovaArgs.CollectEntry | lib/fastlane/plugin/cordova/actions/cordova_action.rb:34-49 | the loop body over one entry, including the per-flag inner loop, emits that entry's tokens |
| CordovaArgs.AndroidKeyFallback | lib/fastlane/plugin/cordova/actions/cordova_action.rb:56-58 | an empty key password is replaced by the keystore password and nothing else changes; a nil or boolean key password raises NoMethodError |
| CordovaArgs.AndroidKeyFallbackIdempotent | lib/fastlane/plugin/cordova/actions/cordova_action.rb:56-58 | applying the fallback again changes nothing exactly when its result still answers `empty?`; this always holds for a String keystore password |
| CordovaArgs.AndroidArgs | lib/fastlane/plugin/cordova/actions/cordova_action.rb:55-61 | the Android arguments are computed exactly when the key password answers `empty?`, and they are the Android map's arguments of the Bag after the key-password fallback; otherwise NoMethodError |
| CordovaArgs.AliasPackageType | lib/fastlane/plugin/cordova/actions/cordova_action.rb:74-75 | `adhoc` becomes `ad-hoc`, `appstore` becomes `app-store`, and every other type is kept |
| CordovaArgs.AliasPackageTypeIdempotent | lib/fastlane/plugin/cordova/actions/cordova_action.rb:74-75 | aliasing twice is aliasing once; accepted types stay accepted; no short spelling survives |
| CordovaArgs.SighProfileKeyIgnoresAlias | lib/fastlane/plugin/cordova/actions/cordova_action.rb:71-75 | the short and the dashed spelling of a type look up the same `sigh_` environment key |
| CordovaArgs.ProfileFromEnv | lib/fastlane/plugin/cordova/actions/cordova_action.rb:69-71 | `SIGH_UUID` wins; otherwise the `sigh_<app>_<type>` variable or nil; a non-String type raises NoMethodError |
| CordovaArgs.FillProvisioningProfile | lib/fastlane/plugin/cordova/actions/cordova_action.rb:67-72 | only an empty profile is filled from the environment; a set profile is kept; a nil profile raises; no other option changes |
| CordovaArgs.IosResolve | lib/fastlane/plugin/cordova/actions/cordova_action.rb:63-78 | the Bag given to the iOS map differs from the caller's only in profile and type; its profile is the one the fill chose and its type is the aliased one; the fill's error is passed on |
| CordovaArgs.IosArgs | lib/fastlane/plugin/cordova/actions/cordova_action.rb:63-78 | the iOS arguments are the iOS map's arguments of the resolved Bag, computed exactly when the resolution succeeds |
| CordovaArgs.SwitchTokensMember | lib/fastlane/plugin/cordova/actions/cordova_action.rb:101-105 | a switch token is emitted exactly when an option naming it is set |
| CordovaArgs.SwitchTokensOrdered | lib/fastlane/plugin/cordova/actions/cordova_action.rb:101-105 | switch tokens come out in declaration order, each at most once |
| CordovaArgs.GlobalArgs | lib/fastlane/plugin/cordova/actions/cordova_action.rb:100-112 | `--release` or `--debug` comes first; each switch is present exactly when its option is set; `--buildConfig=` is present, and last, exactly when a config file is named; the order is fixed |
| CordovaAction.CordovaValidation | lib/fastlane/plugin/cordova/actions/cordova_action.rb:176-389 | the options pass exactly when the platform is known, the type is one of six, and the five checked switches are booleans; with the blocks in declaration order, an unknown platform is reported first |
| CordovaAction.AddPlatformCommand | lib/fastlane/plugin/cordova/actions/cordova_action.rb:84-88 | the add command is `cordova platform add <platform> --no-telemetry`, followed by ` --nofetch` exactly when `cordova_no_fetch` is set, and nothing else |
| CordovaAction.AddPlatformCalls | lib/fastlane/plugin/cordova/actions/cordova_action.rb:81-90 | the platform is added exactly when it is set and its directory is missing |
| CordovaAction.AddPlatformOnce | lib/fastlane/plugin/cordova/actions/cordova_action.rb:81-90 | once the platform's directory exists, no add command is issued, so a platform is added at most once |
| CordovaAction.PrepareCompileAgree | lib/fastlane/plugin/cordova/actions/cordova_action.rb:119-133 | the prepare line and the compile line differ only in the subcommand word |
| CordovaAction.CompileCommand | lib/fastlane/plugin/cordova/actions/cordova_action.rb:125-133 | there is a compile line only for ios and android; iOS arguments follow one `--` and Android arguments follow two |
| CordovaAction.PlatformArgsFor | lib/fastlane/plugin/cordova/actions/cordova_action.rb:114-117 | platform arguments are computed for ios and android only, as `AndroidArgs` or `IosArgs` of that platform; they fail exactly when that platform's fallback raises |
| CordovaAction.PrepareCalls | lib/fastlane/plugin/cordova/actions/cordova_action.rb:119-123 | prepare runs exactly when `cordova_prepare` is set; `CordovaAction.BuildCommands` places it before the compile line |
| CordovaAction.CompileCalls | lib/fastlane/plugin/cordova/actions/cordova_action.rb:125-133 | compile runs exactly when the platform is ios or android |
| CordovaAction.BuildCommands | lib/fastlane/plugin/cordova/actions/cordova_action.rb:99-134 | exactly these commands and nothing else: prepare, present exactly when requested, and then first; a compile is present exactly for ios or android, last, and built from that platform's arguments; nothing runs when the arguments raise |
| CordovaAction.AndroidCompileUsesKeystorePassword | lib/fastlane/plugin/cordova/actions/cordova_action.rb:55-61 | with an empty key password, the Android compile line carries the arguments of the options with the keystore password in its place |
| CordovaAction.IosCompileUsesSighUuid | lib/fastlane/plugin/cordova/actions/cordova_action.rb:63-78 | with an empty profile and `SIGH_UUID` set, the iOS compile line carries the arguments of the options with that profile and the aliased type |
| CordovaAction.AndroidBuildPath | lib/fastlane/plugin/cordova/actions/cordova_action.rb:139-145 | the build type names both the APK directory and the APK file |
| CordovaAction.AndroidBuildPathsDiffer | lib/fastlane/plugin/cordova/actions/cordova_action.rb:139-145 | release and debug builds never share an APK path |
| CordovaAction.AndroidBuildPathNamesType | lib/fastlane/plugin/cordova/actions/cordova_action.rb:139-145 | the APK path's build directory is `release` exactly for a release build: `is_release` alone chooses it |
| CordovaAction.IpaAppName | lib/fastlane/plugin/cordova/actions/cordova_action.rb:147-148 | an app name read back from an IPA path rebuilds that path |
| CordovaAction.IosBuildPathRoundTrip | lib/fastlane/plugin/cordova/actions/cordova_action.rb:147-148 | the app name is read back from the exported IPA path |
| CordovaAction.ExportCalls | lib/fastlane/plugin/cordova/actions/cordova_action.rb:137-151 | both paths are exported, Android first, whatever the platform; `CordovaAction.CordovaRunSteps` places them after the build |
| CordovaAction.BuildAndExport | lib/fastlane/plugin/cordova/actions/cordova_action.rb:158-159 | nothing runs when the platform arguments raise; the exports follow only a successful build |
| CordovaAction.CordovaRun | lib/fastlane/plugin/cordova/actions/cordova_action.rb:153-160 | a rejected option issues no call; otherwise check_platform, build and set_build_paths run in that order |
| CordovaAction.CordovaRunSteps | lib/fastlane/plugin/cordova/actions/cordova_action.rb:153-160 | a valid run is one flat list of calls (add, build, exports), stopped at the first failure |
| CordovaAction.ExecAppend | lib/fastlane/plugin/cordova/actions/cordova_action.rb:157-159 | running two call lists one after the other is running their concatenation |
| CordovaAction.CordovaRunArgsError | lib/fastlane/plugin/cordova/actions/cordova_action.rb:114-117 | when the platform arguments raise, only the add command has been issued, and its error is the run's error |
| VersionRewrite.MatchLength | lib/fastlane/plugin/cordova/actions/update_version.rb:35 | an anchored match is always an occurrence of `version="[0-9.]*"` |
| VersionRewrite.MatchLengthComplete | lib/fastlane/plugin/cordova/actions/update_version.rb:35 | the anchored match finds every occurrence at its position (greedy, closing quote included) |
| VersionRewrite.RewriteOccurrence | lib/fastlane/plugin/cordova/actions/update_version.rb:35 | an occurrence is replaced whatever its old digits, and the scan resumes after its closing quote |
| VersionRewrite.RewriteRejected | lib/fastlane/plugin/cordova/actions/update_version.rb:35 | a `version="` whose value holds a character outside `[0-9.]` is left as it is |
| VersionRewrite.NoOpeningNoOccurrence | lib/fastlane/plugin/cordova/actions/update_version.rb:35 | text in which `version="` never appears holds no occurrence |
| VersionRewrite.RewriteNoOccurrence | lib/fastlane/plugin/cordova/actions/update_version.rb:35 | text holding no occurrence is copied through unchanged |
| VersionRewrite.NoOccurrenceBeforeV | lib/fastlane/plugin/cordova/actions/update_version.rb:35 | text holding no occurrence gains none when followed by the next `version="` |
| VersionRewrite.RewriteSkipsNoMatch | lib/fastlane/plugin/cordova/actions/update_version.rb:35 | a prefix in which no match starts is copied through, and the scan continues after it |
| VersionRewrite.RewriteSkipsPlain | lib/fastlane/plugin/cordova/actions/update_version.rb:35 | text with no `v` cannot start a match and is copied through |
| VersionRewrite.RewriteOverwrites | lib/fastlane/plugin/cordova/actions/update_version.rb:35 | rewriting with `w` after rewriting with a digits-and-dots `v` is rewriting with `w` directly |
| VersionRewrite.RewriteIdempotent | lib/fastlane/plugin/cordova/actions/update_version.rb:35 | running the update twice with the same digits-and-dots version writes the same file |
| VersionRewrite.RewriteFixpoint | lib/fastlane/plugin/cordova/actions/update_version.rb:35 | a file whose every occurrence already holds `v` is left unchanged |
| UpdateVersion.ChooseVersion | lib/fastlane/plugin/cordova/actions/update_version.rb:21-30 | a non-blank answer is taken stripped; a blank answer keeps the current version |
| UpdateVersion.ChooseTypedVersion | lib/fastlane/plugin/cordova/actions/update_version.rb:21-26 | a typed version is taken as typed, without the line end |
| UpdateVersion.AutoVersion | lib/fastlane/plugin/cordova/actions/update_version.rb:5-9 | auto mode issues only the npm query, never prompts, and takes its output without newlines |
| UpdateVersion.PromptedVersion | lib/fastlane/plugin/cordova/actions/update_version.rb:11-30 | interactive mode queries, then prompts, then chooses; a failed query stops before the prompt; end of input raises NoMethodError |
| UpdateVersion.ChooseStep | lib/fastlane/plugin/cordova/actions/update_version.rb:5-31 | the first call is the npm query in auto mode, and the config query otherwise; step 1 only runs commands and prompts |
| UpdateVersion.WriteBack | lib/fastlane/plugin/cordova/actions/update_version.rb:33-41 | the config file is read, rewritten with the version and written back, and the version is returned; a missing file stops after the read |
| UpdateVersion.AfterChoice | lib/fastlane/plugin/cordova/actions/update_version.rb:31-41 | a choice that raised is the whole run; a successful one is followed by the write-back, whose outcome is the run's; the added calls only read and write files |
| UpdateVersion.UpdateVersionRun | lib/fastlane/plugin/cordova/actions/update_version.rb:4-42 | the run is the choice's calls followed only by file accesses, and it starts with the mode's query |
| UpdateVersion.UpdateVersionPrompts | lib/fastlane/plugin/cordova/actions/update_version.rb:11-21 | outside auto mode, once the config query succeeds the operator is prompted next |
| UpdateVersion.UpdateVersionAction | lib/fastlane/plugin/cordova/actions/update_version.rb:70-84 | a config path that does not exist is reported before anything is asked or written |
| UpdateVersion.UpdateVersionOutcome | lib/fastlane/plugin/cordova/actions/update_version.rb:4-42 | a finished run's exact calls in each mode; the returned version is the one written into the file |
| UpdateVersion.WriteBackAfter | lib/fastlane/plugin/cordova/actions/update_version.rb:33-41 | a successful write-back means the choice succeeded and the file existed; exactly one read and one write follow |
| UpdateVersion.UpdateVersionCalls | lib/fastlane/plugin/cordova/actions/update_version.rb:4-42 | only commands, the prompt and the config file are touched; outside auto mode npm is never asked |
| UpdateVersion.SingleOccurrenceReplaced | lib/fastlane/plugin/cordova/actions/update_version.rb:35 | a file with exactly one occurrence holds the new version there and is unchanged elsewhere; the text around it may hold anything that is not an occurrence, such as `xmlns` and `id` attributes |
| UpdateVersion.TwoOccurrencesReplaced | lib/fastlane/plugin/cordova/actions/update_version.rb:35 | two occurrences are both replaced; the text between them and around them, which holds no occurrence, is kept |
| UpdateVersion.ManifestRoundTrip | lib/fastlane/plugin/cordova/actions/update_version.rb:35 | in a file whose only occurrence is `version="1.2.3"`, updating to 1.3.0 gives `version="1.3.0"` and leaves the rest of the file intact |
| UpdateVersion.XmlDeclarationRewritten | lib/fastlane/plugin/cordova/actions/update_version.rb:35 | in a config file that starts with `<?xml version="1.0"`, the declaration's version is rewritten along with the widget's |
| UpdateVersion.PromptedRoundTrip | lib/fastlane/plugin/cordova/actions/update_version.rb:11-41 | typing a version writes back the file with that version in its one occurrence, and returns it |
| VersionAndBuildNumber.CurrentVersion | lib/fastlane/plugin/cordova/actions/update_version_and_build_number.rb:17-23 | with `skip_version`, only the config file is queried, and the version is its output without newlines |
| VersionAndBuildNumber.VersionStep | lib/fastlane/plugin/cordova/actions/update_version_and_build_number.rb:17-30 | the version step makes only calls of the update_version kind |
| VersionAndBuildNumber.Finish | lib/fastlane/plugin/cordova/actions/update_version_and_build_number.rb:31-40 | the bump comes first; on success both variables are set and the pair is returned; a failed bump sets nothing |
| VersionAndBuildNumber.UvbnRun | lib/fastlane/plugin/cordova/actions/update_version_and_build_number.rb:14-41 | a failed version step stops the run; otherwise Finish follows it |
| VersionAndBuildNumber.UvbnValidation | lib/fastlane/plugin/cordova/actions/update_version_and_build_number.rb:70-97 | with the blocks in declaration order, an unknown platform is reported first, then a config path that does not exist |
| VersionAndBuildNumber.UvbnAction | lib/fastlane/plugin/cordova/actions/update_version_and_build_number.rb:70-97 | option failures issue no call; valid options run the action |
| VersionAndBuildNumberLemmas.IncrementsAppend | lib/fastlane/plugin/cordova/actions/update_version_and_build_number.rb:31-35 | counting bumps distributes over concatenation |
| VersionAndBuildNumberLemmas.UvbnIncrementsOnce | lib/fastlane/plugin/cordova/actions/update_version_and_build_number.rb:24-35 | the build number is bumped at most once; on success exactly once, right after the version step |
| VersionAndBuildNumberLemmas.ApplyEnvAppend | lib/fastlane/plugin/cordova/actions/update_version_and_build_number.rb:37-38 | environment effects compose along the trace |
| VersionAndBuildNumberLemmas.UvbnEnvironment | lib/fastlane/plugin/cordova/actions/update_version_and_build_number.rb:37-38 | on success `APP_BUILD_NUMBER` holds the version and `APP_BUILD_VERSION` the build number; no other variable changes |
| VersionAndBuildNumberLemmas.UvbnSkipVersion | lib/fastlane/plugin/cordova/actions/update_version_and_build_number.rb:17-23 | with `skip_version` the config file is queried once: no prompt, no npm, no file write |
| VersionAndBuildNumberLemmas.UvbnUpdatesVersion | lib/fastlane/plugin/cordova/actions/update_version_and_build_number.rb:24-30 | without `skip_version` the version returned is the one update_version wrote into the config file |
| VersionAndBuildNumberLemmas.UvbnAutoIncrement | lib/fastlane/plugin/cordova/actions/update_version_and_build_number.rb:24-30 | in auto mode the first call asks npm |
| VersionAndBuildNumberLemmas.UvbnPrompts | lib/fastlane/plugin/cordova/actions/update_version_and_build_number.rb:24-30 | without `skip_version` and `auto_increment`, once the config query succeeds the operator is prompted next |
| VersionAndBuildNumberLemmas.UvbnWithoutNpm | lib/fastlane/plugin/cordova/actions/update_version_and_build_number.rb:17-30 | without `auto_increment` npm is never asked, and the config file is queried first |
| Version.PlatformTag | lib/fastlane/plugin/cordova/actions/version.rb:15 | the message names `ios` exactly for the platform ios, and `android` for everything else |
| Version.ParseCommitMessage | lib/fastlane/plugin/cordova/actions/version.rb:12-19 | a parsed message is rebuilt from its fields |
| Version.CommitMessageRoundTrip | lib/fastlane/plugin/cordova/actions/version.rb:12-19 | platform tag, build number and version are read back from the commit message |
| Version.VersionRun | lib/fastlane/plugin/cordova/actions/version.rb:4-30 | the run stops at its first failing call |
| Version.VersionAction | lib/fastlane/plugin/cordova/actions/version.rb:46-78 | the checks are those of update_version_and_build_number, in declaration order: platform first, then the config path; a rejection issues no call |
| Version.VersionOrder | lib/fastlane/plugin/cordova/actions/version.rb:4-30 | on success: the inner action's calls, the commit with the message built from its result, the push, and the inner result returned unchanged |
| Version.VersionNeverAsksNpm | lib/fastlane/plugin/cordova/actions/version.rb:5-10 | npm is never asked for the version; the run starts by querying the config file; without `skip_version`, once that query succeeds the operator is prompted next |

## Left out

- Shell commands are not executed. Whether each call succeeds, and what a command prints, come from the `World` parameter.
- `sh` raising on a failing command is modelled as the run stopping with `CallFailed`. fastlane's own error message is not modelled.
- The `puts` progress lines are not modelled: they only write to the console.
- `Shellwords.escape` / `shellescape` is the `escape` parameter. Its quoting rules are not modelled.
- `get_app_name`, which parses `config.xml` with REXML, is the `appName` field of `World`. Its failures, a missing file or a missing `name` element, are not modelled.
- `CredentialsManager::AppfileConfig.try_fetch_value(:app_identifier)` is the `appIdentifier` field of `World`.
- `STDIN.gets` is the `stdinLine` field of `World`: a line with its end, or none at end of input.
- `IncrementNumberAction`, `BumpVersionAction` and `PushToGitRemoteAction` are opaque calls. `IncrementNumberAction` is a sibling action of this plugin (`increment_build_number.rb`, loaded at update_version_and_build_number.rb:4), and increment_build_number.rb is not part of this model. `BumpVersionAction` and `PushToGitRemoteAction` come from outside the modelled files. Their arguments are recorded, and the build number comes from `World`.
- UpdateVersion.WriteBack: `file.puts` appends a newline when the rewritten text does not already end in one. The model writes the rewritten text as it is.
- Other file I/O failures are not modelled: a read fails only for a path that is not a file, and a write fails only as `World` says.
- VersionRewrite.Rewrite: the replacement String is used literally. Ruby's `gsub` would interpret backslash sequences such as `\0` in a typed version.
- RubyValues.ToS: an Array interpolates with its elements in double quotes. `inspect`'s escaping of quotes and backslashes inside elements is not modelled.
- Option values are nil, booleans, Strings or Arrays of Strings. Integer-valued options (for example `min_sdk_version` given as a number) are not modelled.
- Validation.FirstRejection: the verify blocks are taken in the order the options are declared. fastlane checks the given values in the order the caller passed them, so when several options are wrong the message reported may be a different one. Which options pass, and that a rejection issues no call, do not depend on the order.
- The ConfigItem framework's type checks, `optional` flags, environment-variable fallbacks and default values are not modelled. For example: platform `''`, release `true`, type `appstore`, remote `origin`, tags `true`. Bags are taken as fastlane hands them to `run`. Nested `run` calls receive plain Hashes, so nothing is filled in for them.
- The `fresh` and `plugins` options are not modelled: they are declared but never read.
- The `cordova.rb` plugin loader and the documentation methods (`description`, `authors`, `is_supported?`, `output`, `return_value`) are not modelled: they compute nothing the actions use.
- `VersionAction` is modelled with the verify blocks of its `platform` and `pathToConfigXML` options. Its push options carry none.

# Neo Store download, root-install and intent core, in Dafny

This project models four parts of the Neo Store F-Droid client and proves properties about them:

- **Root installer** (`root_installer.dfy`, module `Installer`): the privileged installer of `RootInstaller.kt`.
  - Shell quoting of paths.
  - Reading the current user from `am get-current-user` or `dumpsys`.
  - Extracting the session id from `pm install-create`.
  - The `which toybox` / `which busybox` probe.
  - The direct and the staged (create, write, commit) install strategies, and uninstall.

  The root shell is an oracle. Given the commands issued so far and the next one, it answers success and output lines. The class `RootInstaller` keeps the trace of issued commands.
- **Download handler** (`download_handler.dfy`, module `DownloadHandler`):
  - `DownloadsTracker`, the duplicate-report filter over a map of active works.
  - `DownloadStateHandler`. For each download state it upserts the `Downloaded` row, puts an install task and clears the holder entry on `Success`, logs on `Error`, and queues one notification event.
  - The projection of a state onto notification content and onto notification-manager calls.

  The database tables, the state holder, the log and the notification manager are fields the methods append to.
- **Activity intent handling** (`neo_activity.dfy`, module `NeoActivity`):
  - The package name a deep link names.
  - `handleSpecialIntent`, and `handleIntent` for `VIEW`, `UPDATES` and `INSTALL`.
  - The `EXTRA_INTENT_HANDLED` flag that makes a repository link or an updates intent act once.
- **Sub-entities** (`sub_entities.dfy`, module `SubEntities`):
  - Anti-feature keys and `toAntiFeature`.
  - Screenshot identifiers.
  - The donation link, title and icon table.
  - The fixed attributes of each product `Request`.
  - The category-to-icon table `appCategoryIcon`.

Shared helpers are in `text.dfy` (module `Text`) and `wrappers.dfy` (module `Wrappers`). `Text` holds Kotlin's `trim`, `removePrefix`, `removeSuffix`, `lowercase` and `uppercase`, plus Java's `String.hashCode` modulo 2^32 as a signed 32-bit value. `Wrappers` holds `Option` and `Result`. `Text.NullIfEmpty` stands for the app's own `nullIfEmpty` extension (imported at src/main/kotlin/com/machiav3lli/fdroid/NeoActivity.kt:39), read by its name: its body is not part of this model.

Two behaviours of the staged install are worth stating plainly:
- The commit is issued after the write whatever the write returned, and the delete that follows depends on the write's result, not the commit's (see "## Findings"). The model keeps this as the code has it.
- A create whose first output line holds no session id stops after the create: no write, commit or delete follows. A create that prints no line at all, or whose session id does not fit an `Int`, makes the create's callback throw; the model keeps only that nothing follows the create (see "## Left out").

## Model

| member | source | states |
|---|---|---|
| Text.TrimStart | src/main/kotlin/com/looker/droidify/installer/RootInstaller.kt:20 | The result is a suffix of the input. Everything dropped is whitespace. The result does not start with whitespace. |
| Text.TrimEnd | src/main/kotlin/com/looker/droidify/installer/RootInstaller.kt:20 | The result is a prefix of the input. Everything dropped is whitespace. The result does not end with whitespace. |
| Text.TrimOfPadded | src/main/kotlin/com/looker/droidify/installer/RootInstaller.kt:20 | `trim` of a word padded on both sides with whitespace gives back exactly the word. |
| Text.NullIfEmpty | src/main/kotlin/com/machiav3lli/fdroid/NeoActivity.kt:200 | The result is non-null iff the input is a non-empty string, and then it is the input. |
| Text.HashCode | src/main/kotlin/com/machiav3lli/fdroid/work/DownloadHandler.kt:104 | `String.hashCode` lies in the signed 32-bit range. |
| Installer.Escape | src/main/kotlin/com/looker/droidify/installer/RootInstaller.kt:23-24 | Escaping never shortens a string. |
| Installer.EscapePlain | src/main/kotlin/com/looker/droidify/installer/RootInstaller.kt:23-24 | A string without special characters is left unchanged by escaping. |
| Installer.EscapeConcat | src/main/kotlin/com/looker/droidify/installer/RootInstaller.kt:24 | The escape of a concatenation is the concatenation of the escapes. |
| Installer.EscapeInPlace | src/main/kotlin/com/looker/droidify/installer/RootInstaller.kt:24 | Each character of the string is replaced in place by its escape: special characters get a backslash before them and nothing else changes. |
| Installer.Quote | src/main/kotlin/com/looker/droidify/installer/RootInstaller.kt:23-24 | A quoted string is at least two characters longer than the input and starts and ends with a double quote. |
| Installer.UserStateQuery | src/main/kotlin/com/looker/droidify/installer/RootInstaller.kt:17-20 | The query is `am get-current-user` iff the SDK level is at least 25, and the `dumpsys` user listing iff it is below. |
| Installer.ReadEscaped | src/main/kotlin/com/looker/droidify/installer/RootInstaller.kt:23-24 | Reading the escaped text followed by a closing quote yields the original string and leaves what follows. |
| Installer.ShellReadsQuote | src/main/kotlin/com/looker/droidify/installer/RootInstaller.kt:23-24 | A POSIX shell reads `quote(s)` as the single argument `s`, for every `s`. This includes strings with `$`, backtick, `"` and backslash. |
| Installer.QuoteInjective | src/main/kotlin/com/looker/droidify/installer/RootInstaller.kt:23-24 | Different strings quote to different texts. |
| Installer.CurrentUserState | src/main/kotlin/com/looker/droidify/installer/RootInstaller.kt:17-21 | There is a user state iff the query printed a line. On SDK 25 and later it is that first line unchanged. |
| Installer.UserLruLineParsed | src/main/kotlin/com/looker/droidify/installer/RootInstaller.kt:19-21 | Before SDK 25, a whitespace-padded `mUserLru: [<users>]` line yields exactly `<users>`. |
| Installer.StripUserLru | src/main/kotlin/com/looker/droidify/installer/RootInstaller.kt:21 | Removing the `mUserLru: [` prefix and the `]` suffix gives back the bracketed list. |
| Installer.FirstDigitFrom | src/main/kotlin/com/looker/droidify/installer/RootInstaller.kt:102-104 | The result is the first digit position at or after `i`. No digit lies between `i` and the result. |
| Installer.DigitRunEnd | src/main/kotlin/com/looker/droidify/installer/RootInstaller.kt:102-104 | The result ends the maximal digit run that starts at `i`. |
| Installer.DecimalDigits | src/main/kotlin/com/looker/droidify/installer/RootInstaller.kt:107 | The decimal rendering of a number is a non-empty string of digits. |
| Installer.DigitsValueOfDecimal | src/main/kotlin/com/looker/droidify/installer/RootInstaller.kt:107 | The value of a number's decimal digits is that number. |
| Installer.SessionIdOf | src/main/kotlin/com/looker/droidify/installer/RootInstaller.kt:102-107 | A line without digits has no session id. A session id is a non-negative `Int`; a larger value makes `toInt` fail, which `Installer.SessionIdOverflow` states for every such line. |
| Installer.SessionIdFound | src/main/kotlin/com/looker/droidify/installer/RootInstaller.kt:102-107 | A number written in canonical decimal (no leading zeros) after a digit-free prefix, and not followed by a digit, is the session id read from the line. |
| Installer.SessionIdOverflow | src/main/kotlin/com/looker/droidify/installer/RootInstaller.kt:102-107 | A first digit run after a digit-free prefix whose value exceeds `Int.MAX_VALUE` yields no session id. |
| Installer.CreatedLineSessionId | src/main/kotlin/com/looker/droidify/installer/RootInstaller.kt:102-107 | `Success: created install session [7]` yields session id 7. |
| Installer.GetUtilBoxPath | src/main/kotlin/com/looker/droidify/installer/RootInstaller.kt:26-36 | The loop over `toybox` and `busybox` returns the quoted output of the first probe whose joined output is non-empty, or `""`. It issues exactly the probes up to that one. |
| Installer.Probes | src/main/kotlin/com/looker/droidify/installer/RootInstaller.kt:28-29 | The first `n` probes are `which toybox`, then `which busybox`, in that order. |
| Installer.UtilBoxLookup | src/main/kotlin/com/looker/droidify/installer/RootInstaller.kt:26-36 | The probes are `which toybox`, then `which busybox` only if toybox did not resolve. The path is empty iff neither resolved. A resolved toybox gives its quoted joined output. |
| Installer.DeleteCommandsShape | src/main/kotlin/com/looker/droidify/installer/RootInstaller.kt:75-80 | A delete is one or two probes followed by exactly one delete command of the quoted absolute path. |
| Installer.DeleteCommands | src/main/kotlin/com/looker/droidify/installer/RootInstaller.kt:75-80 | Two or three commands: the toybox probe, the busybox probe only in the three-command case, and last a delete of the quoted absolute path. |
| Installer.DeleteCommandsAgree | src/main/kotlin/com/looker/droidify/installer/RootInstaller.kt:75-80 | The delete depends only on the shell's answers to the probes. |
| Installer.DirectInstallOrder | src/main/kotlin/com/looker/droidify/installer/RootInstaller.kt:117-119 | The direct strategy issues one install command first and no other. A delete follows iff the install succeeded. |
| Installer.DirectInstallCommands | src/main/kotlin/com/looker/droidify/installer/RootInstaller.kt:117-119 | The install command of the file for the user state comes first. More commands follow iff the install succeeded. |
| Installer.StagedStopsWithoutSessionId | src/main/kotlin/com/looker/droidify/installer/RootInstaller.kt:100-108 | Without a session id in the create's first output line, only the create is issued. |
| Installer.StagedInstallOrder | src/main/kotlin/com/looker/droidify/installer/RootInstaller.kt:100-113 | As the code is written, with a session id the commands are create, write, then commit. The commit is issued whatever the write answered. A delete follows iff the write succeeded. |
| Installer.StagedInstallCommands | src/main/kotlin/com/looker/droidify/installer/RootInstaller.kt:100-115 | As written, the create for the file's size and user state comes first. It is the only command iff the create printed no line or its first line holds no session id. |
| Installer.StagedInstallCommandsIntended | src/main/kotlin/com/looker/droidify/installer/RootInstaller.kt:109-113 | With the guard corrected, the same create comes first and is alone under the same condition. |
| Installer.InstallCommands | src/main/kotlin/com/looker/droidify/installer/RootInstaller.kt:97-121 | Nothing is issued iff there is no user state. Otherwise the first command is the session create when the root session installer is chosen, and the direct install when it is not. |
| Installer.CommitResultIgnored | src/main/kotlin/com/looker/droidify/installer/RootInstaller.kt:109-113 | As written, two shells that differ only in their answers to commits produce the same command sequence. |
| Installer.FailedCommitStillDeletes | src/main/kotlin/com/looker/droidify/installer/RootInstaller.kt:109-113 | As written, if the create prints session 7, the write succeeds and the commit fails, the cache file is still deleted. |
| Installer.IntendedDeletesOnlyAfterCommit | src/main/kotlin/com/looker/droidify/installer/RootInstaller.kt:109-113 | With the guard corrected, the order is still create, write, commit. A delete follows iff the commit succeeded. |
| Installer.RootInstaller.constructor | src/main/kotlin/com/looker/droidify/installer/RootInstaller.kt:16-21 | The user state is queried with the SDK-dependent command and parsed from its output, before any other command. |
| Installer.RootInstaller.Exec | src/main/kotlin/com/looker/droidify/installer/RootInstaller.kt:18 | One command goes to the shell and is appended to the trace. The answer is the oracle's answer after the commands already issued. |
| Installer.RootInstaller.DeleteFile | src/main/kotlin/com/looker/droidify/installer/RootInstaller.kt:75-80 | The trace grows by the probes and the delete command. |
| Installer.RootInstaller.RootInstall | src/main/kotlin/com/looker/droidify/installer/RootInstaller.kt:97-121 | The trace grows by the chosen strategy's commands, the staged one as written. Nothing is issued without a user state. |
| Installer.RootInstaller.StagedInstall | src/main/kotlin/com/looker/droidify/installer/RootInstaller.kt:100-115 | The staged branch issues exactly the as-written staged sequence: create, write and commit, and the delete on the write's success. |
| Installer.RootInstaller.DirectInstall | src/main/kotlin/com/looker/droidify/installer/RootInstaller.kt:117-119 | The direct branch issues exactly the direct sequence. |
| Installer.RootInstaller.Install | src/main/kotlin/com/looker/droidify/installer/RootInstaller.kt:83-86 | Installing a resolved cache file issues the root-install sequence. |
| Installer.RootInstaller.InstallPackageFile | src/main/kotlin/com/looker/droidify/installer/RootInstaller.kt:88-94 | The overloads with a package name issue the same sequence; the package name is unused. |
| Installer.RootInstaller.Uninstall | src/main/kotlin/com/looker/droidify/installer/RootInstaller.kt:124-128 | One uninstall command for the current user, or nothing without a user state. |
| DownloadHandler.DownloadsTracker.constructor | src/main/kotlin/com/machiav3lli/fdroid/work/DownloadHandler.kt:203-204 | The active-works map starts empty. |
| DownloadHandler.DownloadsTracker.TrackWork | src/main/kotlin/com/machiav3lli/fdroid/work/DownloadHandler.kt:206-220 | A report is new iff the id is unknown, the state changed, or it is running with a different progress. The map then records the report, or drops the id once the state is finished. No finished state is ever left recorded. |
| DownloadHandler.ReplayReport | src/main/kotlin/com/machiav3lli/fdroid/work/DownloadHandler.kt:206-220 | An identical unfinished report sent twice is not new the second time, and the map holds it once. |
| DownloadHandler.ReplayFinishedReport | src/main/kotlin/com/machiav3lli/fdroid/work/DownloadHandler.kt:206-220 | On a tracker whose recorded states are all unfinished (which the constructor establishes and `TrackWork` keeps), a finished report is new each time. Its id leaves the map, no other entry changes, and the invariant still holds. |
| DownloadHandler.TrackerScenario | src/main/kotlin/com/machiav3lli/fdroid/work/DownloadHandler.kt:206-220 | Reports enqueued, running at 10, running at 10, succeeded are new, new, not new, new. |
| DownloadHandler.FailureLogs | src/main/kotlin/com/machiav3lli/fdroid/work/DownloadHandler.kt:75-84 | Only an `Error` state logs, at most two entries. It logs the failure first, and a second entry iff the stop reason is not `STOP_REASON_NOT_STOPPED`; that entry records the stop reason and the package name. |
| DownloadHandler.DownloadStateHandler.constructor | src/main/kotlin/com/machiav3lli/fdroid/work/DownloadHandler.kt:31-36 | The handler starts with the holder's states and nothing sent, logged or notified. |
| DownloadHandler.DownloadStateHandler.UpdateState | src/main/kotlin/com/machiav3lli/fdroid/work/DownloadHandler.kt:96-98 | Only the holder's entry for the key changes. |
| DownloadHandler.DownloadStateHandler.HandleDownloadState | src/main/kotlin/com/machiav3lli/fdroid/work/DownloadHandler.kt:56-94 | One upsert copies the state's fields. `Success` alone adds the install task and clears the key. `Error` alone logs. One event with the same key and state is sent. Notifications are untouched. |
| DownloadHandler.DownloadStateHandler.CollectStates | src/main/kotlin/com/machiav3lli/fdroid/work/DownloadHandler.kt:38-46 | One snapshot adds exactly the snapshot's upserts, install tasks, cleared keys, logs and events, in order. |
| DownloadHandler.SnapshotStep | src/main/kotlin/com/machiav3lli/fdroid/work/DownloadHandler.kt:42-44 | One more state extends each derived sequence by what that state contributes. |
| DownloadHandler.OneUpsertPerState | src/main/kotlin/com/machiav3lli/fdroid/work/DownloadHandler.kt:42-66 | A snapshot persists each state exactly once, in order, with its own fields and time. |
| DownloadHandler.OneEventPerState | src/main/kotlin/com/machiav3lli/fdroid/work/DownloadHandler.kt:42-44 | A snapshot queues exactly one event per state, in order, with the state's key and state. |
| DownloadHandler.NoTaskWithoutSuccess | src/main/kotlin/com/machiav3lli/fdroid/work/DownloadHandler.kt:68-73 | A snapshot without a `Success` state raises no install task and clears no key. |
| DownloadHandler.SuccessKeysAreSuccesses | src/main/kotlin/com/machiav3lli/fdroid/work/DownloadHandler.kt:68-73 | A key is cleared iff one of its states in the snapshot is `Success`. |
| DownloadHandler.NotificationFor | src/main/kotlin/com/machiav3lli/fdroid/work/DownloadHandler.kt:112-189 | Per variant: the progress bar, the body text and the title (downloading title for Pending, Connecting, Downloading and Cancel; downloaded title for Success; the error's title and body for Error; the canceled body for Cancel; no text for Success). Only non-terminal states get the Cancel action, bound to the package name with its hash code as request code. Terminal states are set not ongoing and set no progress; the other states leave the ongoing flag alone. The notification times out iff the state is Cancel, Error, or Success without `KeepInstallNotification`. |
| DownloadHandler.NotificationOps | src/main/kotlin/com/machiav3lli/fdroid/work/DownloadHandler.kt:100-110 | There is at most one call, always under the key's hash code. `Success` and `Cancel` cancel it. A notification is posted iff the state is neither of those and the permission is granted, and its content is `NotificationFor` of the state. Without the permission, such a state yields no call at all. |
| DownloadHandler.NoPostWithoutPermission | src/main/kotlin/com/machiav3lli/fdroid/work/DownloadHandler.kt:100-110 | Without the permission a run of events only cancels notifications, at most once per event. |
| DownloadHandler.OneOpPerEventWithPermission | src/main/kotlin/com/machiav3lli/fdroid/work/DownloadHandler.kt:100-110 | With the permission every event yields exactly one call, under the hash code of its own key. |
| DownloadHandler.DownloadStateHandler.UpdateNotification | src/main/kotlin/com/machiav3lli/fdroid/work/DownloadHandler.kt:100-110 | The notification-manager trace grows by exactly that event's calls. Nothing else changes. |
| DownloadHandler.DownloadStateHandler.ConsumeEvents | src/main/kotlin/com/machiav3lli/fdroid/work/DownloadHandler.kt:48-53 | The channel is drained. Every queued event reaches `updateNotification` in the order it was sent. |
| NeoActivity.PackageNameOf | src/main/kotlin/com/machiav3lli/fdroid/NeoActivity.kt:195-222 | A package name is never empty, and there is none without data. `package:` and `fdroid.app:` give the scheme-specific part; `market://details` gives the `id` parameter, and a `market` uri with any other host gives none. `http(s)` gives the last path segment, but only for f-droid.org, its subdomains and apt.izzysoft.de. Every other scheme gives none. |
| NeoActivity.PackageNameExamples | src/main/kotlin/com/machiav3lli/fdroid/NeoActivity.kt:199-205 | Package, market and empty links, and an opaque market link that is not recognised. |
| NeoActivity.PackageNameWebExamples | src/main/kotlin/com/machiav3lli/fdroid/NeoActivity.kt:207-216 | A subdomain of f-droid.org is recognised; `f-droid.org.evil` is not. |
| NeoActivity.ActionsDistinct | src/main/kotlin/com/machiav3lli/fdroid/NeoActivity.kt:58-59 | `VIEW`, `ACTION_UPDATES` and `ACTION_INSTALL` are distinct for every application id. |
| NeoActivity.Intent.constructor | src/main/kotlin/com/machiav3lli/fdroid/NeoActivity.kt:254-260 | A fresh intent carries its action, data and cache-file extra, and is not yet handled. |
| NeoActivity.SpecialIntentEffects | src/main/kotlin/com/machiav3lli/fdroid/NeoActivity.kt:224-252 | Updates goes to main page 2. AddRepo sets the repository form and goes to prefs page 2. Install requests an install iff the package name is non-empty, the cache file name is present and an installer exists; otherwise it does nothing. |
| NeoActivity.UppercaseNonEmpty | src/main/kotlin/com/machiav3lli/fdroid/NeoActivity.kt:268-269 | Present iff the parameter is a non-empty string, and then it is that string upper-cased. |
| NeoActivity.RepoArgs | src/main/kotlin/com/machiav3lli/fdroid/NeoActivity.kt:262-273 | Any exception gives `(null, null)`, including a query on an opaque uri. Otherwise the first component is the rebuilt address. The fingerprint is the non-empty upper-cased `fingerprint` parameter; when that is absent or empty it is the upper-cased `FINGERPRINT` parameter; when both are absent or empty there is none. |
| NeoActivity.IntentEffects | src/main/kotlin/com/machiav3lli/fdroid/NeoActivity.kt:254-306 | `VIEW` with data on an unhandled intent sets the flag and opens the repository form; a form is opened only then. `UPDATES` navigates once, when unhandled. `INSTALL` never sets the flag and tries the install. `VIEW` on a handled intent, or without data, searches for the `q` parameter when the host is `search` and otherwise opens the product the link names, if any, without touching the flag. Other actions do nothing. |
| NeoActivity.HandledOnce | src/main/kotlin/com/machiav3lli/fdroid/NeoActivity.kt:260-261 | Handling the same intent again, with the flag the first handling left, opens no repository form, sets no flag and, for `UPDATES`, does nothing. |
| NeoActivity.Activity.constructor | src/main/kotlin/com/machiav3lli/fdroid/NeoActivity.kt:56 | The activity starts without effects. |
| NeoActivity.Activity.HandleSpecialIntent | src/main/kotlin/com/machiav3lli/fdroid/NeoActivity.kt:224-252 | The effect trace grows by exactly the special intent's effects. |
| NeoActivity.Activity.HandleIntent | src/main/kotlin/com/machiav3lli/fdroid/NeoActivity.kt:190-193 | A null intent does nothing. Otherwise the trace grows by the dispatch's effects and the intent's handled extra is set exactly when the dispatch asks for it. |
| NeoActivity.DeliverTwice | src/main/kotlin/com/machiav3lli/fdroid/NeoActivity.kt:259-279 | A repository link delivered twice opens the repository form once and leaves the intent marked handled. |
| SubEntities.FindByKey | src/main/kotlin/com/machiav3lli/fdroid/entity/SubEntities.kt:134 | No result iff no entry has the key. Otherwise the result is the first entry with exactly that key. |
| SubEntities.AntiFeature.Key | src/main/kotlin/com/machiav3lli/fdroid/entity/SubEntities.kt:119-132 | Every key is non-empty and starts with a capital letter. |
| SubEntities.ToAntiFeature | src/main/kotlin/com/machiav3lli/fdroid/entity/SubEntities.kt:134 | A result has exactly the given key. There is no result iff no anti-feature has that key. |
| SubEntities.AntiFeatureKeysDistinct | src/main/kotlin/com/machiav3lli/fdroid/entity/SubEntities.kt:119-132 | `values()` lists every anti-feature, and no two share a key. |
| SubEntities.ToAntiFeatureOfKey | src/main/kotlin/com/machiav3lli/fdroid/entity/SubEntities.kt:119-134 | Looking up an anti-feature's own key yields that anti-feature, for each of the twelve. |
| SubEntities.ToAntiFeatureUnknown | src/main/kotlin/com/machiav3lli/fdroid/entity/SubEntities.kt:134 | A string that is no anti-feature's key yields `null`. |
| SubEntities.ToAntiFeatureCaseSensitive | src/main/kotlin/com/machiav3lli/fdroid/entity/SubEntities.kt:134 | `ads` and `nsfw` yield `null`: the comparison is exact. |
| SubEntities.IndexOf | src/main/kotlin/com/machiav3lli/fdroid/entity/SubEntities.kt:109-110 | No result iff the character does not occur. Otherwise the result is its first position. |
| SubEntities.ScreenshotType.Name | src/main/kotlin/com/machiav3lli/fdroid/entity/SubEntities.kt:103-107 | The enum name is non-empty, contains no dot, and reads back as its own type. |
| SubEntities.ScreenshotType.JsonName | src/main/kotlin/com/machiav3lli/fdroid/entity/SubEntities.kt:103-107 | Every JSON name is non-empty and starts with a lower-case letter. |
| SubEntities.JsonNamesDistinct | src/main/kotlin/com/machiav3lli/fdroid/entity/SubEntities.kt:103-107 | Two types share a JSON name iff they are the same type. |
| SubEntities.Screenshot.Identifier | src/main/kotlin/com/machiav3lli/fdroid/entity/SubEntities.kt:109-110 | The identifier is the locale, a dot, the type's name, a dot and the path, in that order and with that length. |
| SubEntities.IndexOfFirstDot | src/main/kotlin/com/machiav3lli/fdroid/entity/SubEntities.kt:109-110 | In `a.b` with a dot-free `a`, the first dot is right after `a`. |
| SubEntities.ScreenshotTypeOfItsName | src/main/kotlin/com/machiav3lli/fdroid/entity/SubEntities.kt:103-107 | A type's enum name reads back as that type and contains no dot. |
| SubEntities.ParseIdentifierOfIdentifier | src/main/kotlin/com/machiav3lli/fdroid/entity/SubEntities.kt:109-110 | A screenshot whose locale has no dot is recovered from its identifier. |
| SubEntities.IdentifierCollision | src/main/kotlin/com/machiav3lli/fdroid/entity/SubEntities.kt:109-110 | A locale containing a dot lets two different screenshots share an identifier. |
| SubEntities.DonateLink | src/main/kotlin/com/machiav3lli/fdroid/entity/SubEntities.kt:181-188 | The link is the url itself, the `bitcoin:` or `litecoin:` scheme plus the address, or the Flattr, Liberapay or Open Collective prefix plus the id. |
| SubEntities.DonateTitle | src/main/kotlin/com/machiav3lli/fdroid/entity/SubEntities.kt:173-180 | The title is the website resource iff the donation is a website link. The others are `Bitcoin`, `Litecoin`, `Flattr`, `Liberapay` and `Open Collective`. |
| SubEntities.DonateIcon | src/main/kotlin/com/machiav3lli/fdroid/entity/SubEntities.kt:165-172 | The icon per kind: dollar sign, Bitcoin, and the Litecoin, Flattr, Liberapay and Open Collective icons. |
| SubEntities.DonateTitlesDistinct | src/main/kotlin/com/machiav3lli/fdroid/entity/SubEntities.kt:173-180 | Two donations share a title iff they are of the same kind. |
| SubEntities.DonateIconsDistinct | src/main/kotlin/com/machiav3lli/fdroid/entity/SubEntities.kt:165-172 | Two donations share an icon iff they are of the same kind. |
| SubEntities.DonateOfDonateLink | src/main/kotlin/com/machiav3lli/fdroid/entity/SubEntities.kt:173-188 | Every donation other than a website link is recovered from its link, and its title is literal text. |
| SubEntities.DonateLinkInjective | src/main/kotlin/com/machiav3lli/fdroid/entity/SubEntities.kt:181-188 | Two non-website donations with the same link are equal. |
| SubEntities.RegularLinkOverlaps | src/main/kotlin/com/machiav3lli/fdroid/entity/SubEntities.kt:182-183 | A website link can carry the same link as a Bitcoin donation. |
| SubEntities.Attributes | src/main/kotlin/com/machiav3lli/fdroid/entity/SubEntities.kt:191-346 | Installed iff the request is installed or updates. Updates iff it is updates. The update category is per request. Only updated and new read an item count. The id is 1 for all and search, 2 for installed, 3 for updates, 4 for updated and 5 for new. |
| SubEntities.RequestIds | src/main/kotlin/com/machiav3lli/fdroid/entity/SubEntities.kt:191-346 | Two requests share an id iff they are of the same kind, or one lists all products and the other searches. |
| SubEntities.FixedRequests | src/main/kotlin/com/machiav3lli/fdroid/entity/SubEntities.kt:274-346 | The updates request always uses name order, ascending. The new-apps request uses date-added order, descending. Both use the all-categories filter and no exclusions. |
| SubEntities.PreferenceRequests | src/main/kotlin/com/machiav3lli/fdroid/entity/SubEntities.kt:205-321 | All, search, installed and updated take their filters from their page's preferences; updated uses the latest page's. |
| SubEntities.AppCategoryIcon | src/main/kotlin/com/machiav3lli/fdroid/entity/SubEntities.kt:394-442 | The all-categories name, compared case-insensitively and checked first, gets the four circles. An unknown category gets the asterisk. |
| SubEntities.AppCategoryIconCaseInsensitive | src/main/kotlin/com/machiav3lli/fdroid/entity/SubEntities.kt:394-395 | Categories equal up to case get the same icon, including the upper-cased spelling. |
| SubEntities.GameCategories | src/main/kotlin/com/machiav3lli/fdroid/entity/SubEntities.kt:394-442 | `game`, `games` and `kidsgame` get the game controller in any case, unless one of them is the all-categories name. |
| SubEntities.GameEntries | src/main/kotlin/com/machiav3lli/fdroid/entity/SubEntities.kt:394-442 | The table maps the three game categories to the game controller. |
| SubEntities.AppCategoryIconExamples | src/main/kotlin/com/machiav3lli/fdroid/entity/SubEntities.kt:394-442 | `Games` and `KidsGame` get the game controller, and `ALL` matches the all-categories name `All`. |

## Left out

- Coroutines, `submit` callbacks and `withContext` are run sequentially. The two collectors of `DownloadStateHandler` are separate methods, the channel is a FIFO sequence, and the install-task put runs before the event is sent.
- The root shell (`Shell.su`), the Room DAOs, the work-state holder, `NotificationManagerCompat`, `Log` and the navigation controller are traces or oracles. Their own behaviour is not part of this model.
- DownloadHandler.DownloadStateHandler.UpdateNotification: cancels go through `MainApplication.wm.notificationManager` and posts through the handler's injected `notificationManager`; the model records both in the one `notifications` trace, so it does not tell the two managers apart.
- The shell command format strings (`ROOT_INSTALL_PACKAGE` and the others) are not shown in the sources. Commands are structured records with the same arguments in the same order.
- String resources, `formatSize`, `updateWithError` and the notification builder's base settings are symbolic values.
- `System.currentTimeMillis` becomes a parameter (a clock sequence for a snapshot).
- DownloadHandler.DownloadStateHandler.ConsumeEvents: one permission value and one `KeepInstallNotification` value serve the whole drain, whereas `updateNotification` re-reads the permission and the builder re-reads the preference for each event (src/main/kotlin/com/machiav3lli/fdroid/work/DownloadHandler.kt:105-109, 179). A change of either in the middle of a drain is not modelled.
- The notification permission, the `KeepInstallNotification` and `RootSessionInstaller` preferences, and the installer's availability are parameters.
- `BuildConfig.APPLICATION_ID` and `FILTER_CATEGORY_ALL` are parameters.
- `Android.sdk(25)` is read as "the SDK level is at least 25".
- Installer.RootInstaller.constructor: `getCurrentUserState` is a companion-object `val`, computed once per process when the class is first initialised and shared by every instance. The model queries it once per installer instance instead, so it does not capture that a second instance issues no query and sees the first one's value.
- Installer.StagedInstallCommands: when the create prints no line, `it.out[0]` throws an `IndexOutOfBoundsException` inside the create's `submit` callback (src/main/kotlin/com/looker/droidify/installer/RootInstaller.kt:103), and when the first digit run does not fit an `Int`, `toInt` throws a `NumberFormatException` there (src/main/kotlin/com/looker/droidify/installer/RootInstaller.kt:107). Both exceptions escape the callback. The model records only that no write, commit or delete follows; the exception itself, and where it is delivered, are not modelled.
- Installer.SessionIdOf: a digit run above `Int.MAX_VALUE` yields `None`, standing for the `NumberFormatException` of `toInt`; the exception itself is not modelled.
- Installer.CurrentUserState: with no output line, `out[0]` throws inside the companion's initialiser, so the class fails to initialise and every later use of it throws. The model turns this into a missing user state (`None`), after which install and uninstall issue nothing; the initialisation error itself is not modelled.
- `Cache.getReleaseFile` is not part of this model. The install methods receive the resolved file.
- Android's `Uri` parsing is not modelled. A uri is the record of parts the parser would yield.
- NeoActivity.RepoArgs: the rebuilt address (`buildUpon`, `pathCropped`, `toString`) is a parameter `buildAddress` that may throw, because `pathCropped` and `Uri.Builder` are not part of this model.
- `onCreate`, the Compose UI, `navigateProduct`'s destination, `resultLauncher` and the QR scanner are outside the intent core.
- `toJSON` and `fromJson` (kotlinx serialization) are omitted. So are `Author`, `ActionState`, `LinkType` for non-donation links, `DialogKey`, `Permission` and `PermissionsType`, which are outside the named core.
- The `titleResId` of anti-features is omitted.
- `Request.section` is a type parameter. Sort orders other than NAME and DATE_ADDED are kept by name only.
- Text.Lowercase and Text.Uppercase map ASCII letters only, because Unicode case mapping is not modelled.
- Text.HashCode treats every character as one UTF-16 unit and does not model surrogate pairs.
- `ToInstallTask` carries only the package name and cache file name of the install task.

## Findings

| source | as written | input that shows it | evidently intended | confidence | as-written member | corrected member |
|---|---|---|---|---|---|---|
| src/main/kotlin/com/looker/droidify/installer/RootInstaller.kt:109-113 | In the write's callback the commit is `exec`uted and its result dropped. The delete is guarded by `it.isSuccess`, and `it` is the WRITE's result. | The create prints `Success: created install session [7]`, the write succeeds and the commit fails (`CommitFailsShell`). The cache file is deleted although the package was not installed. | Delete the staged cache file only after the commit reports success. | medium, not executed | Installer.FailedCommitStillDeletes (with Installer.StagedInstallCommands) | Installer.IntendedDeletesOnlyAfterCommit (with Installer.StagedInstallCommandsIntended) |

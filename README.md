# PWA Marketplace core, modelled in Dafny

This project models the core of the PWA Marketplace desktop application and of its
modules, and proves properties of that model:

- **Resource controller** (`ResourceControl`): the per-app permission ledger and the named
  policy table, updated in place; permission checks, request handling, policy
  application and revocation.
- **Sandbox runtime** (`SandboxRuntime`): one sandboxed app with its loaded URL,
  recorded permissions, key/value storage, notifications and MCP client, each gated by
  the app's declared permissions or sandbox flags.
- **MCP bridge registry** (`McpBridge`): the connection counter, the "<name>-<n>"
  connection ids and the id-to-channel map.
- **Logger** (`Logging`): level filtering, the bounded in-memory buffer, the pending
  file list, recent/by-level queries, the level-name parse of the command, and
  numbered log-file rotation.
- **Desktop auto-updater** (`Versions`, `AssetNames`, `Updater`, `UpdateCheck`):
  version comparison, release-asset filename classification, GitHub release parsing,
  the first-newer endpoint scan, the platform lookup before installation and the size
  check after download.
- **Folder selector** (`FolderSelection`): path joining, the forbidden-prefix security
  check, placeholder resolution, the validation order of a selection and the
  multiple-selection loop.
- **GitHub OAuth** (`GitHubAuth`): the one-shot CSRF state and PKCE verifier slots,
  token expiry, and the local callback handler's request parsing, response choice and
  one-shot result sender.
- **Password vault** (`PasswordVault`): the name-to-password map with its
  add/get/update/delete rules and the byte layout of an encrypted blob.
- **Marketplace update throttle** (`UpdateThrottle`): the last-check timestamp state
  machine and the asset a download fetches.

Shared helpers live in `Wrappers` (Option, Result, Outcome), `Text` (ASCII case
folding, `split`, `split_once`, `split_whitespace`, decimal and u32 parsing) and `Json`
(the subset of `serde_json::Value` the core reads).

Everything the core gets from the outside world is a parameter of the model: the clock,
random values, HTTP responses, file-system answers (file exists, write probe, file
size), dialog picks, and the outcome of serialising, encrypting and writing the vault.

## Model

| member | source | states |
|---|---|---|
| ResourceControl.ResourceController.constructor | pwa-marketplace/modules/resource-controller/src/controller.rs:44-50 | the ledger and the policy table start empty |
| ResourceControl.ResourceController.RegisterPolicy | pwa-marketplace/modules/resource-controller/src/controller.rs:52-55 | the policy is stored under its own name, replacing an earlier one, and every other name is unchanged |
| ResourceControl.ResourceController.GrantPermissions | pwa-marketplace/modules/resource-controller/src/controller.rs:57-60 | the app's list is replaced, not merged: afterwards a check passes for exactly the granted permissions, and other apps' checks are unchanged |
| ResourceControl.ResourceController.CheckPermission | pwa-marketplace/modules/resource-controller/src/controller.rs:62-69 | false for an app without an entry; otherwise membership in its list; the same as membership in the list that `GetAppPermissions` returns |
| ResourceControl.ResourceController.HandleRequest | pwa-marketplace/modules/resource-controller/src/controller.rs:71-86 | succeeds exactly when the app holds the requested resource (the action is not consulted); a denial carries "Permission denied: <resource>" and no data, an approval echoes the request's data |
| ResourceControl.ResourceController.ApplyPolicy | pwa-marketplace/modules/resource-controller/src/controller.rs:88-96 | a known policy grants its permission list to the app; an unknown one fails with "Policy not found: <name>" and leaves the ledger as it was |
| ResourceControl.ResourceController.RevokePermissions | pwa-marketplace/modules/resource-controller/src/controller.rs:98-101 | the app's entry is removed, so it holds no permission; other apps are untouched |
| ResourceControl.ResourceController.GetAppPermissions | pwa-marketplace/modules/resource-controller/src/controller.rs:103-108 | the last granted list, or the empty list for an unknown app |
| SandboxRuntime.PWASandbox.constructor | modules/sandbox-runtime/src/runtime.rs:45-52 | a new sandbox has no URL, no permissions, empty storage and no notifications |
| SandboxRuntime.PWASandbox.LoadUrl | modules/sandbox-runtime/src/runtime.rs:59-63 | a parsed URL is stored; a parse error is returned and the stored URL stays as it was |
| SandboxRuntime.PWASandbox.RequestPermission | modules/sandbox-runtime/src/runtime.rs:65-81 | a permission the app did not declare is refused without the controller; otherwise the controller's answer is returned and recorded only when it grants |
| SandboxRuntime.PWASandbox.StoreData | modules/sandbox-runtime/src/runtime.rs:83-91 | with storage disabled it fails with "Storage permission denied" and changes nothing; otherwise the key reads back the value and every other key is unchanged |
| SandboxRuntime.PWASandbox.GetData | modules/sandbox-runtime/src/runtime.rs:93-100 | fails when storage is disabled, `None` for an absent key, the stored value otherwise |
| SandboxRuntime.PWASandbox.SendNotification | modules/sandbox-runtime/src/runtime.rs:102-110 | with notifications disabled it fails and records nothing; otherwise the message is appended last |
| SandboxRuntime.PWASandbox.McpCall | modules/sandbox-runtime/src/runtime.rs:112-119 | with the mcp flag off it fails with "MCP permission denied" and sends nothing; otherwise exactly this request is sent and the client's reply returned |
| SandboxRuntime.McpClient.Send | modules/sandbox-runtime/src/runtime.rs:112-119 | records the request and returns the reply given from outside |
| McpBridge.CounterSuffix | pwa-marketplace/src-tauri/src/mcp_bridge.rs:27 | the text after the last '-' of an id is the decimal counter value it was issued with |
| McpBridge.IdsDistinct | pwa-marketplace/src-tauri/src/mcp_bridge.rs:24-27 | ids issued with different counter values differ, whatever the names |
| McpBridge.MCPBridge.constructor | pwa-marketplace/src-tauri/src/mcp_bridge.rs:17-22 | no connections and a zero counter |
| McpBridge.MCPBridge.Register | pwa-marketplace/src-tauri/src/mcp_bridge.rs:24-41 | the counter goes up by one, the id is "<name>-<counter>" and was not registered before, and it is added with an empty channel while every other entry stays |
| McpBridge.MCPBridge.Send | pwa-marketplace/src-tauri/src/mcp_bridge.rs:43-49 | an unknown id fails with "Connection not found" and changes nothing; a known one gets the message appended to its channel |
| McpBridge.MCPBridge.Disconnect | pwa-marketplace/src-tauri/src/mcp_bridge.rs:51-53 | removes exactly that id; an unknown id changes nothing |
| McpBridge.SendAfterDisconnect | pwa-marketplace/src-tauri/src/mcp_bridge.rs:43-53 | after register, send and disconnect, a second send to the same id fails |
| Logging.ShouldLog | src-tauri/src/logger.rs:333-351 | a message passes exactly when its level is at least as severe as the configured one |
| Logging.Rank | src-tauri/src/logger.rs:333-351 | the rank of a level, from Error 0 to Trace 4, indexes the level-name table |
| Logging.ToStr | src-tauri/src/logger.rs:32-40 | the printed name of a level, lower-cased, is that level's parse name |
| Logging.ShouldLogAtInfo | src-tauri/src/logger.rs:540-554 | at Info, Error, Warn and Info pass and Debug and Trace do not |
| Logging.ShouldLogMonotone | src-tauri/src/logger.rs:333-351 | a level that passes lets every more severe level pass |
| Logging.ParseLevelName | src-tauri/src/logger.rs:469-483 | accepts exactly the five level names in any ASCII case and yields the level with that name; anything else is "Invalid log level" |
| Logging.ParseLevelNameOfToStr | src-tauri/src/logger.rs:32-40 | every printed level name parses back to its level |
| Logging.ParseLevelNameIgnoresCase | src-tauri/src/logger.rs:470-476 | lower-casing the input first changes nothing |
| Logging.PushBoundedShape | src-tauri/src/logger.rs:153-157 | a push keeps the buffer within capacity, keeps arrival order, puts the entry last and drops at most the oldest entry |
| Logging.PushBounded | src-tauri/src/logger.rs:153-157 | a push leaves the new entry last and grows the buffer by at most one |
| Logging.PushBoundedIsTail | src-tauri/src/logger.rs:153-157 | with a non-zero size, one push keeps exactly the last `buffer_size` arrivals |
| Logging.PushAllIsTail | src-tauri/src/logger.rs:139-157 | any run of pushes leaves exactly the last `buffer_size` entries ever pushed, oldest first |
| Logging.ReverseTakeReverse | src-tauri/src/logger.rs:353-363 | reversing, taking `limit` and reversing again is the last `limit` elements in order |
| Logging.RecentLogs | src-tauri/src/logger.rs:353-363 | the last `min(limit, len)` entries of the buffer, oldest first |
| Logging.LogsByLevelAsWritten | src-tauri/src/logger.rs:365-376 | as written, the by-level query returns the same entries as the recent-logs query |
| Logging.LogsByLevelAsWrittenIgnoresLevel | src-tauri/src/logger.rs:368 | an Error entry comes back from a query for Warn |
| Logging.LogsByLevel | src-tauri/src/logger.rs:365-376 | the intended query: the last `limit` entries of the requested level, oldest first, all of that level |
| Logging.LogsByLevelCommand | src-tauri/src/logger.rs:469-483 | a bad level name fails before the logger is looked up; a missing logger gives "Logger not initialized"; otherwise the query as written, so the last `limit` entries of every level |
| Logging.LogsByLevelCommandIgnoresLevel | src-tauri/src/logger.rs:469-483 | the command asked for "warn" answers with an Error entry |
| Logging.NeedsRotation | src-tauri/src/logger.rs:204-208 | rotation is due exactly when the live file's size is known and above the limit |
| Logging.Logger.constructor | src-tauri/src/logger.rs:107-125 | empty buffer and no pending entries |
| Logging.Logger.Receive | src-tauri/src/logger.rs:139-157 | the entry joins the pending file list when file logging is on, and the buffer becomes the bounded push of it |
| Logging.Logger.Log | src-tauri/src/logger.rs:265-284 | a filtered-out level changes nothing; a passing one is pushed into the buffer without metadata and, when file logging is on, appended to the pending list |
| Logging.Logger.LogWithMetadata | src-tauri/src/logger.rs:286-311 | as `Log`, with the metadata attached to the entry that is buffered and queued for the file |
| Logging.Logger.FlushPending | src-tauri/src/logger.rs:164-170 | a flush hands over every pending entry and empties the list |
| Logging.Logger.GetRecentLogs | src-tauri/src/logger.rs:353-363 | the last `limit` buffered entries in order |
| Logging.Logger.ClearBuffer | src-tauri/src/logger.rs:378-381 | the buffer is empty afterwards |
| Logging.LogLevelsScenario | src-tauri/src/logger.rs:519-538 | at level Warn, logging debug, warn and error leaves exactly the warn and error entries, in that order |
| Logging.RotateLogFiles | src-tauri/src/logger.rs:225-263 | the renaming loop and the final move produce exactly the rotated directory, file by file |
| Logging.RotationShiftsEveryFile | src-tauri/src/logger.rs:225-263 | after rotation no live file remains, the live file is backup 1, each backup i below the limit is now i + 1, and files outside the numbered range stay put |
| Logging.RotationFreesFirstSlot | src-tauri/src/logger.rs:231-258 | with at least two slots and no live file, backup 1 is empty after rotation |
| Versions.NumericPartsAppend | src-tauri/src/auto_updater.rs:329-337 | dropping the components that do not parse works piece by piece over a concatenation |
| Versions.NumericParts | src-tauri/src/auto_updater.rs:329-337 | the components kept are at most as many as the pieces and each fits in a u32 |
| Versions.IsNewerVersion | src-tauri/src/auto_updater.rs:327-352 | newer exactly when the candidate beats the current version in the lexicographic order of the first three components, missing ones as 0 |
| Versions.IsNewerVersionOrder | src-tauri/src/auto_updater.rs:327-352 | the comparison loop decides the lexicographic order of the first three numeric components, missing ones as 0 |
| Versions.IsNewerIrreflexive | src-tauri/src/auto_updater.rs:327-352 | no version is newer than itself |
| Versions.IsNewerAsymmetric | src-tauri/src/auto_updater.rs:327-352 | two versions are never each newer than the other |
| Versions.IsNewerTransitive | src-tauri/src/auto_updater.rs:327-352 | newer-than is transitive |
| Versions.ComponentsAfterThirdIgnored | src-tauri/src/auto_updater.rs:339-349 | components after the third do not change a comparison |
| Versions.VersionPartsOfThree | src-tauri/src/auto_updater.rs:329-337 | "x.y.z" with three u32 components parses to those three numbers |
| Versions.VersionComparisonExamples | src-tauri/src/auto_updater.rs:733-747 | from 1.0.0: 1.0.1, 1.1.0 and 2.0.0 are newer, 1.0.0 and 0.9.9 are not |
| AssetNames.ArchOf | src-tauri/src/auto_updater.rs:313-321 | the fixed precedence: aarch64 exactly when no 64-bit x86 marker and an arm marker occur; i686 exactly when neither of those but a 32-bit x86 marker occurs; x86_64 otherwise, including the no-marker default; so "x86_64" never reads as 32-bit |
| AssetNames.ParsePlatformFromFilename | src-tauri/src/auto_updater.rs:300-324 | the platform is empty exactly when the arch is, and is one of windows, darwin, linux otherwise |
| AssetNames.ParsePlatformPrecedence | src-tauri/src/auto_updater.rs:300-324 | windows markers win over darwin markers, which win over linux markers; a classified name's arch is the arch classification of the lower-cased name |
| AssetNames.ParsePlatformIgnoresCase | src-tauri/src/auto_updater.rs:301 | classifying the lower-cased name gives the same result |
| AssetNames.ClassifiedAs | src-tauri/src/auto_updater.rs:300-324 | a name with a given set of markers is classified accordingly |
| AssetNames.WindowsFilenameExample | src-tauri/src/auto_updater.rs:759-762 | "app-1.0.0-windows-x64.exe" is windows/x86_64 |
| AssetNames.MacFilenameExample | src-tauri/src/auto_updater.rs:764-767 | "app-1.0.0-macos-arm64.dmg" is darwin/aarch64 |
| AssetNames.LinuxFilenameExample | src-tauri/src/auto_updater.rs:769-772 | "app-1.0.0-linux-x86_64.AppImage" is linux/x86_64 |
| Updater.TrimLeadingV | src-tauri/src/auto_updater.rs:244-248 | every leading 'v' is removed and nothing else |
| Updater.AssetEntry | src-tauri/src/auto_updater.rs:269-288 | a kept asset names one of the three platforms, has a download URL and an empty signature |
| Updater.SomesAppend | src-tauri/src/auto_updater.rs:269-288 | keeping the present entries commutes with concatenation, so input order is kept |
| Updater.SomesFrom | src-tauri/src/auto_updater.rs:269-288 | every kept value was present in the input |
| Updater.KeptPlatformsWellFormed | src-tauri/src/auto_updater.rs:269-288 | no more entries than assets, and every kept entry is well formed |
| Updater.ReleaseInfo | src-tauri/src/auto_updater.rs:243-297 | a missing tag name is "Missing tag_name", missing assets "No assets found"; a parsed release carries the tag without leading 'v's and exactly the kept platform entries |
| Updater.CollectPlatforms | src-tauri/src/auto_updater.rs:269-288 | the asset loop pushes exactly the kept entries, in input order |
| Updater.ParseGithubRelease | src-tauri/src/auto_updater.rs:243-297 | returns exactly `ReleaseInfo` of the record |
| Updater.FirstTrueIs | src-tauri/src/auto_updater.rs:172-191 | the first set flag is found where it is |
| Updater.FirstOfferMeaning | src-tauri/src/auto_updater.rs:172-191 | the chosen endpoint parsed and offers a newer version, and every earlier one failed or offered nothing newer |
| UpdateCheck.SelectUpdate | src-tauri/src/auto_updater.rs:172-191 | the loop returns the first newer release (or none), having requested exactly the endpoints up to it |
| Updater.FindPlatformUpdate | src-tauri/src/auto_updater.rs:360-365 | found exactly when some entry matches both platform and arch; the error names "<platform>-<arch>" |
| Updater.FindHostUpdateAsWritten | src-tauri/src/auto_updater.rs:360-365 | the lookup as written: a found entry carries the host's own OS and arch names, and a miss names "<os>-<arch>" |
| Updater.FindPlatformUpdateFirst | src-tauri/src/auto_updater.rs:360-362 | the earliest matching entry is returned |
| Updater.MacHostMissesDarwinBuild | src-tauri/src/auto_updater.rs:360-365 | as written, a macOS host finds no update in a release with a darwin build |
| Updater.ReleasePlatformTag | src-tauri/src/auto_updater.rs:632-635 | maps a host OS name of the standard library onto the classifier's platform names: "macos" becomes "darwin" and every other name passes through unchanged |
| Updater.ReleaseArchTag | src-tauri/src/auto_updater.rs:637-640 | maps a host arch name of the standard library onto the classifier's arch names: "x86" becomes "i686" and every other name passes through unchanged |
| Updater.X86HostMissesI686Build | src-tauri/src/auto_updater.rs:360-365 | as written, a 32-bit x86 host finds no update in a release with an i686 build |
| Updater.FindHostUpdate | src-tauri/src/auto_updater.rs:633-640 | the corrected lookup translates host names into the classifier's names first |
| Updater.HostFindsClassifiedBuild | src-tauri/src/auto_updater.rs:360-365 | with the translation, a host whose build is in the release finds it |
| Updater.MacHostFindsDarwinBuild | src-tauri/src/auto_updater.rs:360-365 | with the translation, a macOS host finds its darwin build |
| Updater.VerifyDownload | src-tauri/src/auto_updater.rs:443-451 | a read error is passed on; otherwise it passes exactly when the size matches, and a mismatch fails with a Validation error |
| FolderSelection.Join | src-tauri/src/folder_selector.rs:303-318 | joining an absolute path gives that path; otherwise the result starts with the base and ends with the path; an absolute base gives an absolute result |
| FolderSelection.StartsWithAny | src-tauri/src/folder_selector.rs:209-215 | true exactly when some listed prefix starts the path |
| FolderSelection.CheckSecurityRestrictions | src-tauri/src/folder_selector.rs:199-230 | rejects exactly the paths whose lower-cased text starts with a forbidden directory, with a permission-denied error; sensitive names only log |
| FolderSelection.ForbiddenPrefixRejected | src-tauri/src/folder_selector.rs:203-215 | every forbidden prefix, in any case, is rejected |
| FolderSelection.RejectionSurvivesExtension | src-tauri/src/folder_selector.rs:209-215 | appending text to a rejected path keeps it rejected |
| FolderSelection.SystemPathsRejected | src-tauri/src/folder_selector.rs:499-510 | "/system" is rejected, and so is "/sysfoo" |
| FolderSelection.HomeSubdirectoryAccepted | src-tauri/src/folder_selector.rs:199-230 | any path under "/home/" passes |
| FolderSelection.ResolvePath | src-tauri/src/folder_selector.rs:295-319 | resolution never fails; an absolute path is unchanged; "~/x" with a known home is joined under it; otherwise "$DOCUMENTS/x" and then "$DOWNLOADS/x" are joined under those folders with the prefix dropped; any other relative path is joined under the documents folder |
| FolderSelection.ResolvedIsAbsolute | src-tauri/src/folder_selector.rs:295-319 | with absolute base folders every resolved path is absolute |
| FolderSelection.ResolveIdempotent | src-tauri/src/folder_selector.rs:295-319 | resolving a resolved path changes nothing |
| FolderSelection.PlaceholdersResolve | src-tauri/src/folder_selector.rs:309-315 | "$DOCUMENTS/x" and "$DOWNLOADS/x" land under those folders |
| FolderSelection.TildeWithoutHome | src-tauri/src/folder_selector.rs:303-318 | without a home directory "~/x" falls through to the documents folder |
| FolderSelection.ValidateFolderSelection | src-tauri/src/folder_selector.rs:155-170 | a missing folder fails first unless it will be created, then the write probe when permissions are checked, then the security check; it passes exactly when all three do |
| FolderSelection.SelectFolder | src-tauri/src/folder_selector.rs:61-87 | a cancelled dialog is NoSelection; a pick that fails validation returns that validation error; a validated pick that had to be created and could not returns the creation error; every other validated pick is returned, so a returned folder passed validation and the security check |
| FolderSelection.Gather | src-tauri/src/folder_selector.rs:126-152 | the gathered folders are picks from the first titles, in order |
| FolderSelection.SelectMultipleFolders | src-tauri/src/folder_selector.rs:126-152 | the loop returns exactly the picks before the first cancellation, or the first other error; no pick at all is NoSelection |
| FolderSelection.MultipleSelectionInOrder | src-tauri/src/folder_selector.rs:126-152 | a successful result lists the picks of its titles in order |
| FolderSelection.MultipleSelection | src-tauri/src/folder_selector.rs:126-152 | the first non-cancel error is returned; no pick at all is NoSelection; otherwise the non-empty list of picks |
| FolderSelection.CancelEndsSelection | src-tauri/src/folder_selector.rs:139-141 | titles after a cancellation are never consulted |
| FolderSelection.IsSafeAppFolder | src-tauri/src/folder_selector.rs:275-292 | safe exactly when absolute, not forbidden and writable |
| GitHubAuth.StateCheck | src-tauri/src/github_auth.rs:374-384 | passes exactly when a state is stored and equals the received one; otherwise InvalidState, so an empty slot rejects every received state |
| GitHubAuth.OAuthFlow.constructor | src-tauri/src/github_auth.rs:117-118 | no verifier and no state stored |
| GitHubAuth.OAuthFlow.StartAuthorization | src-tauri/src/github_auth.rs:123-150 | the state is stored, the verifier only with PKCE, and the authorization URL returned |
| GitHubAuth.OAuthFlow.ValidateStateToken | src-tauri/src/github_auth.rs:374-384 | the outcome is the state check on the stored state, and the slot is empty afterwards whatever the outcome |
| GitHubAuth.OAuthFlow.CompleteAuthorization | src-tauri/src/github_auth.rs:153-182 | a bad state fails before anything else; with PKCE a missing verifier fails with "PKCE verifier not found"; the verifier is taken; the token request is made exactly when both checks pass |
| GitHubAuth.ReplayedStateRejected | src-tauri/src/github_auth.rs:374-384 | a state accepted once is rejected the second time |
| GitHubAuth.IsTokenExpired | src-tauri/src/github_auth.rs:387-394 | a token without lifetime never expires; otherwise it is expired once more than its lifetime has passed since creation |
| GitHubAuth.ExpiryIsPermanent | src-tauri/src/github_auth.rs:387-394 | an expired token stays expired |
| GitHubAuth.TokenExpiryExamples | src-tauri/src/github_auth.rs:704-729 | a token without lifetime is not expired; a one-hour token created two hours ago is |
| GitHubAuth.FirstLine | src-tauri/src/github_auth.rs:444 | the first line is the request's text up to its first '\n' (all of it when there is none); a '\r' just before that '\n' is dropped, while a '\r' ending a text without '\n' stays; it holds no '\n' |
| GitHubAuth.FirstLineWithoutBreak | src-tauri/src/github_auth.rs:444 | a request without a '\n' is its own first line, a final '\r' included |
| GitHubAuth.ParsePair | src-tauri/src/github_auth.rs:455-459 | the key runs up to the first '=', the value is the rest, and a piece without '=' has an empty value |
| GitHubAuth.ParsePairOfPair | src-tauri/src/github_auth.rs:455-459 | "key=value" with no '=' in the key parses to that key and value |
| GitHubAuth.ParamsKeys | src-tauri/src/github_auth.rs:452-461 | a key is in the collected map exactly when some piece carries it |
| GitHubAuth.ParamsLastWins | src-tauri/src/github_auth.rs:452-461 | a key's value is the one from its last occurrence |
| GitHubAuth.CallbackQuery | src-tauri/src/github_auth.rs:444-451 | a query is found exactly when the request line has at least two words, the first is GET and the second contains '?'; the query is the text after the first '?' of the path |
| GitHubAuth.ChooseResponse | src-tauri/src/github_auth.rs:463-547 | code and state together authorise; otherwise an error parameter fails with its value and the description or "Authorization failed"; anything else is invalid |
| GitHubAuth.CodeAndStateAuthorize | src-tauri/src/github_auth.rs:463 | pieces carrying both code and state authorise |
| GitHubAuth.ErrorWithoutCodeFails | src-tauri/src/github_auth.rs:496-498 | without code, an error piece fails with its last value |
| GitHubAuth.StatusLine | src-tauri/src/github_auth.rs:495-547 | success answers 200 OK, a failed or invalid callback 400 Bad Request |
| GitHubAuth.CallbackResponseFor | src-tauri/src/github_auth.rs:444-551 | nothing is written unless a query was found; otherwise the response chosen from its parameters |
| GitHubAuth.ResultMessage | src-tauri/src/github_auth.rs:490-528 | only success and failure responses send a result to the waiting flow |
| GitHubAuth.ResultSender.TakeAndSend | src-tauri/src/github_auth.rs:490-493 | the sender is taken: it delivers exactly when it was still there, and is gone afterwards |
| GitHubAuth.HandleCallbackRequest | src-tauri/src/github_auth.rs:433-555 | the response is the one chosen for the request; a result is delivered only for responses that send one and only while the sender is there |
| GitHubAuth.TwoCallbacks | src-tauri/src/github_auth.rs:490-528 | of two callbacks, the first delivering one decides what the flow receives |
| PasswordVault.Frame | pwa-marketplace/src-tauri/src/password_manager.rs:64-68 | the blob is nonce, then ciphertext, then tag, and splitting it gives those three back |
| PasswordVault.Unframe | pwa-marketplace/src-tauri/src/password_manager.rs:76-82 | data shorter than 28 bytes is "Invalid encrypted data"; otherwise a 12-byte nonce and a 16-byte tag around the ciphertext, which together are the data |
| PasswordVault.UnframeFrame | pwa-marketplace/src-tauri/src/password_manager.rs:64-82 | splitting a framed blob returns exactly its parts |
| PasswordVault.PasswordManager.constructor | pwa-marketplace/src-tauri/src/password_manager.rs:34-48 | the manager holds the loaded entries |
| PasswordVault.PasswordManager.AddEntry | pwa-marketplace/src-tauri/src/password_manager.rs:96-108 | inserts or overwrites the name, committed before persistence, whose outcome is returned |
| PasswordVault.PasswordManager.GetEntry | pwa-marketplace/src-tauri/src/password_manager.rs:110-113 | never fails, changes nothing, and returns the stored password exactly when the name is present |
| PasswordVault.PasswordManager.UpdateEntry | pwa-marketplace/src-tauri/src/password_manager.rs:115-130 | a missing name fails with "Entry not found" and changes nothing; an existing one has only its value replaced |
| PasswordVault.PasswordManager.DeleteEntry | pwa-marketplace/src-tauri/src/password_manager.rs:132-142 | a missing name fails with "Entry not found"; an existing one is removed and nothing else |
| PasswordVault.AddThenGet | pwa-marketplace/src-tauri/src/password_manager.rs:96-113 | after an add the name reads back the password and other names read back what they did |
| PasswordVault.DeleteTwice | pwa-marketplace/src-tauri/src/password_manager.rs:132-142 | a second delete of the same name fails and the name is gone |
| PasswordVault.UpdateMissing | pwa-marketplace/src-tauri/src/password_manager.rs:121-129 | updating a never-added name fails and changes nothing |
| UpdateThrottle.ShouldConsult | pwa-marketplace/src-tauri/src/auto_updater.rs:33-37 | the updater is asked when no check was recorded, or when at least the interval has passed since the recorded one |
| UpdateThrottle.ThrottleWindow | pwa-marketplace/src-tauri/src/auto_updater.rs:33-37 | after a recorded check, a call is suppressed exactly when it comes before the recorded time plus the interval, a clock that went backwards included |
| UpdateThrottle.AutoUpdater.constructor | pwa-marketplace/src-tauri/src/auto_updater.rs:21-27 | no check recorded |
| UpdateThrottle.AutoUpdater.CheckForUpdates | pwa-marketplace/src-tauri/src/auto_updater.rs:29-47 | inside the interval after a recorded check it returns `None` without asking; otherwise it asks, a success records `now` and returns the release, a failure returns the error and records nothing |
| UpdateThrottle.SuccessThenEarlyCheck | pwa-marketplace/src-tauri/src/auto_updater.rs:33-43 | a success suppresses a second check inside the interval |
| UpdateThrottle.FailureThenRetry | pwa-marketplace/src-tauri/src/auto_updater.rs:40-45 | after a failure the next call asks again |
| UpdateThrottle.DownloadUpdate | pwa-marketplace/src-tauri/src/auto_updater.rs:49-57 | the first asset's URL is fetched, and the download's outcome returned |

## Left out

- Threads, mutexes, channels and async tasks: every operation is modelled as one atomic step on the state it locks.
- McpBridge.MCPBridge.Send: a send on a live channel is assumed to succeed; the handler thread that would drop the receiver is not modelled. The u32 counter's overflow is not modelled either (the counter is unbounded).
- HTTP, the event bus, the installers, `start`/`shutdown` and the periodic-check loops: outside the core; their results arrive as parameters.
- Console output, colours and the file formatting of log lines: I/O only.
- Logging.RotateLogFiles: works on an abstract directory (live file and numbered backups); rename failures and the file-system errors they raise are not modelled.
- Timestamps: whole seconds as unbounded integers; chrono's i64 range and overflow are not modelled.
- Case folding and whitespace: ASCII only, where Rust's `to_lowercase` and `split_whitespace` cover Unicode.
- Paths: POSIX semantics only (absolute means a leading '/'); Windows drive letters and separators are not modelled.
- FolderSelection: `check_folder_permissions` (writing and removing a probe file), folder creation and `dirs` lookups are inputs; `get_folder_info` and the suggestion list are not modelled.
- GitHubAuth: building the authorization URL, the token exchange, the user lookup and secure token storage are outside (the exchange's result is an input). The 1024-byte read and `from_utf8_lossy` are not modelled; the request is its text. The HTML bodies and `Content-Length` headers are left out; only the status lines are modelled.
- PasswordVault: base64, AES-256-GCM, JSON serialisation, random nonces and file I/O are outside; only the blob layout and the map are modelled. Loading the vault in `new` is the constructor's parameter.
- SandboxRuntime.PWASandbox.RequestPermission: the source reads `config.sandbox.permissions`, a field the sandbox configuration does not have; the model reads the app's declared permission list `config.permissions`.
- SandboxRuntime.PWASandbox.RequestPermission: the source returns `Result<bool>` and never fails; the model returns the `bool` itself.
- ResourceControl.ResourceController.HandleRequest: the source always wraps the response in `Ok`; the model returns the response itself.
- UpdateThrottle.AutoUpdater.CheckForUpdates: the clock is read once per call; the source reads it again after the updater returns and records that later instant.
- UpdateThrottle.DownloadUpdate: an empty asset list makes the source panic on indexing; the model requires a non-empty list.
- `install_update` and the marketplace `start_auto_check` loop: file copies and a thread loop, outside the core.

## Findings

| source | as written | input that shows it | evidently intended | confidence | as-written member | corrected member |
|---|---|---|---|---|---|---|
| src-tauri/src/logger.rs:368 | `matches!(entry.level, level)` binds a fresh name, so every entry matches | an Error entry in the buffer, queried for Warn | keep only entries of the requested level | not executed | Logging.LogsByLevelAsWritten, Logging.LogsByLevelAsWrittenIgnoresLevel, Logging.LogsByLevelCommand, Logging.LogsByLevelCommandIgnoresLevel | Logging.LogsByLevel |
| src-tauri/src/auto_updater.rs:360-365 | the lookup compares against `std::env::consts::OS`, which is "macos" on macOS, but assets are classified as "darwin" | a macOS host and a release with a darwin/aarch64 build | translate the host OS into the classifier's names | not executed | Updater.FindHostUpdateAsWritten, Updater.MacHostMissesDarwinBuild | Updater.FindHostUpdate, Updater.MacHostFindsDarwinBuild |
| src-tauri/src/auto_updater.rs:360-365 | the lookup compares against `std::env::consts::ARCH`, which is "x86" on 32-bit x86, but assets are classified as "i686" | a 32-bit Windows host and a release with a windows/i686 build | translate the host arch into the classifier's names | not executed | Updater.FindHostUpdateAsWritten, Updater.X86HostMissesI686Build | Updater.FindHostUpdate, Updater.HostFindsClassifiedBuild |

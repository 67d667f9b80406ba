# esportspulse: a verified model of its core logic

esportspulse tracks Valorant esports. It has four parts:
- a React web frontend;
- an Expo mobile app;
- an Express backend that proxies a public match API;
- a few asset scripts that download, rename and post-process team and tournament logos.

This project models the sequential logic spread through those parts and proves what that logic promises. The modelled parts are:

- **Logo name normalisers and the batch loops that apply them.**
  - `clean_filename` and `process_logos` (`CleanTournamentLogos`).
  - The slug loop of `processEventLogos.js` (`ProcessEventLogos`).
  - The one `normalize` chain that `normalize-logos.js`, `downloadTeamLogos.js`, `Matches.tsx` and `Events.tsx` share. It is defined once, in `Normalization`.
  - The two rename loops (`LogoRename`).
  - The URL, name and page handling of `downloadEvents.js` (`DownloadEvents`).
  - The mapping serialiser of `generateLogoMapping.js` (`LogoMapping`).
  - The mismatch between the names the three producers write and the names the frontend looks up (`Slugs`, `ProcessEventLogos`, `CleanTournamentLogos`).
- **The backend's handlers and helpers.**
  - The region classifier and the relative-time offset (`ServerHelpers`).
  - The `/api/matches` filters and logo map (`ServerMatches`).
  - The cached and paginated `/api/teams` (`ServerTeams`, a class over the module-level cache).
  - The `/api/events` ids (`ServerEvents`).
  - The in-memory favourites and their settings (`ServerFavorites`).
- **The Redux slices, each a class whose methods are the reducers:** notifications, favourites, auth (with its thunk life cycle) and user preferences.
- **The client services.**
  - The mobile `NotificationService` with its listeners and singleton (`MobileNotifications`).
  - The web socket notification service: the UUID and anonymous id, the reconnect counter, preference gating and the ordering in `updatePreferences` (`WebNotificationService`).
  - The `fetchWithRetry` loop and the query string (`MatchRetry`).
  - Match validation (`MatchValidation`).
- **Page logic.**
  - Matches: status, tabs, logo paths, settings normalisation, importance messages, favourite toggling and pruning, notification keys.
  - Notifications: the local key scan, filters, pagination, message prefixes and clear-all.
  - Teams: the filter, favourites, notification settings and flag URLs.
  - The registration form validator.
  - The Events filter.
  - The notification settings panel.
  - The mobile profile toggles.

Several inputs are parameters of the model rather than computations:
- the contents and listing order of directories;
- the outcomes of network requests and of `JSON.parse`;
- random digits and random message indices;
- `localStorage`, given as a map from keys to strings;
- the current time, given as a minute count.

Text is a sequence of code points. Case mapping covers ASCII and the Turkish letters the code handles. In particular, lower-casing 'İ' gives "i" followed by U+0307, as both JavaScript and Python do.

`clean_filename` in scripts/clean_tournament_logos.py joins words with '_', keeps the extension as `os.path.splitext` finds it, and does not transliterate: a letter outside `[a-zA-Z0-9]` becomes '_' like any other code point.

## Model

| member | source | states |
|---|---|---|
| AuthSlice.RejectionMessage | frontend/src/store/slices/authSlice.ts:97-100 | the stored message is the rejection payload when it is a non-empty string, the case's fallback text otherwise |
| AuthSlice.AuthStore.constructor | frontend/src/store/slices/authSlice.ts:31-37 | the store starts signed out: no user, no tokens, not loading, no error |
| AuthSlice.AuthStore.ClearError | frontend/src/store/slices/authSlice.ts:78-80 | `clearError` empties the error and leaves user, tokens and loading flag as they were |
| AuthSlice.AuthStore.UpdateUser | frontend/src/store/slices/authSlice.ts:81-83 | `updateUser` replaces the user and nothing else |
| AuthSlice.AuthStore.Pending | frontend/src/store/slices/authSlice.ts:87-90 | a pending login or register sets loading, clears the error and keeps the session |
| AuthSlice.AuthStore.SignedIn | frontend/src/store/slices/authSlice.ts:91-96 | a fulfilled login or register stores the payload's user and both tokens, ends loading and keeps the error |
| AuthSlice.AuthStore.SignInRejected | frontend/src/store/slices/authSlice.ts:97-100 | a rejected login or register ends loading and stores the payload-or-fallback message; the session is unchanged |
| AuthSlice.AuthStore.LogoutFulfilled | frontend/src/store/slices/authSlice.ts:115-119 | a fulfilled logout clears user and both tokens and leaves loading and error alone |
| AuthSlice.AuthStore.LogoutRejected | frontend/src/store/slices/authSlice.ts:120-122 | a rejected logout sets only the error, to the payload or 'Çıkış başarısız' |
| AuthSlice.AuthStore.SettleSignIn | frontend/src/store/slices/authSlice.ts:91-100 | for any outcome of login or register, the fulfilled case stores the session and the rejected case the message, and loading always ends |
| AuthSlice.AuthStore.SettleLogout | frontend/src/store/slices/authSlice.ts:115-122 | for any outcome of logout: signed out when fulfilled, only the error set when rejected, loading untouched |
| AuthSlice.AuthStore.Login | frontend/src/store/slices/authSlice.ts:39-49 | dispatching `login` always ends not loading with the session unchanged and the error 'Giriş başarısız' |
| AuthSlice.AuthStore.Register | frontend/src/store/slices/authSlice.ts:51-61 | dispatching `register` always ends not loading with the session unchanged and the error 'Kayıt başarısız' |
| AuthSlice.AuthStore.Logout | frontend/src/store/slices/authSlice.ts:63-72 | dispatching `logout` never signs out: the session and loading flag are unchanged and the error is 'Çıkış başarısız' |
| AuthSlice.ThunksAlwaysRejectWithoutPayload | frontend/src/store/slices/authSlice.ts:43-49 | none of the three thunks fulfils and none rejects with a payload, so the 'unavailable' text never becomes the store's error |
| CleanTournamentLogos.SplitExt | scripts/clean_tournament_logos.py:8 | `os.path.splitext`: stem and extension concatenate back to the name, and the extension is empty or one '.' followed by no further '.' or '/' |
| CleanTournamentLogos.SplitExtNoDot | scripts/clean_tournament_logos.py:8 | a name with no '.' and no '/' has an empty extension |
| CleanTournamentLogos.SplitExtOfStemAndExt | scripts/clean_tournament_logos.py:8 | a non-empty dot-free stem followed by an extension splits exactly between the two |
| CleanTournamentLogos.CleanBase | scripts/clean_tournament_logos.py:11-17 | the cleaned stem uses only `[a-z0-9_]`, has no "__" and no '_' at either end |
| CleanTournamentLogos.CleanFilenameShape | scripts/clean_tournament_logos.py:6-19 | a cleaned filename is a cleaned stem followed by the original extension, unchanged |
| CleanTournamentLogos.CleanFilenameIdempotent | scripts/clean_tournament_logos.py:6-19 | cleaning a cleaned filename changes nothing unless its stem cleaned away to nothing while an extension was kept |
| CleanTournamentLogos.CleanFilenameTeamLogo | scripts/clean_tournament_logos.py:6-19 | "Team Logo!!.png" cleans to "team_logo.png" |
| CleanTournamentLogos.CleanFilenameWeirdName | scripts/clean_tournament_logos.py:6-19 | "__weird___name--.png" cleans to "weird_name.png": runs collapse and edge underscores go |
| CleanTournamentLogos.CleanFilenameNotIdempotent | scripts/clean_tournament_logos.py:6-19 | the exception is real: "!!.png" cleans to ".png", which cleans further to "png" |
| CleanTournamentLogos.CleanFilenameIsNeverSentinel | scripts/clean_tournament_logos.py:31-35 | no filename cleans to "default-tournament-logo.png" |
| CleanTournamentLogos.TargetsFromNames | scripts/clean_tournament_logos.py:30-39 | every name the loop writes is the cleaned name of some selected source file |
| CleanTournamentLogos.CopyOne | scripts/clean_tournament_logos.py:30-40 | one globbed name: a `.png` other than the default logo is copied under its cleaned name and logged; any other name changes nothing |
| CleanTournamentLogos.ProcessLogos | scripts/clean_tournament_logos.py:21-40 | the run fails exactly when the events folder is missing; otherwise the processed folder and the log are those of copying every globbed name in order |
| CleanTournamentLogos.CopyAllKeys | scripts/clean_tournament_logos.py:30-39 | the processed folder ends with its old names plus exactly the cleaned names of the selected files |
| CleanTournamentLogos.CopyAllLastWriteWins | scripts/clean_tournament_logos.py:35-39 | a selected file whose cleaned name no later selected file shares ends up in the folder with its own contents |
| CleanTournamentLogos.CopyAllElsewhere | scripts/clean_tournament_logos.py:30-39 | a name no selected file cleans to keeps whatever the processed folder had under it |
| CleanTournamentLogos.SentinelUntouched | scripts/clean_tournament_logos.py:31-39 | a default logo already in the processed folder is never overwritten |
| DownloadEvents.FixUrl | backend/scripts/downloadEvents.js:58 | a protocol-relative logo URL gets "https:" in front (and then starts with "https://"); any other URL is kept |
| DownloadEvents.FixUrlOfProtocolRelative | backend/scripts/downloadEvents.js:58-64 | a protocol-relative URL always passes the `http` test, so it is never skipped as invalid |
| DownloadEvents.SafeName | backend/scripts/downloadEvents.js:66 | the safe name holds no reserved code point and is never longer than the event name |
| DownloadEvents.SafeNameOfPlain | backend/scripts/downloadEvents.js:66 | a name without reserved code points is kept as it is |
| DownloadEvents.SafeNameAppend | backend/scripts/downloadEvents.js:66 | the replacement works piecewise across a boundary that is not inside a run |
| DownloadEvents.SafeNameOfRun | backend/scripts/downloadEvents.js:66 | a non-empty run of reserved code points before a plain one becomes a single '-' |
| DownloadEvents.SafeNameRun | backend/scripts/downloadEvents.js:66 | a maximal run of reserved code points between plain text becomes exactly one '-', and the text around it is replaced independently |
| DownloadEvents.SafeNameIdempotent | backend/scripts/downloadEvents.js:66 | replacing again changes nothing |
| DownloadEvents.Extension | backend/scripts/downloadEvents.js:67 | the extension is the path's `extname` when it has one and ".png" otherwise; it always starts with its only '.' and holds no '/' |
| DownloadEvents.FileNameHasNoSlash | backend/scripts/downloadEvents.js:66-69 | the file name never contains '/', so the file lands directly inside the events folder |
| DownloadEvents.FirstEmpty | backend/scripts/downloadEvents.js:34-53 | the first empty page at or after `n`: it is empty and every page from `n` up to it is not |
| DownloadEvents.ScrapeAllEventLogos | backend/scripts/downloadEvents.js:22-90 | the script's outcome is the page-by-page scrape from page 1 with a zero counter and the folder (created empty when missing) |
| DownloadEvents.DownloadPage | backend/scripts/downloadEvents.js:57-83 | the inner loop gives the state of handling the page's events in order, stopping at a thrown `new URL` |
| DownloadEvents.DownloadEvent | backend/scripts/downloadEvents.js:58-82 | one event: invalid URLs are skipped with a warning, a throwing URL ends the script, otherwise the logo is saved |
| DownloadEvents.SaveLogo | backend/scripts/downloadEvents.js:69-82 | an existing file is skipped with a note; otherwise the download is logged and either stored (counter + 1) or reported as failed |
| DownloadEvents.PageStepAppend | backend/scripts/downloadEvents.js:57-83 | handling two runs of events one after the other is handling their concatenation |
| DownloadEvents.EventStepGrows | backend/scripts/downloadEvents.js:58-82 | one event never replaces an existing file, and the counter grows by one exactly when a new file is written |
| DownloadEvents.PageStepGrows | backend/scripts/downloadEvents.js:57-83 | the same for a whole page |
| DownloadEvents.ScrapeGrows | backend/scripts/downloadEvents.js:34-86 | the same for the whole scrape: existing files survive and the total is the number of files added |
| DownloadEvents.InvalidUrlSkipped | backend/scripts/downloadEvents.js:61-64 | an event whose URL does not start with "http" changes only the log |
| DownloadEvents.FailureContinues | backend/scripts/downloadEvents.js:77-82 | a failed download leaves folder and counter alone, logs the failure and does not end the script |
| DownloadEvents.ScrapeStopsAtFirstEmptyPage | backend/scripts/downloadEvents.js:50-53 | without a thrown URL the last log line reports the page before the first empty page and the final total |
| EventsFilter.FilteredEventsFacts | frontend/src/pages/Events.js:35-39 | an event is listed exactly when its lower-cased name contains the lower-cased search text and its region equals the filter up to case (or the filter is 'all'); the list keeps the fetched order and distributes over concatenation |
| EventsFilter.NoFilterKeepsAll | frontend/src/pages/Events.js:9-10 | with the initial empty search and region 'all' every fetched event is listed |
| EventsFilter.FilterIgnoresCase | frontend/src/pages/Events.js:36-37 | search text and region filter that differ only in ASCII case list the same events |
| EventsFilter.OtherOnlyUnderAll | frontend/src/pages/Events.js:12-18 | an event whose region is 'other' is never listed under any region option other than 'all' |
| EventsFilter.OtherMissingFromMenu | frontend/src/pages/Events.js:12-18 | 'other' is one of the regions the backend assigns but is not an option of the region menu |
| FavoritesSlice.FavoritesStore.constructor | frontend/src/store/slices/favoritesSlice.ts:7-9 | the favourites list starts empty |
| FavoritesSlice.FavoritesStore.AddToFavorites | frontend/src/store/slices/favoritesSlice.ts:15-19 | the id is appended unless already present |
| FavoritesSlice.FavoritesStore.RemoveFromFavorites | frontend/src/store/slices/favoritesSlice.ts:20-22 | the list becomes the old one with every occurrence of the id filtered out |
| FavoritesSlice.FavoritesStore.SetFavorites | frontend/src/store/slices/favoritesSlice.ts:23-25 | the list is replaced wholesale by the payload |
| FavoritesSlice.AddedFacts | frontend/src/store/slices/favoritesSlice.ts:15-19 | adding is idempotent, a new id goes at the end, and the members afterwards are the old ones plus the id |
| FavoritesSlice.RemovedFacts | frontend/src/store/slices/favoritesSlice.ts:20-22 | removing keeps exactly the members other than the id, works piecewise on concatenations and changes nothing when the id is absent |
| FavoritesSlice.NoDuplicatesKept | frontend/src/store/slices/favoritesSlice.ts:15-22 | adding and removing keep a duplicate-free list duplicate-free |
| Files.PngNames | esportspulse-mobile/scripts/generateLogoMapping.js:7 | every name the `.png` filter keeps ends in ".png" |
| Files.PngNamesMembers | esportspulse-mobile/scripts/generateLogoMapping.js:7 | the filter keeps exactly the listed names ending in ".png" (case-sensitively) |
| Files.PngNamesAppend | esportspulse-mobile/scripts/generateLogoMapping.js:7 | the filter distributes over concatenation, so the listing order is kept |
| LogoMapping.GenerateLogoMapping | esportspulse-mobile/scripts/generateLogoMapping.js:7-16 | the text written to index.ts is the export line, one entry line per `.png` file in listing order, and "};\n" |
| LogoMapping.MappingFrame | esportspulse-mobile/scripts/generateLogoMapping.js:9-14 | the output always starts with the export line and ends with "};\n" |
| LogoMapping.NoPngGivesFrameOnly | esportspulse-mobile/scripts/generateLogoMapping.js:7-14 | a folder without `.png` files gives just the two frame lines |
| LogoMapping.EntriesAppend | esportspulse-mobile/scripts/generateLogoMapping.js:10-13 | the entries of a concatenation are the two entry blocks in turn |
| LogoMapping.MappingOfConcatenation | esportspulse-mobile/scripts/generateLogoMapping.js:7-14 | the mapping of two listings is the frame around their two entry blocks, in listing order |
| LogoMapping.KeyOfPngFile | esportspulse-mobile/scripts/generateLogoMapping.js:11 | the key of "<stem>.png" is the lower-cased stem when the stem holds no ".png" |
| LogoMapping.KeyRemovesFirstOnly | esportspulse-mobile/scripts/generateLogoMapping.js:11 | only the first ".png" is removed: "<stem>.png.png" has the key "<stem>.png" lower-cased |
| LogoMapping.KeyKeepsAbsent | esportspulse-mobile/scripts/generateLogoMapping.js:11 | the key holds no ASCII code point (other than a small letter) that the file name lacks |
| LogoMapping.EntryLineRoundTrip | esportspulse-mobile/scripts/generateLogoMapping.js:12 | splitting an entry line at '"' gives back indentation, key, `require(` text, "./" plus the unchanged file name, and the closing text, when the name has no '"' |
| LogoMapping.EntryLineFields | esportspulse-mobile/scripts/generateLogoMapping.js:12 | an entry line is its five fields joined by '"' |
| LogoMapping.OneLinePerFile | esportspulse-mobile/scripts/generateLogoMapping.js:10-13 | the entries hold exactly one line break per file when no file name has one |
| LogoRename.BareExtensionNotConsidered | frontend/scripts/normalize-logos.js:21-22 | a bare ".png" or ".svg" has no extension in Node's sense, so the loop does not handle it |
| LogoRename.StemAndExtensionSettled | frontend/scripts/normalize-logos.js:21-25 | a non-empty normalized stem with a handled extension is handled and is its own target, so it is not renamed |
| LogoRename.TargetSettles | frontend/scripts/normalize-logos.js:21-25 | a target name is settled: it is its own target, or (its stem normalized away) no longer a handled file |
| LogoRename.RenameSettles | frontend/scripts/normalize-logos.js:21-25 | no name the loop proposes would itself be renamed again |
| LogoRename.ProgressStep | frontend/scripts/normalize-logos.js:20-35 | one iteration keeps the loop invariant: unhandled entries untouched, no file overwritten, the folder's size kept, each handled file's content under its old name or its target |
| LogoRename.RenameProgress | frontend/scripts/normalize-logos.js:20-35 | after any number of iterations from the start the loop invariant holds |
| LogoRename.ProgressAtEnd | frontend/scripts/normalize-logos.js:20-35 | the invariant after the last entry gives the loop's promise (no file lost or overwritten, nothing left to rename) |
| LogoRename.RenameAllOutcome | frontend/scripts/normalize-logos.js:20-35 | for any naming whose targets are settled, the loop over a listing keeps the number of files, overwrites no file, keeps every file's content under its old name or its target, and leaves nothing to rename |
| LogoRename.SecondRunNoOp | frontend/scripts/normalize-logos.js:20-35 | once nothing is left to rename, running the loop again changes no file and logs only skip warnings |
| LogoRename.RenameOutcome | frontend/scripts/normalize-logos.js:20-35 | the outcome of the loop with the scripts' own normalized naming |
| LogoRename.StepToward | frontend/scripts/normalize-logos.js:25-33 | a name already equal to its target is left alone silently; otherwise it is moved when the target is free and skipped with a warning when it is taken |
| LogoRename.StepIgnored | frontend/scripts/normalize-logos.js:21-22 | a name without a `.png`/`.svg` extension changes nothing and logs nothing |
| LogoRename.RenameOfConsidered | frontend/scripts/normalize-logos.js:21-24 | a `.png`/`.svg` name (any case) is proposed the normalized stem followed by the lower-cased extension |
| LogoRename.RenameOfIgnored | frontend/scripts/normalize-logos.js:21-22 | any other name is not proposed for renaming |
| LogoRename.StepKeepsOthers | frontend/scripts/normalize-logos.js:25-33 | one iteration removes no name other than the entry it handles |
| LogoRename.RenameOne | frontend/scripts/normalize-logos.js:21-33 | one entry: the folder and log lines are those of the step for that entry, and every other file stays |
| LogoRename.RenameLogos | frontend/scripts/normalize-logos.js:20-35 | the loop over the whole listing, with the outcome of RenameOutcome |
| LogoRename.DownloadTeamLogos | scripts/downloadTeamLogos.js:18-42 | a missing folder ends the process with status 1 and its message; otherwise the same loop runs |
| LogoRename.NormalizeLogos | frontend/scripts/normalize-logos.js:18-35 | a missing folder makes `readdirSync` throw, ending the process with status 1; otherwise the loop runs |
| NodePath.Extname | frontend/scripts/normalize-logos.js:21 | `path.extname` is empty or a single '.' followed by no '.' or '/' |
| NodePath.ExtnameIsSuffix | frontend/scripts/normalize-logos.js:21 | the extension is a tail of the name (trailing slashes aside) |
| NodePath.ExtnameOfDotName | frontend/scripts/normalize-logos.js:21 | a name starting with its only '.' has no extension |
| NodePath.ExtnameOfStemAndExt | frontend/scripts/normalize-logos.js:21 | a non-empty dot-free stem followed by an extension has that extension |
| NodePath.Basename | frontend/scripts/normalize-logos.js:23 | `path.basename(name, ext)` drops a case-sensitive `ext` suffix (unless the name is only `ext`) and otherwise keeps the name |
| NodePath.BasenameOfAppend | frontend/scripts/normalize-logos.js:23 | a stem followed by a non-empty extension loses exactly that extension |
| Normalization.FoldTurkish | frontend/scripts/normalize-logos.js:8-13 | the six letter replacements keep the text's length |
| Normalization.KeepLowerAlnum | frontend/scripts/normalize-logos.js:14 | the deletion leaves only `[a-z0-9]` and never lengthens the text |
| Normalization.Normalize | frontend/scripts/normalize-logos.js:5-15 | a normalized name uses only `[a-z0-9]` |
| Normalization.NormalizeAppend | frontend/scripts/normalize-logos.js:5-15 | normalizing a concatenation normalizes the parts separately |
| Normalization.NormalizeIsTable | frontend/scripts/normalize-logos.js:5-15 | the replace chain equals the per-code-point table: ASCII letters and digits kept (lower-cased), ş ç ü ö ğ ı and their capitals (İ included) to their ASCII letter, everything else dropped |
| Normalization.NormalizeFixedPoint | frontend/scripts/normalize-logos.js:5-15 | a name is unchanged by `normalize` exactly when it is already `[a-z0-9]*` |
| Normalization.NormalizeIdempotent | frontend/scripts/normalize-logos.js:5-15 | normalizing twice is normalizing once |
| Slugs.UnderscoreNonAsciiAlnum | scripts/clean_tournament_logos.py:11 | every code point outside `[a-zA-Z0-9]` becomes '_' and the others are kept, position by position |
| Slugs.UnderscoreNonLowerAlnum | backend/scripts/processEventLogos.js:23 | every code point outside `[a-z0-9]` becomes '_' and the others are kept, position by position |
| Slugs.UnderscoreClassesAgreeAfterLower | backend/scripts/processEventLogos.js:22-23 | after lower-casing, the Python class of the tournament script and the JavaScript class of the event script replace the same code points |
| Slugs.Collapse | scripts/clean_tournament_logos.py:14 | collapsing leaves no "__", keeps the first and last code point and never lengthens the text |
| Slugs.CollapseKeepsOthers | scripts/clean_tournament_logos.py:14 | collapsing only removes underscores: the other code points remain, in order |
| Slugs.CollapseNoRun | scripts/clean_tournament_logos.py:14 | text without "__" is unchanged |
| Slugs.CollapseAppend | scripts/clean_tournament_logos.py:14 | collapsing distributes over a split point that is not inside a run |
| Slugs.StripAll | scripts/clean_tournament_logos.py:17 | `strip('_')` leaves no '_' at either end and never lengthens the text |
| Slugs.StripOne | backend/scripts/processEventLogos.js:25 | `replace(/^_|_$/g, '')` removes at most one '_' at each end |
| Slugs.StripOneSufficesAfterCollapse | backend/scripts/processEventLogos.js:24-25 | once runs are collapsed, removing one '_' at each end removes them all, so the two scripts' strips agree |
| Slugs.StripAllSlugBody | scripts/clean_tournament_logos.py:14-17 | stripping collapsed `[a-z0-9_]` text gives a slug body: no "__" and no '_' at either end |
| Slugs.SlugBodyFixed | scripts/clean_tournament_logos.py:11-17 | a slug body is left alone by every step of the cleaning |
| MatchesPage.TeamLogoShape | frontend/src/pages/Matches.tsx:385-388 | a team logo path exists exactly for a present, non-empty team name, and is "/logos/" + the normalized name (only `[a-z0-9]`) + the extension |
| MatchesPage.TournamentName | frontend/src/pages/Matches.tsx:240 | the tournament name, else the event name, else "" (empty strings counting as missing) |
| MatchesPage.TournamentLogoShape | frontend/src/pages/Matches.tsx:239-244 | the tournament logo is "/events/processed/" + a `[a-z0-9]*` name + ".png", the same path the events page's cards use for that name |
| MatchesPage.TournamentIconNeverDefault | frontend/src/pages/Matches.tsx:390-397 | the icon is the first non-empty of the two icon fields, else the local events path, which is never the default logo |
| MatchesPage.TeamLogoIsRenamedFile | frontend/src/pages/Matches.tsx:385-388 | for a team name without '.' or '/', the page asks for exactly the file the logo-renaming script produces from "<team>.png" or "<team>.svg" |
| MatchesPage.ProcessedSlugNeverFound | frontend/src/pages/Matches.tsx:239-244 | no file the event-logo script writes is ever the path the page asks for (its slugs have no ".png") |
| MatchesPage.CleanedNameWithSeparatorNeverFound | frontend/src/pages/Matches.tsx:239-244 | a name the tournament-logo script cleans with a '_' in it is never the path the page asks for |
| MatchesPage.BoolOr | frontend/src/pages/Matches.tsx:405-407 | a boolean setting is kept when it is a boolean and is `true` otherwise |
| MatchesPage.FromStorage | frontend/src/pages/Matches.tsx:209-224 | the stored settings when the `match_notifications_<id>` item is non-empty and parses, else disabled with 15 minutes and every event on |
| MatchesPage.SettingsNormalisation | frontend/src/pages/Matches.tsx:399-411 | backend settings are enabled only when `enabled` is exactly true, `beforeMatch` defaults to 15 and each flag to true; without backend settings the stored ones (or the defaults) are used |
| MatchesPage.StatusOf | frontend/src/pages/Matches.tsx:413-420 | completed exactly when `time_completed` is set; otherwise live exactly when the remaining time is "LIVE", upcoming otherwise |
| MatchesPage.CompletedWins | frontend/src/pages/Matches.tsx:413-420 | a completed match that still says "LIVE" is completed |
| MatchesPage.FilteredMatches | frontend/src/pages/Matches.tsx:523-537 | an entry is listed exactly when it is in the list and passes the tab's test |
| MatchesPage.FilteredMatchesKeepOrder | frontend/src/pages/Matches.tsx:523-537 | every tab keeps the list's order: filtering a concatenation concatenates the filtered parts |
| MatchesPage.AllAndPastPartition | frontend/src/pages/Matches.tsx:529-534 | the 'all' and 'past' tabs split the list: every entry is in exactly one of them, as often as in the list |
| MatchesPage.LiveUpcomingDisjoint | frontend/src/pages/Matches.tsx:525-528 | no entry is on both the live and the upcoming tab |
| MatchesPage.UpcomingWithinAll | frontend/src/pages/Matches.tsx:527-534 | for loaded entries the upcoming tab holds exactly the upcoming ones, all of which the 'all' tab also shows |
| MatchesPage.OtherTabShowsAll | frontend/src/pages/Matches.tsx:535 | an unknown tab shows every entry in order |
| MatchesPage.CompletedIds | frontend/src/pages/Matches.tsx:633-635 | the ids collected are exactly the favourite ids of matches with `time_completed` set |
| MatchesPage.PrunedFacts | frontend/src/pages/Matches.tsx:636-637 | pruning removes exactly the completed ids and keeps the rest in order; the length is unchanged exactly when nothing was removed |
| MatchesPage.FavoritesView.constructor | frontend/src/pages/Matches.tsx:307-309 | the favourites state starts as the stored list, or empty when localStorage has no `favorites` item; localStorage is left as it was and no change event is sent |
| MatchesPage.FavoritesView.ToggleFavorite | frontend/src/pages/Matches.tsx:557-574 | the id is removed when present and appended otherwise; the new list goes to state and localStorage and one change event is sent |
| MatchesPage.FavoritesView.PruneCompleted | frontend/src/pages/Matches.tsx:630-642 | when pruning removes something the pruned list is stored and announced; otherwise nothing changes |
| MatchesPage.PruneTwice | frontend/src/pages/Matches.tsx:630-642 | running the pruning effect again right after it ran leaves the list as the first run made it |
| MatchesPage.PrunedAgain | frontend/src/pages/Matches.tsx:633-637 | pruning is idempotent, and a pruning that keeps the length keeps the list |
| MatchesPage.CategoryPriority | frontend/src/pages/Matches.tsx:282-290 | an empty round gets the default pool; "yarı" means semi-final even next to "final"; "final" alone means final; a round with none of the words gets the default pool |
| MatchesPage.FillTemplate | frontend/src/pages/Matches.tsx:277-280 | in a template "a{team1}b{team2}c" without earlier '{' the two names land exactly in the placeholders' places |
| MatchesPage.TeamNameHoldingPlaceholder | frontend/src/pages/Matches.tsx:279 | a first team named "{team2}" is itself rewritten by the second replacement |
| MatchesPage.RemoveFromNow | frontend/src/pages/Matches.tsx:296 | the first "from now" in any ASCII letter case is deleted, and text without one is kept |
| MatchesPage.UnitPassRemovesAll | frontend/src/pages/Matches.tsx:297-299 | after a unit pass no unit letter follows a digit |
| MatchesPage.UnitPassIdentity | frontend/src/pages/Matches.tsx:297-299 | a text with no unit letter after a digit passes unchanged |
| MatchesPage.UnitPassIdempotent | frontend/src/pages/Matches.tsx:297-299 | each unit pass is idempotent |
| MatchesPage.UnitPassAppend | frontend/src/pages/Matches.tsx:297-299 | a pass works piecewise, the second piece knowing whether the first ended in a digit |
| MatchesPage.FormatExamples | frontend/src/pages/Matches.tsx:293-301 | an empty label stays empty, and "1d 3h from now" reads "1 gün 3 saat" |
| MatchRetry.ParseInt | frontend/src/services/matchService.ts:24 | `parseInt` of the Retry-After text gives a number only when, after leading white space, the text has a digit |
| MatchRetry.ParseIntOfDecimal | frontend/src/services/matchService.ts:24 | white space, an optional sign and a decimal digit run (not a "0x" prefix) parse to the run's decimal value with that sign, whatever follows the run |
| MatchRetry.ParseIntOfHex | frontend/src/services/matchService.ts:24 | a "0x" or "0X" prefix after the sign selects base 16: the hex digit run gives its value with the sign, and an empty run gives NaN |
| MatchRetry.ParseIntNaN | frontend/src/services/matchService.ts:24 | white space and an optional sign followed by nothing, or by a code point that is not a digit, white space or a sign, give NaN |
| MatchRetry.ParseIntHexExample | frontend/src/services/matchService.ts:24 | "0x1A" parses to 26 |
| MatchRetry.RetryFrom | frontend/src/services/matchService.ts:8-39 | the reference run from attempt `i`: never more attempts than remain |
| MatchRetry.TryOnce | frontend/src/services/matchService.ts:12-35 | one pass of the loop body: a non-429 response ends the run after this attempt; otherwise the run is this attempt's wait followed by the rest of the run |
| MatchRetry.FetchWithRetry | frontend/src/services/matchService.ts:8-39 | the loop's result is the reference run from attempt 0, with between one and three attempts |
| MatchRetry.AnswerIsReturned | frontend/src/services/matchService.ts:22-29 | the first response other than 429 is returned as it is, even when not `ok`, after exactly that many attempts |
| MatchRetry.ExhaustedRaises | frontend/src/services/matchService.ts:30-38 | without a usable response all three attempts are made and the last error caught is thrown, or the generic message when none threw |
| MatchRetry.AllRateLimited | frontend/src/services/matchService.ts:22-27 | three 429 answers: the generic message is thrown after one rate-limit wait per answer |
| MatchRetry.AllThrew | frontend/src/services/matchService.ts:30-35 | three thrown attempts: waits of 1000 and 2000 ms, none after the last, and its error is thrown |
| MatchRetry.RetryAfterSeconds | frontend/src/services/matchService.ts:23-25 | a Retry-After header "2" gives a wait of 2000 ms |
| MatchRetry.QueryPairs | frontend/src/services/matchService.ts:45-47 | at most the two query pairs are added |
| MatchRetry.QueryShape | frontend/src/services/matchService.ts:43-51 | a '?' is added exactly when a status or a date is given; with both, status comes before date; without params the bare URL is used |
| MatchRetry.GetMatches | frontend/src/services/matchService.ts:41-62 | an `ok` response with an array body gives exactly that array's items; every failure and any other body gives `[]` |
| MatchRetry.GetMatchById | frontend/src/services/matchService.ts:64-76 | a match comes back exactly for an `ok` response whose body parses, and it is that body; everything else gives null |
| MatchValidation.Coalesce | src/services/matchService.ts:62-66 | `a ?? d` is the value when present and the default only when it is null or missing |
| MatchValidation.ValidateMatch | src/services/matchService.ts:56-74 | a match fails, with 'Geçersiz maç verisi', exactly when its id, a team or its date is missing or empty; a valid match keeps its id, teams and other fields, gets its date as a date object and its notification settings with the `??` defaults filled in |
| MatchValidation.SettingsDefaults | src/services/matchService.ts:61-67 | missing settings become disabled, 15 minutes, every event off; given settings are kept even when false or 0 |
| MatchValidation.ValidateMatches | src/services/matchService.ts:76-78 | an accepted list has one validated match per received match |
| MatchValidation.ValidateMatchesFacts | src/services/matchService.ts:76-78 | the list is accepted exactly when every match is valid (one invalid match throws for the whole list), and then element `i` is match `i` validated |
| MatchValidation.ResponseErrors | src/services/matchService.ts:16-24 | a response that is not `ok` always fails, with the rate-limit message exactly for status 429 and otherwise with the status text; an `ok` response gives the validation's result |
| MobileNotifications.MarkedRead | esportspulse-mobile/services/notifications.ts:69-71 | marking keeps the length and every entry's id in place |
| MobileNotifications.AllMarkedRead | esportspulse-mobile/services/notifications.ts:84-87 | marking all keeps the length |
| MobileNotifications.UnreadCountBounds | esportspulse-mobile/services/notifications.ts:122-124 | the unread count is at most the length, and is 0 exactly when every entry is read |
| MobileNotifications.MarkedReadEntries | esportspulse-mobile/services/notifications.ts:69-71 | marking an id read sets `read` on exactly the entries with that id and leaves the rest as they were |
| MobileNotifications.MarkedReadUnread | esportspulse-mobile/services/notifications.ts:69-71 | after marking an id read, the unread entries are exactly the unread entries of the other ids |
| MobileNotifications.AllMarkedReadFacts | esportspulse-mobile/services/notifications.ts:84-87 | marking all read leaves no unread entry and changes nothing but `read` |
| MobileNotifications.DeletedFacts | esportspulse-mobile/services/notifications.ts:100 | deleting removes every entry with the id, keeps the others in order, and changes nothing when no entry has the id |
| MobileNotifications.AddThenRemove | esportspulse-mobile/services/notifications.ts:130-135 | the remover `addListener(l)` returns takes out `l` and keeps every other listener in order |
| MobileNotifications.Broadcast | esportspulse-mobile/services/notifications.ts:137-139 | each listener, in registration order, is called once with the current list |
| MobileNotifications.NotificationService.constructor | esportspulse-mobile/services/notifications.ts:18-23 | a new service has no notifications and no listeners |
| MobileNotifications.NotificationService.Commit | esportspulse-mobile/services/notifications.ts:48-50 | the accepted branch: the list is replaced, saved when the write succeeds, and broadcast to every listener |
| MobileNotifications.NotificationService.FetchNotifications | esportspulse-mobile/services/notifications.ts:44-55 | the server's list replaces, saves and broadcasts the local one unless the reply has an error or the call threw, in which case nothing changes |
| MobileNotifications.NotificationService.Initialize | esportspulse-mobile/services/notifications.ts:32-42 | the stored list is loaded when there is one, then the fetch's outcome applies: an accepted reply replaces the list, is saved to storage when the save succeeds, and is delivered to every listener; otherwise the loaded list stays and storage is untouched |
| MobileNotifications.NotificationService.MarkAsRead | esportspulse-mobile/services/notifications.ts:65-78 | only an accepted reply marks the id read, saves and notifies; otherwise nothing changes |
| MobileNotifications.NotificationService.MarkAllAsRead | esportspulse-mobile/services/notifications.ts:80-94 | only an accepted reply marks every entry read (no unread entry remains), saves and notifies |
| MobileNotifications.NotificationService.DeleteNotification | esportspulse-mobile/services/notifications.ts:96-107 | only an accepted reply removes the id's entries, saves and notifies |
| MobileNotifications.NotificationService.ClearAllNotifications | esportspulse-mobile/services/notifications.ts:109-120 | only an accepted reply empties the list, saves and notifies |
| MobileNotifications.NotificationService.GetUnreadCount | esportspulse-mobile/services/notifications.ts:122-124 | the count of unread entries, at most the length and 0 exactly when all are read |
| MobileNotifications.NotificationService.AddListener | esportspulse-mobile/services/notifications.ts:130-131 | the listener is appended and nothing else changes |
| MobileNotifications.NotificationService.RemoveListener | esportspulse-mobile/services/notifications.ts:132-134 | the remover keeps every other listener, in order, and nothing else changes |
| MobileNotifications.Registry.GetInstance | esportspulse-mobile/services/notifications.ts:25-30 | the first call creates an empty service; every later call returns that same object |
| MobileNotifications.SameInstance | esportspulse-mobile/services/notifications.ts:25-30 | two calls of `getInstance` give the same service |
| NotificationSettingsPanel.PreferenceChangedFacts | frontend/src/components/NotificationSettings.tsx:44-47 | one switch sets its own key to the checked value; every other key keeps its presence and value |
| NotificationSettingsPanel.ToggledAllAsWrittenFacts | frontend/src/components/NotificationSettings.tsx:53-57 | as written the toggle keeps the keys, leaves an all-off object unchanged and switches every key on otherwise |
| NotificationSettingsPanel.TurnAllOnDoesNothing | frontend/src/components/NotificationSettings.tsx:53-57 | with the three preferences off the button reads 'Tüm Bildirimleri Aç', yet as written it leaves them all off |
| NotificationSettingsPanel.ToggledAllFacts | frontend/src/components/NotificationSettings.tsx:52-57 | the corrected toggle keeps the keys and gives them one value: all on when all were off, all off otherwise |
| NotificationSettingsPanel.ToggleAllFollowsLabel | frontend/src/components/NotificationSettings.tsx:71-86 | with the corrected toggle the button does what its label says, flips the all-off state of a non-empty object, and two presses from all-off come back to all-off |
| NotificationSettingsPanel.ButtonLabelFacts | frontend/src/components/NotificationSettings.tsx:71-85 | the button offers to switch everything on exactly when everything is off |
| NotificationSettingsPanel.HandlePreferenceChange | frontend/src/components/NotificationSettings.tsx:43-50 | the one new object goes both to the store and to the service, which saves that same object when its request succeeds |
| NotificationSettingsPanel.HandleToggleAll | frontend/src/components/NotificationSettings.tsx:52-61 | as written: the object with every key set to `!allDisabled` goes both to the store and to the service, which saves that same object when its request succeeds |
| NotificationSettingsPanel.HandleToggleAllCorrected | frontend/src/components/NotificationSettings.tsx:52-61 | the same for the object built as the label intends |
| NotificationSlice.InitialPreferences | frontend/src/store/slices/notificationSlice.ts:36-48 | the store starts with exactly the eleven preference keys, every one switched on |
| NotificationSlice.FirstWithId | frontend/src/store/slices/notificationSlice.ts:63 | the index is that of an item with the id and no earlier item has it, or -1 when no item has the id |
| NotificationSlice.AllRead | frontend/src/store/slices/notificationSlice.ts:70-72 | every item, in place, with its read flag set and nothing else changed |
| NotificationSlice.NotificationStore.constructor | frontend/src/store/slices/notificationSlice.ts:33-50 | an empty list, a zero count, every preference on and no user id |
| NotificationSlice.NotificationStore.AddNotification | frontend/src/store/slices/notificationSlice.ts:56-61 | the item is put first and the count grows by one exactly when it is unread, keeping the count true to the list |
| NotificationSlice.NotificationStore.MarkAsRead | frontend/src/store/slices/notificationSlice.ts:62-68 | the first item with the id is marked read and the count falls by one exactly when it was unread, keeping the count true |
| NotificationSlice.NotificationStore.MarkAllAsRead | frontend/src/store/slices/notificationSlice.ts:69-74 | every item read and the count zero, which is the true count |
| NotificationSlice.NotificationStore.RemoveNotification | frontend/src/store/slices/notificationSlice.ts:75-81 | every item with the id is removed while the count falls at most once, by the first such item; the count stays true when ids are unique |
| NotificationSlice.NotificationStore.SetNotifications | frontend/src/store/slices/notificationSlice.ts:82-85 | the list is replaced and the count is the number of unread items in it |
| NotificationSlice.NotificationStore.UpdatePreferences | frontend/src/store/slices/notificationSlice.ts:86-88 | the preferences are replaced and nothing else changes |
| NotificationSlice.NotificationStore.SetUserId | frontend/src/store/slices/notificationSlice.ts:89-91 | the user id is set and nothing else changes |
| NotificationSlice.ReadingOneCountsDown | frontend/src/store/slices/notificationSlice.ts:64-66 | marking one unread item read lowers the number of unread items by exactly one |
| NotificationSlice.AllReadHasNoUnread | frontend/src/store/slices/notificationSlice.ts:69-74 | after marking all read no item is unread, so the zero count is true |
| NotificationSlice.RemovingCountsDown | frontend/src/store/slices/notificationSlice.ts:76-80 | with unique ids, removing an id lowers the unread count by one exactly when its item was unread |
| NotificationSlice.DuplicateIdsDrift | frontend/src/store/slices/notificationSlice.ts:76-80 | with two unread items sharing an id, removing it leaves none unread while the count falls by one only |
| NotificationSlice.MarkReadIdempotent | frontend/src/store/slices/notificationSlice.ts:62-68 | marking the same id read twice is the same as marking it once |
| NotificationSlice.MarkReadTouchesOne | frontend/src/store/slices/notificationSlice.ts:63-65 | only the first item with the id changes, and only in its read flag |
| NotificationSlice.WithoutIdKeepsOthers | frontend/src/store/slices/notificationSlice.ts:80 | an item survives removal exactly when it was listed with another id, and removal distributes over concatenation, so order is kept |
| NotificationsPage.FiltersNested | frontend/src/pages/Notifications.tsx:180-187 | 'live' keeps exactly the three match types, and 'unread' keeps exactly the unread items of 'live' |
| NotificationsPage.FilteredKeepsOrder | frontend/src/pages/Notifications.tsx:180-187 | every filter distributes over concatenation, so the list keeps its order |
| NotificationsPage.Pagination | frontend/src/pages/Notifications.tsx:189-192 | the page count is the least that holds the list, no page has more than ten items, and the pages laid end to end are the list |
| NotificationsPage.ListView.constructor | frontend/src/pages/Notifications.tsx:100-101 | the page starts on page 1 with the 'all' filter |
| NotificationsPage.ListView.HandlePageChange | frontend/src/pages/Notifications.tsx:145-147 | the page is set and the filter is kept |
| NotificationsPage.ListView.HandleFilterChange | frontend/src/pages/Notifications.tsx:149-152 | the filter is set and the page goes back to 1 |
| NotificationsPage.NotificationMessageShape | frontend/src/pages/Notifications.tsx:232-245 | every phrasing ends with the item's own message, and it is the bare message exactly for types outside the three match types |
| NotificationsPage.Candidate | frontend/src/pages/Notifications.tsx:110-138 | an item is built only from a settings key whose stored object parses, is enabled and splits into at least three parts |
| NotificationsPage.ScanLocalNotifications | frontend/src/pages/Notifications.tsx:108-143 | the loop with its break returns what the first key yielding an item yields, or nothing |
| NotificationsPage.FirstFoundIsFirst | frontend/src/pages/Notifications.tsx:108-143 | the scan finds an item exactly when some key yields one, and then it is the item of a key before which no key yields one |
| NotificationsPage.CandidateShape | frontend/src/pages/Notifications.tsx:129-136 | the built item is read, of type matchStart, titled "team1 vs team2" and identified by "local_team1_team2" from the key's parts |
| NotificationsPage.SavedMessageWins | frontend/src/pages/Notifications.tsx:127-128 | a message saved under the rebuilt key is the message of the built item, as it is |
| NotificationsPage.RebuiltKeyOfSplit | frontend/src/pages/Notifications.tsx:117-122 | rebuilding a split of four or more pieces gives back the text that was split |
| NotificationsPage.KeyRoundTrip | frontend/src/pages/Notifications.tsx:117-124 | for the settings key the match page writes, the rebuilt key is that match's key, and its parts 1 and 2 are the team names when id and names hold no '_' |
| NotificationsPage.WithoutMatchKeys | frontend/src/pages/Notifications.tsx:167-173 | a key stays exactly when it was stored and has none of the three match-notification prefixes, with its value unchanged |
| NotificationsPage.AllIdsRemoved | frontend/src/pages/Notifications.tsx:163-165 | removing every id the list held leaves nothing of that list |
| NotificationsPage.RemoveListed | frontend/src/pages/Notifications.tsx:163-165 | removing each listed id in turn empties the store's list and leaves preferences and user id alone; the unread count drops by one for each first occurrence of an id whose item is unread, so it ends at 0 when the store was consistent and ids were unique |
| NotificationsPage.RemoveOne | frontend/src/pages/Notifications.tsx:164 | one pass of the loop: the next listed id's items leave the list, and the count drops by one exactly when that id's first occurrence is unread |
| NotificationsPage.FirstUnreadCounts | frontend/src/store/slices/notificationSlice.ts:75-81 | the count drop of the loop never exceeds the number of unread items, and equals it when ids are unique |
| NotificationsPage.ClearAllDrift | frontend/src/store/slices/notificationSlice.ts:75-81 | with an unread item listed twice the loop takes 1 off the count while 2 items were unread |
| NotificationsPage.RemoveMatchKeys | frontend/src/pages/Notifications.tsx:167-173 | after the loop over all keys, localStorage holds exactly its non-match-notification entries |
| NotificationsPage.ClearAll | frontend/src/pages/Notifications.tsx:162-178 | the store's list is empty, the unread count has dropped as in `RemoveListed` (to 0 from a consistent store with unique ids), and localStorage has lost exactly its match-notification keys |
| ProcessEventLogos.EventSlug | backend/scripts/processEventLogos.js:22-25 | the target name is an underscore slug: only lower-case letters, digits and single inner underscores |
| ProcessEventLogos.EventSlugIsCleanBaseOfWholeName | backend/scripts/processEventLogos.js:22-25 | the one-step edge strip suffices after collapsing, so the slug equals the Python cleaner's stem cleaning applied to the whole file name |
| ProcessEventLogos.EventSlugIdempotent | backend/scripts/processEventLogos.js:22-25 | slugging a slug gives it back |
| ProcessEventLogos.EventSlugOfPng | backend/scripts/processEventLogos.js:20-27 | a `.png` file's target name ends in "png" and holds no '.', so it carries no extension |
| ProcessEventLogos.ProcessOne | backend/scripts/processEventLogos.js:20-43 | one entry: a `.png` that renders is written under its slug and logged, one that fails is logged by its own name, any other entry adds nothing |
| ProcessEventLogos.Process | backend/scripts/processEventLogos.js:5-50 | the folders are the reference fold over the listing followed by the completion line, or the error line alone when the listing fails |
| ProcessEventLogos.RenderLogPerFile | backend/scripts/processEventLogos.js:19-44 | one log line per `.png` file in listing order, saying whether that file rendered; a failure never stops the files after it |
| ProcessEventLogos.RenderAllFrame | backend/scripts/processEventLogos.js:27-37 | the processed folder gains exactly the slugs of the rendered files and keeps every other entry's content |
| ProcessEventLogos.WrittenHaveNoDot | backend/scripts/processEventLogos.js:22-27 | no written name holds a '.', so none has the form "name.png" |
| Profile.InitialUser | esportspulse-mobile/app/profile/index.tsx:10-21 | the screen starts with every switch on, no favourites and the placeholder name and e-mail |
| Profile.GetSet | esportspulse-mobile/app/profile/index.tsx:32-40 | a flag written is read back as written and the other flags keep theirs |
| Profile.ToggleFlipsOne | esportspulse-mobile/app/profile/index.tsx:32-40 | the toggle flips exactly the named flag and keeps every other flag and every other field of the user |
| Profile.ToggleTwice | esportspulse-mobile/app/profile/index.tsx:32-40 | toggling one flag twice gives back the record it started from |
| Profile.TogglesCommute | esportspulse-mobile/app/profile/index.tsx:32-40 | toggles of two flags can be applied in either order |
| RegisterPage.EmailShapeNeeds | frontend/src/pages/Register.tsx:46 | a text the e-mail pattern accepts has at least five characters and an '@' with a '.' somewhere after it |
| RegisterPage.EmailExamples | frontend/src/pages/Register.tsx:46 | the pattern searches, so "a@b.c" and " x a@b.c" pass, while "a@b", "@b.c" and "a@.c" fail |
| RegisterPage.ErrorsOfFacts | frontend/src/pages/Register.tsx:38-58 | each field's error is decided by its own tests in source order, in both directions, no other key is set, and the object is empty exactly when every test passes |
| RegisterPage.FormErrorsFacts | frontend/src/pages/Register.tsx:38-58 | username: required exactly when it trims to nothing; e-mail: required when blank, else invalid exactly when the pattern fails; password: required when empty, else too short exactly under six; confirmation: mismatch exactly when it differs |
| RegisterPage.PassesExactly | frontend/src/pages/Register.tsx:38-61 | a form validates exactly when the username is not blank, the e-mail matches, the password has at least six characters and the confirmation equals it |
| RegisterPage.BuildErrors | frontend/src/pages/Register.tsx:38-58 | the statement-by-statement filling of the error object gives the reference error object |
| RegisterPage.RegisterView.constructor | frontend/src/pages/Register.tsx:26-35 | four empty fields, no errors and nothing sent |
| RegisterPage.RegisterView.ValidateForm | frontend/src/pages/Register.tsx:37-62 | the stored errors are the form's error object and the result says it is empty; the form is kept |
| RegisterPage.RegisterView.HandleChange | frontend/src/pages/Register.tsx:64-77 | the named field takes the value and its error is blanked only when it was non-empty |
| RegisterPage.RegisterView.HandleSubmit | frontend/src/pages/Register.tsx:79-89 | `register` is dispatched with the form exactly when the form validates |
| RegisterPage.ChangeIsLocal | frontend/src/pages/Register.tsx:66-76 | a change leaves every other field and every other error as it was |
| ServerHelpers.GetRegionFromName | backend/server.js:607-621 | the region is one of five; each is given exactly when the lower-cased name mentions one of its keywords and none of an earlier group |
| ServerHelpers.RegionIgnoresCase | backend/server.js:608 | a name and its lower-cased form get the same region |
| ServerHelpers.OtherMeansNoKeyword | backend/server.js:607-621 | 'other' is given exactly to the names that mention no keyword of any group |
| ServerHelpers.MentionsAnyAppend | backend/server.js:610-616 | a name mentions a keyword of two joined groups exactly when it mentions one of either group |
| ServerHelpers.FirstUnitMatch | backend/server.js:628-630 | the position is the leftmost where a digit run followed by the unit letter starts, or -1 when there is none |
| ServerHelpers.UnitValue | backend/server.js:628-633 | the amount is the number written by the leftmost match, or 0 when the unit does not occur after digits |
| ServerHelpers.FirstMatchTakesWholeNumber | backend/server.js:628-633 | the leftmost match starts a digit run, so the whole number is read ("12d" gives 12, not 2) |
| ServerHelpers.OffsetOfHoursAndMinutes | backend/server.js:625-635 | "2h 26m ago" lies 146 minutes in the past |
| ServerEvents.DashNonLowerAlnum | backend/server.js:588 | every character outside `[a-z0-9]` becomes one dash, the rest stay, and the length is kept |
| ServerEvents.EventId | backend/server.js:588 | the id has only lower-case letters, digits and dashes, and as many characters as the lower-cased name |
| ServerEvents.EventOf | backend/server.js:585-596 | the event's logo is its file and its date is '2025' |
| ServerEvents.Events | backend/server.js:583-596 | one event per `.png` other than the sentinel logo, in listing order |
| ServerEvents.AsciiIdKeepsLength | backend/server.js:588 | for an ASCII name the id is exactly as long as the name |
| ServerEvents.EventIdIdempotent | backend/server.js:588 | an id is its own id |
| ServerEvents.IdDoesNotCollapse | backend/server.js:588 | runs are not collapsed: "a  b" gives "a--b" and "a b" gives "a-b" |
| ServerEvents.EventsFromLogos | backend/server.js:583-596 | every event comes from a logo file of the listing, never from the sentinel, and has one of the five regions |
| ServerEvents.NameOfLogo | backend/server.js:586-589 | a file "stem.png" with no other ".png" is listed under the name "stem" |
| ServerFavorites.IndexOfTeam | backend/server.js:479-488 | the index is that of a stored team with the id and of no earlier one, or -1 exactly when no stored team has the id |
| ServerFavorites.FoundTeamIsOnly | backend/server.js:488-490 | with unique ids the team found is the only one with that id |
| ServerFavorites.FavoritesStore.constructor | backend/server.js:473 | the list starts empty, so its ids are unique |
| ServerFavorites.FavoritesStore.AddFavorite | backend/server.js:477-483 | the team is appended exactly when its id is new, the list is unchanged otherwise, ids stay unique and the answer is the same either way |
| ServerFavorites.FavoritesStore.SaveSettings | backend/server.js:486-495 | 404 and no change exactly for an unknown id; otherwise 200 and that one team gets the settings as sent, `undefined` when the body has none |
| ServerFavorites.AddKeepsIdsUnique | backend/server.js:477-483 | adding keeps ids unique, leaves the id stored, and adding the same id again is a no-op |
| ServerFavorites.SaveTouchesOneTeam | backend/server.js:488-490 | saving settings keeps every id and name and every other team, and sets that team's settings |
| ServerMatches.KeyedMap | backend/server.js:42-46 | every value is a listed file stored under its own key, and every listed file's key is present |
| ServerMatches.KeyedMapKeepsLast | backend/server.js:42-46 | each key holds the last listed file with that key |
| ServerMatches.TournamentLogo | backend/server.js:40-58 | the logo is a listed `.png` other than the sentinel whose name minus ".png", lower-cased, is the lower-cased tournament name, or the sentinel exactly when there is none |
| ServerMatches.TournamentLogoIsLast | backend/server.js:42-58 | when several files share the key, the one listed last is chosen |
| ServerMatches.SentinelNeverMapped | backend/server.js:41-46 | the sentinel is never a value of the logo map |
| ServerMatches.MatchId | backend/server.js:54 | the id is never empty: the match's own id when truthy, else its match page when truthy, else the team-team-tournament text |
| ServerMatches.Prepare | backend/server.js:52-66 | preparing keeps the completion time, the time until the match and the tournament name |
| ServerMatches.PrepareAll | backend/server.js:48-66 | each segment match is prepared in place, in order |
| ServerMatches.PrepareIdempotent | backend/server.js:52-66 | preparing a prepared match changes nothing |
| ServerMatches.PreparedFields | backend/server.js:54-61 | a prepared match has an id and a logo, and a completed match has its completion time as its date |
| ServerMatches.StatusFilterKeeps | backend/server.js:68-77 | 'past' keeps exactly the completed matches, 'live' exactly the LIVE ones, 'upcoming' exactly those with a non-LIVE time and no completion, anything else keeps all |
| ServerMatches.UpcomingIsNeitherPastNorLive | backend/server.js:69-77 | no match kept by 'upcoming' is kept by 'past' or by 'live' |
| ServerMatches.DateFilterNeedsCompletion | backend/server.js:79-90 | a date filter drops every match with no completion time, and without one nothing is dropped |
| ServerMatches.PastResponse | backend/server.js:48-71 | the 'past' response is the prepared completed matches of all three segments, in order |
| ServerMatches.Matches | backend/server.js:28-96 | the answer is 500 with the handler's error text exactly when an upstream request or the events folder read fails; otherwise it is the prepared, filtered list |
| ServerMatches.MatchesPast | backend/server.js:28-96 | with `status=past` and no date the answer is the prepared completed matches of all three segments, in order |
| ServerMatches.MatchesKeep | backend/server.js:28-96 | a successful answer holds only prepared upstream matches, each of the requested status, and with a date each has a completion time |
| ServerTeams.ToTeam | backend/server.js:366-373 | id, name and logo are copied; the game defaults to 'Valorant', the region to '-' and a zero or missing rating to the dash |
| ServerTeams.ToTeams | backend/server.js:366-373 | every raw team is converted in place, in order |
| ServerTeams.FetchThroughFullPages | backend/server.js:342-363 | a run of full upstream pages is collected whole and the loop then resumes after it, failing if it fails there |
| ServerTeams.ThrowAfterFullPagesFails | backend/server.js:342-363 | a request that throws after a run of full pages fails the whole fetch |
| ServerTeams.FetchedTeamsComeFromPages | backend/server.js:356-357 | every collected team was in some upstream page that parsed as an array |
| ServerTeams.FetchAllTeams | backend/server.js:338-363 | the `while (hasMore)` loop collects the reference page sequence: pages in turn until one is empty, short or not an array, and fails when a request throws |
| ServerTeams.FilterTeamsAdmits | backend/server.js:316-384 | the two filters keep exactly the teams the query admits, in cache order |
| ServerTeams.RespondTotal | backend/server.js:330-393 | the total counts exactly the cached teams the query admits |
| ServerTeams.RespondPage | backend/server.js:324-389 | for a positive page and size the page holds the admitted teams from (page-1)·per_page on, at most per_page of them |
| ServerTeams.RespondTotalPages | backend/server.js:333-396 | for a positive page size, total_pages is the least number of pages that holds the total |
| ServerTeams.AllPagesCoverTheList | backend/server.js:324-333 | pages 1 to total_pages laid end to end are the admitted teams, each once, in order |
| ServerTeams.NoFilterKeepsEveryTeam | backend/server.js:316-321 | 'all' or a missing filter lets every team through |
| ServerTeams.TeamsCache.constructor | backend/server.js:300-301 | nothing is cached and no update time is set |
| ServerTeams.TeamsCache.HandleTeams | backend/server.js:307-402 | a fresh cache is answered from and kept; otherwise every page is fetched, converted and cached with the current time; either way the answer is the same function of the cached list, so the two branches agree; a request that throws answers 500 and leaves the cache and its time as they were |
| TeamsPage.FilteredTeamsFacts | frontend/src/pages/Teams.tsx:86-98 | a team is listed exactly when its lower-cased name holds the lower-cased search, its game is the chosen one (or 'all') and its region passes; the fetched order is kept |
| TeamsPage.NoFilterKeepsAll | frontend/src/pages/Teams.tsx:86-98 | an empty search with 'all' for game and region keeps every team |
| TeamsPage.SearchIgnoresCase | frontend/src/pages/Teams.tsx:87 | two searches with the same lower case keep the same teams |
| TeamsPage.TrRegion | frontend/src/pages/Teams.tsx:89-97 | 'TR' accepts "TR", "Turkey" and "türk", rejects "TÜRKİYE" (its lower case carries a combining dot) and a missing region; any other choice but 'all' is compared exactly |
| TeamsPage.HasActiveFacts | frontend/src/pages/Teams.tsx:138-141 | active exactly when saved settings exist, are enabled and switch on at least one of the three kinds; the default settings are active |
| TeamsPage.FlagCodeNormalises | frontend/src/pages/Teams.tsx:157-159 | two regions equal after trimming and upper-casing get the same flag |
| TeamsPage.NoRegionNoFlag | frontend/src/pages/Teams.tsx:158-173 | a missing, empty or blank region gets no flag |
| TeamsPage.FlagVia | frontend/src/pages/Teams.tsx:159-173 | the flag is the table's code for the trimmed upper-cased region, or none when the table lacks that key |
| TeamsPage.FlagOfUkExample | frontend/src/pages/Teams.tsx:159-173 | " uk " gets the British flag |
| TeamsPage.FlagOfGbExample | frontend/src/pages/Teams.tsx:166 | "gb" gets the British flag |
| TeamsPage.FlagOfNaExample | frontend/src/pages/Teams.tsx:162 | "na" gets the American flag |
| TeamsPage.FlagOfUnknownExample | frontend/src/pages/Teams.tsx:173 | a region outside the table gets no flag |
| TeamsPage.TurkiyeHasNoKey | frontend/src/pages/Teams.tsx:159-161 | "türkiye" upper-cases to "TÜRKIYE" with a dotless I, which is not a key of the table, so it gets no flag |
| TeamsPage.TeamsView.constructor | frontend/src/pages/Teams.tsx:44-60 | favourites and settings start as stored, else empty; no team selected, the default settings being edited, the dialog closed |
| TeamsPage.TeamsView.ToggleFavorite | frontend/src/pages/Teams.tsx:100-111 | the toggled list goes to the state and the same list to storage; nothing else changes |
| TeamsPage.TeamsView.OpenSettings | frontend/src/pages/Teams.tsx:113-123 | the dialog opens on the team with its saved settings, or the defaults |
| TeamsPage.Edited | frontend/src/pages/Teams.tsx:330-376 | each dialog control changes only its own field, to the chosen value; the controls other than "enabled" do nothing while notifications are off |
| TeamsPage.TeamsView.EditSettings | frontend/src/pages/Teams.tsx:330-376 | a control of the open dialog edits the settings being edited and nothing else |
| TeamsPage.TeamsView.SaveSettings | frontend/src/pages/Teams.tsx:125-136 | with a team selected, the edited settings replace its entry in state and storage alike; the dialog closes either way |
| TeamsPage.SaveReplacesOne | frontend/src/pages/Teams.tsx:125-141 | saving keeps every other team's settings and active state, and the saved team is active exactly when its new settings say so |
| TeamsPage.OpenThenSave | frontend/src/pages/Teams.tsx:113-136 | opening a dialog and saving it unchanged keeps the settings, only filling in the defaults for a team with none |
| Seqs.Toggled | frontend/src/pages/Teams.tsx:102-108 | the list without the id when it holds it, else the list with the id appended |
| Seqs.ToggledFlips | frontend/src/pages/Teams.tsx:100-111 | a toggle flips the id's membership and keeps every other id in order; toggling a new id twice gives back the list |
| UserSlice.Merge | frontend/src/store/slices/userSlice.ts:38 | each key the payload has replaces that key whole, and every other key keeps its value |
| UserSlice.UserStore.constructor | frontend/src/store/slices/userSlice.ts:19-31 | language 'tr', dark theme, all three flags on, not loading and no error |
| UserSlice.UserStore.SetPreferences | frontend/src/store/slices/userSlice.ts:37-39 | the preferences are merged with the payload and nothing else changes |
| UserSlice.UserStore.SetLoading | frontend/src/store/slices/userSlice.ts:40-42 | the loading flag is set and nothing else changes |
| UserSlice.UserStore.SetError | frontend/src/store/slices/userSlice.ts:43-45 | the error is set and nothing else changes |
| UserSlice.MergeLaws | frontend/src/store/slices/userSlice.ts:37-39 | an empty payload changes nothing, repeating a payload changes nothing more, and two payloads in turn act as their combination |
| UserSlice.MergeIsShallow | frontend/src/store/slices/userSlice.ts:38 | a notifications payload replaces all three flags at once and leaves the language alone |
| WebNotificationService.HexDigit | frontend/src/services/notificationService.ts:12 | a nibble gives one lower-case hexadecimal digit |
| WebNotificationService.FillSlots | frontend/src/services/notificationService.ts:10 | the replacement keeps the template's length |
| WebNotificationService.FillSlotAt | frontend/src/services/notificationService.ts:10-13 | each `x` or `y` is filled by its own call, numbered by the slots before it, and every other character stays |
| WebNotificationService.VariantDigit | frontend/src/services/notificationService.ts:11 | a `y` slot always becomes one of 8, 9, a, b |
| WebNotificationService.UuidLayout | frontend/src/services/notificationService.ts:9-14 | whatever the random draws, the id has the version-4 UUID layout of RFC 4122 section 4.4: 36 characters, dashes at 8, 13, 18 and 23, '4' at 14, one of 8, 9, a, b at 19, lower-case hexadecimal elsewhere |
| WebNotificationService.SlotFilled | frontend/src/services/notificationService.ts:10-13 | a filled `x` is a hexadecimal digit, a filled `y` one of 8, 9, a, b, and any other character is kept |
| WebNotificationService.BrowserStorage.constructor | frontend/src/services/notificationService.ts:16-41 | the two entries start as given |
| WebNotificationService.GetAnonUserId | frontend/src/services/notificationService.ts:16-23 | a stored non-empty id is returned and kept; otherwise a fresh UUID is stored and returned; the result is never empty |
| WebNotificationService.AnonIdIsStable | frontend/src/services/notificationService.ts:16-23 | two calls in a row return the same id whatever the random draws |
| WebNotificationService.NotificationService.constructor | frontend/src/services/notificationService.ts:26-29 | the field initialisers: no socket, no attempts or scheduled reconnects, nothing sent, toasted or closed. The source constructor then calls `initializeWebSocket()` and `loadPreferences()` (lines 31-34); the model makes those two separate method calls |
| WebNotificationService.NotificationService.InitializeWebSocket | frontend/src/services/notificationService.ts:61-120 | the socket is opened for the store's user id, else for the never-empty anonymous id, so the no-id exit is never taken; a throwing constructor leaves the socket as it was |
| WebNotificationService.NotificationService.OnOpen | frontend/src/services/notificationService.ts:72-84 | the socket is now open, the attempt counter is reset and the store's preferences are sent over it; without a socket nothing is sent |
| WebNotificationService.NotificationService.OnMessage | frontend/src/services/notificationService.ts:86-107 | a parsed item whose type the preferences switch on goes first in the store and is toasted; anything else changes nothing; the store's count stays true |
| WebNotificationService.NotificationService.OnClose | frontend/src/services/notificationService.ts:109-130 | the socket is now closed; a reconnect is scheduled and counted only while fewer than five were tried, so the counter never exceeds five |
| WebNotificationService.NotificationService.UpdatePreferences | frontend/src/services/notificationService.ts:132-155 | after a successful PUT the store gets the preferences, an open socket is sent them and they are saved; after a failed one nothing changes but the error toast |
| WebNotificationService.NotificationService.LoadPreferences | frontend/src/services/notificationService.ts:37-59 | a backend answer with preferences wins and is saved; without one the saved preferences stay applied; a failed request applies and saves what the store then holds |
| WebNotificationService.NotificationService.Disconnect | frontend/src/services/notificationService.ts:176-181 | a present socket is closed once and dropped; without one nothing happens |
| WebNotificationService.DisconnectTwice | frontend/src/services/notificationService.ts:176-181 | a second disconnect closes nothing more |
| WebNotificationService.OpenThenUpdate | frontend/src/services/notificationService.ts:72-155 | once a socket has opened, a successful update sends the new preferences over it, after the ones the opening sent |

## Left out

- HTTP, WebSocket and socket.io plumbing: every request is replaced by its outcome, which is a parameter of the operation that makes it.
- The thin wrappers in frontend/src/services/notificationService.ts are not modelled, because each is one request with no logic of its own. They are `getNotificationHistory`, `markAsRead`, `sendNotification`, `getNotifications`, `markNotificationAsRead` and `deleteNotification`.
- `handleNotificationSettings` and `saveNotificationSettings` in frontend/src/pages/Matches.tsx (lines 576-620) are left out. They write React state and `localStorage`; when notifications are switched on, `saveNotificationSettings` also plays a sound and shows a browser notification, and otherwise it shows a toast. Their key, `uniqueKey`, is modelled, and so are the settings normalisation and the reading of these keys in Notifications.tsx.
- `simulateNotification` in frontend/src/pages/Teams.tsx (lines 143-153) is left out. It shows a toast and dispatches `addNotification` with an unread item whose id includes `Date.now()`. That store effect is one call of `NotificationSlice.NotificationStore.AddNotification`, which is modelled; the page's own step adds only the clock-based id.
- `loadUserPreferences` in frontend/src/components/NotificationSettings.tsx (lines 25-41) is left out. It reads `localStorage.getItem('notificationPreferences')`, `JSON.parse`s it and dispatches `updatePreferences` with the result. A missing or empty entry changes nothing, and a parse failure only logs an error and clears the loading flag. With `JSON.parse` a parameter, what is left is one call of `NotificationSlice.NotificationStore.UpdatePreferences`, which is modelled, so the effect adds no logic of its own.
- Dates, time zones and `toLocaleString` are left out. `parseTimeCompleted` is modelled as its minute offset only, and the date-range filter of `/api/matches` as "a match without `time_completed` is dropped".
- The date filter of `/api/matches` also checks that `time_completed` is a string. The model's field is always a string when present, so that check is not modelled separately.
- The 500 answer of `/api/events` when the events folder cannot be read is not modelled: it depends on a filesystem failure.
- `JSON.parse` is not modelled as a function: its result is a parameter. A parse failure in the mobile service's initial load is not modelled. Neither is a parse failure in the web service's `loadPreferences` beyond falling back to the defaults.
- Random choices are taken as input: `Math.random()` digits, the drawn message index and the UUID nibbles. On the UUID only the version-4 layout of section 4.4 of RFC 4122 is proved.
- `NotificationsPage.ScanLocalNotifications`: the item the scan builds, `matchNotificationItem`, is never read or rendered by the page. The model states what the item is, not that it is displayed.
- `NotificationsPage.LocalMessage`: for an index outside the message pool the code would call `replace` on `undefined` and throw, while the model gives "". No such index is drawn, because `Math.floor(Math.random() * length)` is below the pool's size.
- `DownloadEvents.ScrapeAllEventLogos`: the log records the per-page, per-file and final lines. The fixed banner lines "Etkinlik sayfası açılıyor..." and "🎉 İşlem tamamlandı." are not in it.
- `ServerTeams.FetchAllTeams` and `DownloadEvents.ScrapeAllEventLogos`: the upstream pages are a finite sequence, and a page past its end reads as not an array (teams) or as empty (events). The model thus assumes the upstream runs out of pages. Against an upstream that never returns an empty or short page, the `while (hasMore)` and `while (true)` loops of the code would not end.
- `ServerTeams.TeamsQuery`: `page` and `per_page` are integers. The handler reads them as query strings, so non-numeric text (`page=abc` gives NaN, an empty `teams` list and `page: null` in the answer) and fractional values are not captured, nor is the difference between `*`/`-` coercion and `parseInt` on such text.
- Text length and regular-expression classes count UTF-16 code units in JavaScript, but the model counts code points. `RegisterPage.FormErrors` therefore differs for astral characters: "😀😀😀" has JavaScript length 6 and passes the six-character password check, while the model counts 3. `ServerEvents.DashNonLowerAlnum` turns one astral character into "--" in JavaScript and into "-" in the model.
- `MatchValidation.ValidateMatches`: the body is a list of objects. A body that is not an array, or a `null` element, makes `matches.map(...)` or `match.id` throw a TypeError in the code rather than 'Geçersiz maç verisi'; neither is modelled.
- `MatchValidation.ValidateMatch`: the id is a string or missing. A numeric id that is truthy also passes in the code; that case is not modelled.
- `MatchRetry.ParseInt`: the value is an exact integer. JavaScript rounds values beyond 2^53, and "-0" gives -0, which the model cannot tell from 0.
- `MatchesPage.Fill`: the replacement text is inserted literally. The `$&`, `$1` and `$$` patterns that `String.prototype.replace` expands in a team name are not modelled.
- `ServerMatches.TournamentLogo`: `logoFiles` is modelled as a map holding only the listing's keys. A tournament named after an `Object.prototype` member, such as "constructor", would find that inherited value in the code.
- `ServerFavorites.TeamId`: an id is an integer, a string or absent. The body's `teamId` can be any JSON value. `null`, `true` and fractional numbers are not modelled. Neither are objects and arrays, which are never `===` to a stored id, so each such POST to `/api/favorites` appends another entry and each settings POST with one answers 404.
- `WebNotificationService.Admits`: a type is admitted only when it is a key of the preferences and that key is on. In the code `preferences[type]` also finds inherited `Object.prototype` members: a message of type "constructor" or "toString" reads a function, which is truthy, so the code stores and toasts it.
- `Wrappers.Show`: a missing value is shown as "undefined", as a template literal shows `undefined`. A field that holds JSON `null` shows as "null" in the code; the model does not tell `null` from a missing field.
- Image processing with sharp, the puppeteer scraping, HTTPS downloads and `shutil.copy2` metadata are foreign calls. A copy or write is a map update, and an image transform a failure flag per file.
- Timers and concurrency are not modelled: the live notifier, the periodic status check, `setTimeout` reconnects and `Promise.all`. The reconnect delay is reduced to the attempt counter.
- Rendering, styles, navigation and i18n lookups (modelled as their default Turkish texts) are not modelled. Toasts are recorded only for the web notification service (`WebNotificationService.NotificationService.toasts`). The toasts of the pages are not modelled: the favourite toggles of Teams.tsx and Matches.tsx, the settings save of Teams.tsx, the clear-all of Notifications.tsx and the empty-result toast of Matches.tsx.
- Unicode case mapping is modelled for ASCII and the Turkish letters only. A character outside these is unchanged by lower- and upper-casing (no 'ß' to "SS", for example).
- Listing order is an arbitrary input sequence, and file names are compared exactly, as on a case-sensitive filesystem.
- `NotificationSlice.NotificationStore.RemoveNotification` keeps the count invariant only when ids are unique, as the code does. `NotificationSlice.DuplicateIdsDrift` shows the drift otherwise.

## Findings

| source | as written | input that shows it | evidently intended | confidence | as-written member | corrected member |
|---|---|---|---|---|---|---|
| frontend/src/components/NotificationSettings.tsx:52-57 | every preference is set to `!allDisabled`, so an all-off object stays all off and any other object is switched all on | preferences {matchStart: false, scoreChange: false, matchEnd: false}: the button reads "Tüm Bildirimleri Aç" and pressing it leaves every preference off | every preference set to `allDisabled`: all on when all were off, all off otherwise, as the button's label says | not executed | NotificationSettingsPanel.TurnAllOnDoesNothing | NotificationSettingsPanel.ToggleAllFollowsLabel |

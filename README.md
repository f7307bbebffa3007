# Match suggestions: a verified model

This project models the match-suggestion logic of a student-networking app built on a hosted Postgres backend. It covers three parts.

- **The `get-match-suggestions` edge function.** It authenticates the caller and loads the caller's profile, every other profile, the caller's match rows and the block rows in both directions. It stops at the first failing read. Then it ranks the remaining candidates:
  - candidates already matched with the caller are dropped;
  - candidates on either side of a block with the caller are dropped;
  - each remaining candidate scores two points per shared academic interest token and one per shared non-academic token;
  - candidates are sorted by score, highest first, with a stable sort.
- **The discover page.** It fetches the suggestions, shows each card's interests and age, and removes a user from the list after a connect or block succeeds.
- **The profile editor.** It loads the caller's row into a form, edits one field at a time, and writes the normalised form back as an update or an insert.

Layout:

- `schema.dfy` (module `Schema`): the table rows, `Option`, `Result`, and `Filter` (JavaScript's `Array.prototype.filter`).
- `text.dfy` (module `Text`): `split(',')`, `trim()`, `toLowerCase()` and `join(',')`.
- `ranker.dfy` (module `MatchSuggestions`): the exclusion sets, the ranker's interest parser, the shared-interest counts, the score, and the stable descending sort.
- `handler.dfy` (module `SuggestionHandler`): the request handler, its reads as filters over a snapshot of the tables, and the chain that stops at the first error.
- `discover.dfy` (module `Discover`): the display parser, the age rule, the suggestion removal, and the `DiscoverPage` component as a class.
- `profile_editor.dfy` (module `ProfileEditing`): the form, the row-to-form and form-to-row mappings, the save condition, and the `ProfileEditor` component as a class.

The backend is a parameter of the model, never a call:

- For the edge function, the backend is a `Tables` value plus the set of calls that return an error.
- For the components, each SDK call is a parameter giving its outcome: `InvokeOutcome`, an insert-failed flag, `ProfileFetch`, or a write-failed flag.

The two interest parsers differ on empty tokens. The ranker's parser (`supabase/functions/get-match-suggestions/index.ts:109`, `:125`) keeps them, so `"AI, ,ML"` gives `["ai", "", "ml"]`. The display parser (`src/components/DiscoverPage.tsx:147`) drops them. `MatchSuggestions.BlankPieceKept` and `MatchSuggestions.TrailingCommasShareEmptyToken` state what keeping them means for the score. Re-parsing the joined tokens gives them back for the display parser (`Discover.ParseInterestsIdempotent`) but not always for the ranker's (`MatchSuggestions.BlankFieldNotIdempotent`).

## Model

| member | source | states |
|---|---|---|
| Schema.Filter | supabase/functions/get-match-suggestions/index.ts:118-122 | The result is no longer than the input. Every kept row satisfies the predicate and comes from the input. Every input row that satisfies it is kept. |
| Schema.FilterIsSubsequence | src/components/DiscoverPage.tsx:86 | The filter keeps the input order: its result is a subsequence of the input. |
| Schema.FilterMultiset | supabase/functions/get-match-suggestions/index.ts:133-135 | The filter keeps each wanted value exactly as often as it occurs and never adds any. |
| Text.IsWhitespace | supabase/functions/get-match-suggestions/index.ts:109 | The characters `trim` strips: ECMAScript's WhiteSpace and LineTerminator code points. Space, TAB and LF are among them; a comma and the ASCII letters are not. |
| Text.Trim | supabase/functions/get-match-suggestions/index.ts:109 | `trim` returns a contiguous slice of its input whose two ends are not whitespace. Everything cut on either side is whitespace. |
| Text.TrimStartCutsWhitespace | supabase/functions/get-match-suggestions/index.ts:109 | Cutting the front of a string removes only whitespace and leaves a suffix that does not start with whitespace. |
| Text.TrimEndCutsWhitespace | supabase/functions/get-match-suggestions/index.ts:109 | Cutting the back of a string removes only whitespace and leaves a prefix that does not end with whitespace. |
| Text.TrimEmptyIff | src/components/ProfileEditor.tsx:246 | The trimmed text is empty exactly when the input is all whitespace. |
| Text.TrimIdempotent | supabase/functions/get-match-suggestions/index.ts:109 | Trimming twice is trimming once. |
| Text.ToLower | supabase/functions/get-match-suggestions/index.ts:109 | `toLowerCase` keeps the length and maps each character by the case mapping. |
| Text.ToLowerChar | supabase/functions/get-match-suggestions/index.ts:109 | Mapping one character keeps whether it is whitespace, never yields an upper-case ASCII letter, and changes only upper-case ASCII letters (the ASCII-only case mapping). |
| Text.ToLowerFacts | supabase/functions/get-match-suggestions/index.ts:109 | The result has no upper-case ASCII letters. Lower-casing is idempotent, keeps trimmedness, and does not change text without upper-case ASCII letters (the ASCII-only case mapping). |
| Text.Split | supabase/functions/get-match-suggestions/index.ts:109 | `split(',')` always yields at least one piece, so `""` gives `[""]`. |
| Text.SplitShape | supabase/functions/get-match-suggestions/index.ts:109 | There is one piece more than there are commas, and no piece contains a comma. |
| Text.JoinSplit | supabase/functions/get-match-suggestions/index.ts:109 | Joining the pieces with commas rebuilds the original string. |
| Text.SplitJoin | supabase/functions/get-match-suggestions/index.ts:109 | Splitting a comma-join of comma-free pieces gives the pieces back. |
| Text.JoinThenSplit | supabase/functions/get-match-suggestions/index.ts:109 | A list of comma-free tokens, other than `[]` and `[""]`, joins to a non-empty string that splits back into the same tokens. |
| MatchSuggestions.MatchedIds | supabase/functions/get-match-suggestions/index.ts:93-97 | For each match row the set holds `user2` when `user1` is the caller, and `user1` otherwise. It holds nothing else. |
| MatchSuggestions.IdSet | supabase/functions/get-match-suggestions/index.ts:99-105 | `new Set(ids)` holds exactly the listed ids and is no larger than the list. |
| MatchSuggestions.OtherParty | supabase/functions/get-match-suggestions/index.ts:95 | For a match row that involves the caller, the caller and the returned id are the row's two users. |
| MatchSuggestions.Eligible | supabase/functions/get-match-suggestions/index.ts:117-122 | The kept candidates are exactly the fetched ones in none of the three exclusion sets. |
| MatchSuggestions.Normalize | supabase/functions/get-match-suggestions/index.ts:109 | A normalised piece is trimmed and lower case, and comma-free when the piece was. |
| MatchSuggestions.NormalizeAll | supabase/functions/get-match-suggestions/index.ts:109 | There is one normalised token per piece, in the same order. |
| MatchSuggestions.InterestTokens | supabase/functions/get-match-suggestions/index.ts:107-114 | Null or `""` gives no tokens. Otherwise there is one token per piece, so commas + 1 tokens; token i is piece i trimmed and lower-cased. Every token is trimmed, lower case and comma-free. Empty pieces are kept. |
| MatchSuggestions.BlankPieceKept | supabase/functions/get-match-suggestions/index.ts:124-130 | A piece holding only whitespace becomes an empty token at its own position. |
| MatchSuggestions.ReparseTokens | supabase/functions/get-match-suggestions/index.ts:108-110 | Re-parsing the comma-joined tokens gives them back, except for a field of blanks, whose single empty token is lost. |
| MatchSuggestions.BlankFieldNotIdempotent | supabase/functions/get-match-suggestions/index.ts:108-110 | `" "` parses to `[""]`, and re-parsing its join gives `[]`: the ranker's parser is not idempotent. |
| MatchSuggestions.SharedTokens | supabase/functions/get-match-suggestions/index.ts:133-139 | Every shared token is one of the caller's and one of the candidate's, and every caller token the candidate lists is shared. |
| MatchSuggestions.SharedCount | supabase/functions/get-match-suggestions/index.ts:133-139 | The count lies between 0 and the length of the caller's list. It is 0 exactly when none of the caller's tokens occurs among the candidate's, and the full length exactly when all of them do. |
| MatchSuggestions.SharedTokensMultiset | supabase/functions/get-match-suggestions/index.ts:133-135 | The shared list repeats a token as often as the caller lists it if the candidate lists it at all, and otherwise never. |
| MatchSuggestions.FilterKeepsAll | supabase/functions/get-match-suggestions/index.ts:133-135 | A filter keeps the full length exactly when every element passes. |
| MatchSuggestions.FilterKeepsNone | supabase/functions/get-match-suggestions/index.ts:133-135 | A filter yields nothing exactly when no element passes. |
| MatchSuggestions.Score | supabase/functions/get-match-suggestions/index.ts:142 | The score is a natural number no greater than twice the caller's academic token count plus the non-academic count. It is zero exactly when both shared counts are zero. |
| MatchSuggestions.NoInterestsScoreZero | supabase/functions/get-match-suggestions/index.ts:142 | A caller with null or empty interest fields scores 0 against every candidate. |
| MatchSuggestions.TrailingCommaGivesEmptyToken | supabase/functions/get-match-suggestions/index.ts:125 | A field ending in a comma yields an empty last token. |
| MatchSuggestions.TrailingCommasShareEmptyToken | supabase/functions/get-match-suggestions/index.ts:124-139 | Two fields that both end in a comma share at least one token, the empty one. |
| MatchSuggestions.ScoreAll | supabase/functions/get-match-suggestions/index.ts:123-148 | Each record is its input profile, unchanged, with that profile's score added; length and order are kept. |
| MatchSuggestions.WithScoreMembers | supabase/functions/get-match-suggestions/index.ts:149 | The records with score k are exactly the input records whose score is k. |
| MatchSuggestions.Insert | supabase/functions/get-match-suggestions/index.ts:149 | Inserting into a non-increasing list keeps it non-increasing and adds exactly the new record. |
| MatchSuggestions.InsertWithScore | supabase/functions/get-match-suggestions/index.ts:149 | The inserted record lands in front of every record with its own score. |
| MatchSuggestions.SortByScore | supabase/functions/get-match-suggestions/index.ts:149 | The scores never increase, and the result is a permutation of the input. |
| MatchSuggestions.SortStable | supabase/functions/get-match-suggestions/index.ts:149 | For every score, the records with that score keep their input order. |
| MatchSuggestions.HeadHasTopScore | supabase/functions/get-match-suggestions/index.ts:149 | The first record has the highest score of all. |
| MatchSuggestions.EqualScoresKeepOrder | supabase/functions/get-match-suggestions/index.ts:149 | When every score is equal, the sort returns its input unchanged. |
| MatchSuggestions.StableArrangementUnique | supabase/functions/get-match-suggestions/index.ts:149 | Two non-increasing lists that keep the same per-score order are equal. |
| MatchSuggestions.SortIsTheStableArrangement | supabase/functions/get-match-suggestions/index.ts:149 | Any non-increasing arrangement that keeps the input order within each score is exactly the sort's result. |
| MatchSuggestions.Rank | supabase/functions/get-match-suggestions/index.ts:117-149 | Every returned record is a fetched profile. It is in no exclusion set, and it carries its own score against the caller. |
| MatchSuggestions.RankOrder | supabase/functions/get-match-suggestions/index.ts:117-149 | The ranking is a permutation of the scored eligible candidates. Its scores never increase, and equal scores keep fetch order. |
| MatchSuggestions.RankComplete | supabase/functions/get-match-suggestions/index.ts:117-122 | Every fetched candidate in no exclusion set appears in the ranking with its score. |
| MatchSuggestions.NoInterestsFetchOrder | supabase/functions/get-match-suggestions/index.ts:149 | A caller with no interests gets every eligible candidate with score 0, in fetch order. |
| SuggestionHandler.Handle | supabase/functions/get-match-suggestions/index.ts:17-168 | An OPTIONS request is answered as a preflight before anything else, and no other request is. The status is 400 exactly for an error response. |
| SuggestionHandler.Status | supabase/functions/get-match-suggestions/index.ts:151-167 | The status is 200 or 400, and 400 exactly for an error response. |
| SuggestionHandler.Message | supabase/functions/get-match-suggestions/index.ts:37-90 | Each step throws a fixed, non-empty message. |
| SuggestionHandler.ProfilesOf | supabase/functions/get-match-suggestions/index.ts:42-46 | The result holds exactly the table's rows whose user id is the caller's. |
| SuggestionHandler.OtherProfiles | supabase/functions/get-match-suggestions/index.ts:53-56 | The result holds exactly the table's rows whose user id is not the caller's. |
| SuggestionHandler.MatchesOf | supabase/functions/get-match-suggestions/index.ts:63-66 | The result holds exactly the match rows with the caller on either side. |
| SuggestionHandler.BlockedByMe | supabase/functions/get-match-suggestions/index.ts:73-76 | Each returned id is the blocked side of a block row whose blocker is the caller. |
| SuggestionHandler.BlockersOfMe | supabase/functions/get-match-suggestions/index.ts:83-86 | Each returned id is the blocker side of a block row whose blocked user is the caller. |
| SuggestionHandler.Authenticated | supabase/functions/get-match-suggestions/index.ts:35-39 | Authentication succeeds exactly when the call does not fail and a user comes back; it yields that user. Otherwise it fails with the authentication message. |
| SuggestionHandler.CurrentProfile | supabase/functions/get-match-suggestions/index.ts:42-50 | `.single()` succeeds exactly when the call does not fail and exactly one row has the caller's id; that row is the caller's and comes from the table. Otherwise it fails with the profile message. |
| SuggestionHandler.SuggestFor | supabase/functions/get-match-suggestions/index.ts:52-149 | After the caller's profile is found, the rest succeeds exactly when none of the four reads fails. An error carries the message of a read that failed. |
| SuggestionHandler.Suggest | supabase/functions/get-match-suggestions/index.ts:23-149 | The `try` block succeeds only when the caller is authenticated, their profile is found and the four reads succeed. |
| SuggestionHandler.SuggestWhenAllPass | supabase/functions/get-match-suggestions/index.ts:42-149 | When no read fails, a single current profile exists and the handler returns the ranking computed from the tables. |
| SuggestionHandler.FirstFailureDecides | supabase/functions/get-match-suggestions/index.ts:37-90 | The earliest failing step, in the handler's order, decides the one error message, with status 400. |
| SuggestionHandler.LoadFailureDecides | supabase/functions/get-match-suggestions/index.ts:52-90 | Once the caller and their profile are known, the earliest failing table read decides the error message. |
| SuggestionHandler.MessagesDistinct | supabase/functions/get-match-suggestions/index.ts:37-90 | Each of the six error messages belongs to one step only. |
| SuggestionHandler.SucceedsIffNoStepFails | supabase/functions/get-match-suggestions/index.ts:37-167 | A non-OPTIONS request gets suggestions exactly when none of the six steps fails. |
| SuggestionHandler.MatchedIdsAreMatched | supabase/functions/get-match-suggestions/index.ts:62-97 | An id is in the matched set exactly when some match row links it with the caller, either way round. |
| SuggestionHandler.BlockedByMeRows | supabase/functions/get-match-suggestions/index.ts:72-101 | An id is in the blocked set exactly when a block row has the caller as blocker and that id as blocked. |
| SuggestionHandler.BlockersOfMeRows | supabase/functions/get-match-suggestions/index.ts:82-105 | An id is in the blocked-by set exactly when a block row has that id as blocker and the caller as blocked. |
| SuggestionHandler.BlockSetsAreBlocks | supabase/functions/get-match-suggestions/index.ts:72-105 | An id is in one of the two block sets exactly when a block row lies between it and the caller, in either direction. |
| SuggestionHandler.SuggestionsAreEligible | supabase/functions/get-match-suggestions/index.ts:53-149 | A successful response lists only stored profiles that are not the caller's, not matched with the caller and not blocked either way, in non-increasing score order. |
| SuggestionHandler.EligibleAreSuggested | supabase/functions/get-match-suggestions/index.ts:53-149 | Every eligible profile is in a successful response, with its score against the caller's profile. |
| SuggestionHandler.ConnectedUserNotSuggested | supabase/functions/get-match-suggestions/index.ts:62-122 | Once a match row links the caller with a user, in either direction, that user is never suggested. |
| SuggestionHandler.BlockHidesBothWays | supabase/functions/get-match-suggestions/index.ts:72-122 | A block row between the caller and a user, in either direction, keeps that user out of the suggestions. |
| Discover.TrimmedPieces | src/components/DiscoverPage.tsx:147 | There is one piece per comma-separated piece, and piece i is that piece trimmed. Every piece is trimmed and comma-free. |
| Discover.ParseInterests | src/components/DiscoverPage.tsx:146-148 | Null and `""` give `[]`. Every token is non-empty, trimmed and comma-free. |
| Discover.ParseInterestsPieces | src/components/DiscoverPage.tsx:147 | The tokens are the trimmed pieces in their original order. Each non-empty trimmed piece is kept as often as it occurs. A piece appears exactly when it is not all whitespace. |
| Discover.ParseInterestsKeepsCase | src/components/DiscoverPage.tsx:147 | A trimmed single token such as `"AI"` is shown as it is, case included. |
| Discover.LowerAllDropEmpty | src/components/DiscoverPage.tsx:147 | Lower-casing and then dropping empty tokens is the same as dropping and then lower-casing. |
| Discover.DisplayAndRankerAgree | src/components/DiscoverPage.tsx:147 | The display tokens, lower-cased, are the ranker's tokens with the empty ones removed. |
| Discover.ParseInterestsIdempotent | src/components/DiscoverPage.tsx:146-148 | Parsing the comma-join of the display tokens gives the same tokens. |
| Discover.CalculateAge | src/components/DiscoverPage.tsx:133-144 | The age is the year difference or one less. It is one less exactly when today's (month, day) comes before the birth (month, day), so the birthday itself counts. The age is the number of birthdays already reached. |
| Discover.RemoveSuggestion | src/components/DiscoverPage.tsx:86 | No suggestion for the target remains, and every other suggestion is kept. |
| Discover.RemoveSuggestionKeepsOthers | src/components/DiscoverPage.tsx:120 | The other suggestions keep their order and their multiplicity. |
| Discover.RemoveSuggestionIdempotent | src/components/DiscoverPage.tsx:86 | Removing twice is removing once. Removing an absent user changes nothing. |
| Discover.DiscoverPage.constructor | src/components/DiscoverPage.tsx:26-29 | The page starts with no suggestions, loading, and no pending action. |
| Discover.DiscoverPage.FetchSuggestions | src/components/DiscoverPage.tsx:38-63 | With no user nothing changes. Otherwise a reply sets the list, with a missing list taken as empty; an error keeps the old list; loading ends either way. |
| Discover.DiscoverPage.HandleConnect | src/components/DiscoverPage.tsx:65-97 | With no user nothing is sent or changed. Otherwise the match row (user, target) is sent. On success the target leaves the list; on failure the list is unchanged. No action is pending afterwards. |
| Discover.DiscoverPage.HandleBlock | src/components/DiscoverPage.tsx:99-131 | As HandleConnect, but the block row (user blocks target) is sent. |
| ProfileEditing.WithField | src/components/ProfileEditor.tsx:86-91 | The edited field takes the new value; every other field keeps its value. |
| ProfileEditing.WithFieldLaws | src/components/ProfileEditor.tsx:86-91 | Writing a field's own value changes nothing, and the later of two writes to one field wins. |
| ProfileEditing.OrEmpty | src/components/ProfileEditor.tsx:66-71 | The empty-string fallback maps null to the empty string and keeps any string. |
| ProfileEditing.FormFromRow | src/components/ProfileEditor.tsx:65-72 | Each form field shows its column's value, with null shown as empty. |
| ProfileEditing.NullIfBlank | src/components/ProfileEditor.tsx:103 | The trimmed input, or null when that is empty: it is null exactly when the text is all whitespace, and otherwise the non-empty trimmed text. |
| ProfileEditing.BuildProfileData | src/components/ProfileEditor.tsx:100-108 | The payload carries the caller's id, the trimmed username and the birthdate as typed. Each optional field is null when blank and trimmed otherwise. |
| ProfileEditing.CleanTextRoundTrip | src/components/ProfileEditor.tsx:67-71 | A null or non-empty trimmed column survives being loaded into the form and saved. |
| ProfileEditing.LoadSaveRoundTrip | src/components/ProfileEditor.tsx:65-107 | A row in the shape a save produces, loaded and saved without edits, is written back unchanged. |
| ProfileEditing.SaveIsStable | src/components/ProfileEditor.tsx:100-134 | Every save yields such a row, so save, reload, save writes the same payload twice. |
| ProfileEditing.SaveEnabled | src/components/ProfileEditor.tsx:246 | The submit button is enabled only when no save is running, the username is non-empty and a birthdate is set. It is disabled while saving or when no birthdate is set. |
| ProfileEditing.SaveEnabledIff | src/components/ProfileEditor.tsx:246 | Save is enabled exactly when no save is running, the username has a non-whitespace character and a birthdate is set. Then the saved username is non-empty. |
| ProfileEditing.MaybeSingle | src/components/ProfileEditor.tsx:53-57 | `maybeSingle`: no row gives no data, one row gives that row, more than one gives the PGRST116 error. |
| ProfileEditing.FetchFails | src/components/ProfileEditor.tsx:59-61 | A fetch throws only when it has an error code, and never for PGRST116. |
| ProfileEditing.Fetched | src/components/ProfileEditor.tsx:59-63 | An error other than PGRST116 stores nothing; otherwise the returned row, if any, is stored. |
| ProfileEditing.MaybeSingleNeverFails | src/components/ProfileEditor.tsx:59-61 | The PGRST116 outcome is not a failure: the profile is stored when exactly one row matches, and nothing otherwise. |
| ProfileEditing.WriteFor | src/components/ProfileEditor.tsx:110-124 | The write is an update, keyed on the caller's id, exactly when a profile was loaded, and an insert otherwise. It always carries the normalised payload. |
| ProfileEditing.ProfileEditor.constructor | src/components/ProfileEditor.tsx:28-40 | The editor starts with no profile, loading, not saving, and an empty form. |
| ProfileEditing.ProfileEditor.FetchProfile | src/components/ProfileEditor.tsx:48-84 | With no user nothing changes. Otherwise a returned row becomes the profile and fills the form; anything else keeps both. Loading ends. |
| ProfileEditing.ProfileEditor.HandleInputChange | src/components/ProfileEditor.tsx:86-91 | Only the named form field changes. |
| ProfileEditing.ProfileEditor.HandleSubmit | src/components/ProfileEditor.tsx:93-145 | With no user nothing is sent or changed. Otherwise the update-or-insert for the current form is sent. A failed write keeps profile, form and loading; a successful one re-fetches. Saving is over afterwards. |

## Left out

- All network and platform calls become parameters. These are `Deno.serve`, `createClient`, `Deno.env`, `auth.getUser`, every `.from(...)` query, insert and update, and `functions.invoke`.
  - In the handler, the reads are filters over a `Tables` snapshot, and a set of failing steps stands for transport or permission errors.
  - In the components, each call's outcome is a method parameter.
- Row-level security is not modelled: `Tables` holds the rows the caller's session can read, and each read returns every such row that matches its filter. A policy that hides rows returns fewer rows rather than an error, so the exclusion and completeness lemmas (`SuggestionHandler.BlockHidesBothWays`, `SuggestionHandler.SuggestionsAreEligible`, `SuggestionHandler.EligibleAreSuggested`) hold for the visible rows.
- Row caps are not modelled. The database API returns at most its max-rows setting per select (1000 by default), and the four list reads (`supabase/functions/get-match-suggestions/index.ts:53-56`, `:63-66`, `:73-76`, `:83-86`) neither page nor limit. The model assumes every matching row comes back. So `SuggestionHandler.EligibleAreSuggested` holds only below the cap on other profiles. `SuggestionHandler.ConnectedUserNotSuggested` and `SuggestionHandler.BlockHidesBothWays` hold only below the cap on the caller's match and block rows: past it a matched or blocking user can be suggested.
- Read consistency is not modelled. All five reads see one snapshot of the tables, the single `Tables` value. In the source they are separate requests with no transaction, so rows written between them can make the reads disagree.
- Response plumbing is left out: the CORS headers (`../_shared/cors.ts` is not part of this model), JSON serialisation, and `Response` construction. The model keeps only the response kind, the message and the status.
- Text.ToLower: maps ASCII letters only; the rest of Unicode's case mapping is not modelled.
- Text.ToLowerChar: maps only 'A' to 'Z'. `toLowerCase` also maps other upper-case letters, for example 'À' (U+00C0) to 'à', and the model leaves them unchanged because the rest of Unicode's case mapping is not modelled.
- Text.ToLowerFacts: `IsLower` means no ASCII capital, so "does not change lower-case text" holds only for this ASCII mapping. Under `toLowerCase`, 'À' is changed, for the same reason as `Text.ToLowerChar`.
- `trim` is exact over the ECMAScript whitespace set. Strings are sequences of code points, not UTF-16 code units.
- Dates are not parsed. `new Date()`, parsing the birthdate string, and time zones are left out; `calculateAge` takes both dates as (year, month, day) triples.
- React machinery is left out: rendering, `useEffect`, toasts, `console.error`, `e.preventDefault()`. The intermediate `loading` and `actionLoading` values between two `await`s are set as in the source but are not observable in a sequential model.
- Discover.DiscoverPage.FetchSuggestions: the client's `Authorization` header and session lookup are not modelled.
- ProfileEditing.ProfileEditor.HandleInputChange: takes one of the six form fields. The source's `[field]: value` with an arbitrary string key would add a new key; every call site passes one of the six.
- ProfileEditing.FormFromRow: `username || ''` and `birthdate || ''` are the identity here because both columns are NOT NULL in the row type.
- The `?.` and `|| []` guards on query data in the handler cover a `null` that cannot arise when the reads are filters over tables.
- MatchSuggestions.Score: scores are unbounded integers. JavaScript numbers cannot overflow at these sizes, and the `|| 0` in the sort comparator never applies, because every record has a score.
- The other pages and wrappers are not part of this model: `SettingsPage.tsx`, `ProfilePage.tsx`, `Notifications.tsx`, `FriendList.tsx`, `MainApp.tsx` and `Index.tsx`. They are SDK wrappers, static views or view switching. `types.ts` only fixed the row field names and nullability.

# Ads admin console: a Dafny model of its core logic

This project models the logic of the ads-project admin dashboard, the web
console where an operator manages display clients, videos, playlists
("sequences") and screen layouts. It covers five parts:

- **The sequence editor** (`SequenceEditor`). It composes a playlist: a video is added
  only if its id is absent, removing an id drops every entry with it, and a drag moves
  one entry. On save, the editor checks a guard chain (a blank name, then an empty list)
  and then builds a create or an update request.
- **The video URL helpers** (`VideoUtils`). They classify a URL by platform, extract a
  YouTube id with the source's regular expression (modelled as a leftmost search), build
  thumbnail addresses, and print durations as `m:ss` or `h:mm:ss`.
- **The authentication slice** (`AuthSlice`). It is a class whose three reducers assign
  the session's fields in place.
- **The endpoint declarations of the four resources** (`ClientsApi`, `VideosApi`,
  `SequencesApi`, `LayoutsApi`, with the shared `ApiTags` and the cross-resource
  `ApiCoverage`). They cover the addresses the queries read, the requests the mutations
  send, and the cache tags each one provides or invalidates. An invalidation reaches a
  cached query when the two tag lists share a tag. Tag ids are compared as strings, so
  the collection id `"LIST"` is the one id where an item tag and a collection tag
  coincide, and every coverage lemma states that case exactly.
- **The form schemas** (`Validation`). Each schema is a function from a form to its list
  of issues, in field order; a form is accepted when the list is empty.

Two modules support the rest. `Types` holds the records of `src/types/index.ts`.
`Strings` writes out the JavaScript string operations used: `includes`, `trim`,
`padStart`, `toString` and `length`. `length` counts UTF-16 code units, which the
schemas' `min` bounds depend on.

Points where the code's behaviour is easy to misread:

- `forceRefreshClient` declares no `invalidatesTags` (`src/app/api/clientsApi.ts:58-63`),
  so it invalidates nothing. It does not invalidate the client collection.
- The editor gets the resolved playlist from the backend (`sequence.videos`,
  `src/pages/SequenceEditorPage.tsx:142-144`). It has no client-side deserializer that
  drops unknown ids, so `LoadSequence` takes that list as it comes.
- A drag always names two entries of the list being dragged: the items of the sortable
  context are exactly the selected ids (`src/pages/SequenceEditorPage.tsx:416`). The code
  has no out-of-bounds no-op branch, so the model requires both ids to be in the list
  rather than inventing one.
- `isNew` is `!id || id === 'new'`, so an empty route id also counts as new.

## Model

| member | source | states |
|---|---|---|
| SequenceEditor.AddVideo | src/pages/SequenceEditorPage.tsx:160-164 | afterwards the id is present and earlier entries are unchanged; a known id leaves the list as it was; an unknown one is appended at the end; distinct ids stay distinct |
| SequenceEditor.AddVideoIdempotent | src/pages/SequenceEditorPage.tsx:161 | adding the same video twice gives the same list as adding it once |
| SequenceEditor.InIds | src/pages/SequenceEditorPage.tsx:161 | an id is among the list's ids exactly when some entry carries it (the `find` test) |
| SequenceEditor.RemoveVideo | src/pages/SequenceEditorPage.tsx:166-168 | the result holds exactly the entries whose id differs, and is a subsequence of the list (relative order kept) |
| SequenceEditor.RemoveVideoCounts | src/pages/SequenceEditorPage.tsx:167 | every copy of an entry with another id is kept, and no entry with the removed id remains |
| SequenceEditor.RemoveVideoSpec | src/pages/SequenceEditorPage.tsx:166-168 | no entry with the removed id is left, and distinct ids stay distinct |
| SequenceEditor.RemoveAbsent | src/pages/SequenceEditorPage.tsx:167 | removing an id the list does not hold changes nothing |
| SequenceEditor.RemoveAppend | src/pages/SequenceEditorPage.tsx:167 | removal distributes over appending one entry |
| SequenceEditor.RemoveUndoesAdd | src/pages/SequenceEditorPage.tsx:160-168 | removing a video's id after adding it restores the list when the id was absent |
| SequenceEditor.FindIndex | src/pages/SequenceEditorPage.tsx:153-154 | `findIndex`: -1 exactly when no entry has the id, otherwise the first entry with it |
| SequenceEditor.ArrayMove | src/pages/SequenceEditorPage.tsx:155 | `arrayMove`: same length, the moved element lands at the target index, and the result is a permutation (same multiset) |
| SequenceEditor.ArrayMoveAt | src/pages/SequenceEditorPage.tsx:155 | every position of the result holds the element from the position the move shifts into it |
| SequenceEditor.ArrayMoveInverse | src/pages/SequenceEditorPage.tsx:155 | moving back from the target to the source restores the list |
| SequenceEditor.ArrayMoveSamePlace | src/pages/SequenceEditorPage.tsx:155 | a move onto the same index changes nothing |
| SequenceEditor.ArrayMoveExample | src/pages/SequenceEditorPage.tsx:155 | moving the first of three to the end gives `[b, c, a]` |
| SequenceEditor.ArrayMoveKeepsDistinctIds | src/pages/SequenceEditorPage.tsx:155 | reordering keeps distinct ids distinct |
| SequenceEditor.HandleDragEnd | src/pages/SequenceEditorPage.tsx:148-158 | unchanged without a drop target or when it is the dragged entry; otherwise a permutation in which the dragged entry sits where the target was; distinct ids stay distinct |
| SequenceEditor.LoadSequence | src/pages/SequenceEditorPage.tsx:133-146 | the form takes the stored name and active flag, a missing description, start date or end date becomes empty, and the list is replaced only when the stored sequence has order data and resolved videos |
| SequenceEditor.OrUndefined | src/pages/SequenceEditorPage.tsx:183-190 | an empty field falls back to undefined: absent exactly for the empty string, otherwise the value itself |
| SequenceEditor.IsNew | src/pages/SequenceEditorPage.tsx:112 | the route is new when its id is absent, empty or `new`; its consequences are stated by SequenceEditor.HandleSaveSpec |
| SequenceEditor.Payload | src/pages/SequenceEditorPage.tsx:181-190 | the request body: name and flag kept, empty optional fields left out, the order list the selected ids in order; stated by SequenceEditor.PayloadSpec |
| SequenceEditor.AsUpdate | src/pages/SequenceEditorPage.tsx:198 | the create body sent to the update endpoint; stated by SequenceEditor.AsUpdateKeepsFields |
| SequenceEditor.AsUpdateKeepsFields | src/pages/SequenceEditorPage.tsx:183-198 | the update body keeps every field of the body the create would send, name and order list wrapped as given |
| SequenceEditor.HandleSave | src/pages/SequenceEditorPage.tsx:170-199 | `handleSave`: the guard chain, the choice between create and update, and the body each sends; stated by SequenceEditor.HandleSaveSpec |
| SequenceEditor.HandleSaveSpec | src/pages/SequenceEditorPage.tsx:112-199 | a name of only whitespace is refused first, then an empty list; otherwise create exactly when the route is new (id absent, empty or `new`), else update of the route's id, which is therefore always a real id; a create sends exactly the form's body and an update exactly that body in update form |
| SequenceEditor.PayloadSpec | src/pages/SequenceEditorPage.tsx:181-190 | the body's order list is the selected ids in list order (distinct when the list is); description and dates are left out exactly when empty and otherwise are the entered text; the name and flag are kept; no active hours are sent |
| SequenceEditor.UpdateCarriesPayload | src/pages/SequenceEditorPage.tsx:183-198 | an update sends the entered name, the selected ids in order, the flag, and the description and dates each left out when empty, with no active hours |
| SequenceEditor.LoadThenSave | src/pages/SequenceEditorPage.tsx:133-199 | saving a freshly loaded sequence sends its resolved video order back unchanged |
| Strings.TrimEmptyIff | src/pages/SequenceEditorPage.tsx:171 | `name.trim()` is empty exactly when every character is whitespace |
| Strings.Trim | src/pages/SequenceEditorPage.tsx:171 | `trim()`: leading and trailing whitespace removed; emptiness stated by Strings.TrimEmptyIff |
| Strings.ContainsIffOccurs | src/utils/videoUtils.ts:4 | `includes` holds exactly when the substring occurs at some index |
| Strings.Contains | src/utils/videoUtils.ts:4 | `includes`; stated by Strings.ContainsIffOccurs |
| VideoUtils.DetectVideoSource | src/utils/videoUtils.ts:3-6 | a URL containing `youtube.com` or `youtu.be` is YouTube |
| VideoUtils.DetectAgreesWithTable | src/utils/videoUtils.ts:3-41 | the if-chain equals a first-match search over the table of host rules in source order |
| VideoUtils.DetectFirstRuleWins | src/utils/videoUtils.ts:3-36 | a URL gets rule k's platform exactly when rule k matches and no earlier rule does |
| VideoUtils.DetectFileIffNoHost | src/utils/videoUtils.ts:37-40 | FILE is returned exactly when no host rule matches, whatever the extension |
| VideoUtils.RunEnd | src/utils/videoUtils.ts:45 | the greedy capture `[^&\n?#]+` stops at the first stop character or the end |
| VideoUtils.MatchAtSpec | src/utils/videoUtils.ts:45 | at one position: no alternative matches exactly when none occurs there followed by a non-stop character; otherwise the capture follows a matching alternative |
| VideoUtils.MatchAt | src/utils/videoUtils.ts:45 | the alternatives tried in order at one position; stated by VideoUtils.MatchAtSpec |
| VideoUtils.SearchFrom | src/utils/videoUtils.ts:48-53 | the leftmost-match search; stated by VideoUtils.SearchFromSpec |
| VideoUtils.ExtractYouTubeVideoId | src/utils/videoUtils.ts:43-56 | `extractYouTubeVideoId`; stated by VideoUtils.ExtractYouTubeVideoIdSpec |
| VideoUtils.SearchFromNone | src/utils/videoUtils.ts:48-53 | the search from a position fails exactly when no later position matches |
| VideoUtils.SearchFromFound | src/utils/videoUtils.ts:48-53 | a successful search returns the capture at a matching position before which nothing matches |
| VideoUtils.SearchFromSpec | src/utils/videoUtils.ts:48-53 | the search finds nothing exactly when no position matches, otherwise the capture at the leftmost match |
| VideoUtils.ExtractYouTubeVideoIdSpec | src/utils/videoUtils.ts:43-56 | null exactly when the expression matches nowhere; otherwise the non-empty capture at the leftmost matching position |
| VideoUtils.NoMatchWithoutY | src/utils/videoUtils.ts:45 | no alternative matches at a character other than `y` |
| VideoUtils.ShortLinkExample | src/utils/videoUtils.ts:43-56 | `https://youtu.be/abc?t=5` yields `abc` |
| VideoUtils.ThumbnailSpec | src/utils/videoUtils.ts:58-67 | a thumbnail exists exactly when an id is extracted; it is `https://img.youtube.com/vi/<id>/<quality>.jpg`, with `mqdefault` as the default quality |
| VideoUtils.GetYouTubeThumbnail | src/utils/videoUtils.ts:58-67 | `getYouTubeThumbnail`; stated by VideoUtils.ThumbnailSpec |
| VideoUtils.FormatDuration | src/utils/videoUtils.ts:69-78 | `formatDuration`; stated by VideoUtils.FormatDurationFields and VideoUtils.FormatDurationRoundTrip |
| VideoUtils.DurationDecomposition | src/utils/videoUtils.ts:70-72 | hours, minutes and seconds add back up to the input, with minutes and seconds below 60 |
| VideoUtils.FormatDurationFields | src/utils/videoUtils.ts:69-78 | the printed fields are hours, padded minutes and padded seconds from one hour on, otherwise minutes and padded seconds |
| VideoUtils.FormatDurationRoundTrip | src/utils/videoUtils.ts:69-78 | reading the printed clock back in base 60 gives the input |
| Strings.PadStart2Digits | src/utils/videoUtils.ts:75 | a padded field below 100 has two digits and reads back as its value |
| Strings.PadStart2 | src/utils/videoUtils.ts:75 | `padStart(2, '0')`: a string of two or more characters is kept, a shorter one is filled with leading zeros to length two |
| Strings.IntToStringRoundTrip | src/app/api/clientsApi.ts:16 | the decimal notation of an integer reads back as the integer |
| Strings.IntToString | src/app/api/clientsApi.ts:16 | the decimal notation of an integer, a sign then digits; stated by Strings.IntToStringRoundTrip |
| Strings.Utf16Length | src/utils/validation.ts:14 | the UTF-16 length that `.min(n)` counts: between the character count and twice it, zero only for the empty string |
| Strings.Utf16LengthBmp | src/utils/validation.ts:14 | without characters beyond U+FFFF the UTF-16 length is the character count |
| AuthSlice.AuthStore.constructor | src/features/auth/authSlice.ts:11-16 | starts from the stored tokens with no user, authenticated exactly when a non-empty token was stored; the invariant holds |
| AuthSlice.AuthStore.SetCredentials | src/features/auth/authSlice.ts:22-38 | stores both tokens, marks the session authenticated, replaces the user only when given; the invariant holds |
| AuthSlice.AuthStore.SetUser | src/features/auth/authSlice.ts:39-41 | replaces the user and leaves every other field and the invariant as they were |
| AuthSlice.AuthStore.Logout | src/features/auth/authSlice.ts:42-49 | clears all four fields, whatever the state was |
| AuthSlice.LogoutTwice | src/features/auth/authSlice.ts:42-49 | two sign-outs in a row, from any state, end in the signed-out state (the second one changes nothing, which the body asserts) |
| AuthSlice.SignInAndOut | src/features/auth/authSlice.ts:11-49 | the run start-up, set user, sign in, set user, sign out ends signed out with the invariant holding; each step keeps the invariant by its own method contract |
| ApiTags.ItemTags | src/app/api/clientsApi.ts:20 | one tag per row, in row order; a tag is among them exactly when it has the type and a row's id |
| ApiTags.ListProvides | src/app/api/clientsApi.ts:17-23 | row tags then the collection tag, or only the collection tag without a result; a tag is provided exactly when it is the collection tag or a returned row's tag |
| ApiTags.ReachesListQuery | src/app/api/clientsApi.ts:17-23 | an invalidation reaches a list query exactly when it holds the collection tag or a returned row's tag |
| ApiTags.ReachesItemQuery | src/app/api/clientsApi.ts:27 | an invalidation reaches an item query exactly when it holds that item's tag |
| ApiTags.ItemUrl | src/app/api/clientsApi.ts:26 | the item address is the collection address, a slash and the id unchanged |
| ApiTags.ListUrlFields | src/app/api/clientsApi.ts:16 | after `?page=` the list address splits at `&` into the printed page and `limit=` with the printed limit |
| ApiTags.ListUrlRoundTrip | src/app/api/clientsApi.ts:15-16 | the page and limit read back from the list address, 1 and 10 when left out |
| ApiTags.ListUrlSameAddress | src/app/api/clientsApi.ts:15-16 | two list addresses are equal exactly when page and limit agree after defaults, so a left-out parameter and its default build the same address |
| ApiTags.ListUrl | src/app/api/clientsApi.ts:15-16 | the list address with defaults 1 and 10; stated by ApiTags.ListUrlRoundTrip and ApiTags.ListUrlSameAddress |
| ClientsApi.GetClients | src/app/api/clientsApi.ts:15-16 | the address reads back as the page and limit asked for, 1 and 10 by default |
| ClientsApi.GetClientsTags | src/app/api/clientsApi.ts:17-23 | provides exactly the client collection tag and one tag per returned client |
| ClientsApi.GetClient | src/app/api/clientsApi.ts:25-27 | `/admin/clients/` followed by the id |
| ClientsApi.GetClientInjective | src/app/api/clientsApi.ts:26 | different ids give different addresses |
| ClientsApi.GetClientTags | src/app/api/clientsApi.ts:27 | an item query provides only its own tag; used by the invalidation lemmas |
| ClientsApi.CreateClient | src/app/api/clientsApi.ts:29-35 | the request the mutation sends; stated by ClientsApi.MutationRequests |
| ClientsApi.CreateClientInvalidates | src/app/api/clientsApi.ts:29-35 | the tags the mutation invalidates; stated by ClientsApi.CreateClientInvalidation |
| ClientsApi.UpdateClient | src/app/api/clientsApi.ts:37-50 | the request the mutation sends; stated by ClientsApi.MutationRequests |
| ClientsApi.UpdateClientInvalidates | src/app/api/clientsApi.ts:37-50 | the tags the mutation invalidates; stated by ClientsApi.UpdateClientInvalidation |
| ClientsApi.DeleteClient | src/app/api/clientsApi.ts:51-57 | the request the mutation sends; stated by ClientsApi.MutationRequests |
| ClientsApi.DeleteClientInvalidates | src/app/api/clientsApi.ts:51-57 | the tags the mutation invalidates; stated by ClientsApi.DeleteClientInvalidation |
| ClientsApi.ForceRefreshClient | src/app/api/clientsApi.ts:58-63 | the request the mutation sends; stated by ClientsApi.MutationRequests |
| ClientsApi.ForceRefreshClientInvalidates | src/app/api/clientsApi.ts:58-63 | the tags the mutation invalidates; stated by ClientsApi.ForceRefreshClientInvalidation |
| ClientsApi.MutationRequests | src/app/api/clientsApi.ts:29-63 | create posts the body to the collection; update patches and delete deletes the item's address; refresh posts to its `/refresh` sub-address; delete and refresh send no body |
| ClientsApi.CreateClientInvalidation | src/app/api/clientsApi.ts:29-35 | reaches every page of clients, and an item query only for the id `LIST` |
| ClientsApi.UpdateClientInvalidation | src/app/api/clientsApi.ts:37-50 | reaches every page of clients and the item query for an id exactly when it is the updated id or `LIST` |
| ClientsApi.DeleteClientInvalidation | src/app/api/clientsApi.ts:51-57 | reaches every page of clients but not the deleted client's own item query, unless its id is `LIST` |
| ClientsApi.ForceRefreshClientInvalidation | src/app/api/clientsApi.ts:58-63 | the refresh reaches no cached query |
| VideosApi.GetVideos | src/app/api/videosApi.ts:15-16 | the address reads back as the page and limit asked for, 1 and 10 by default |
| VideosApi.GetVideosTags | src/app/api/videosApi.ts:17-23 | provides exactly the video collection tag and one tag per returned video |
| VideosApi.GetVideo | src/app/api/videosApi.ts:25-27 | `/admin/videos/` followed by the id |
| VideosApi.GetVideoInjective | src/app/api/videosApi.ts:26 | different ids give different addresses |
| VideosApi.GetVideoTags | src/app/api/videosApi.ts:27 | an item query provides only its own tag; used by the invalidation lemmas |
| VideosApi.CreateVideo | src/app/api/videosApi.ts:29-35 | the request the mutation sends; stated by VideosApi.MutationRequests |
| VideosApi.CreateVideoInvalidates | src/app/api/videosApi.ts:29-35 | the tags the mutation invalidates; stated by VideosApi.CreateVideoInvalidation |
| VideosApi.UpdateVideo | src/app/api/videosApi.ts:37-50 | the request the mutation sends; stated by VideosApi.MutationRequests |
| VideosApi.UpdateVideoInvalidates | src/app/api/videosApi.ts:37-50 | the tags the mutation invalidates; stated by VideosApi.UpdateVideoInvalidation |
| VideosApi.DeleteVideo | src/app/api/videosApi.ts:51-57 | the request the mutation sends; stated by VideosApi.MutationRequests |
| VideosApi.DeleteVideoInvalidates | src/app/api/videosApi.ts:51-57 | the tags the mutation invalidates; stated by VideosApi.DeleteVideoInvalidation |
| VideosApi.MutationRequests | src/app/api/videosApi.ts:29-57 | create posts the body to the collection; update patches and delete deletes the item's address |
| VideosApi.CreateVideoInvalidation | src/app/api/videosApi.ts:29-35 | reaches every page of videos, and an item query only for the id `LIST` |
| VideosApi.UpdateVideoInvalidation | src/app/api/videosApi.ts:37-50 | reaches every page of videos and the item query for an id exactly when it is the updated id or `LIST` |
| VideosApi.DeleteVideoInvalidation | src/app/api/videosApi.ts:51-57 | reaches every page of videos but not the deleted video's own item query, unless its id is `LIST` |
| SequencesApi.GetSequences | src/app/api/sequencesApi.ts:16-17 | the address reads back as the page and limit asked for, 1 and 10 by default |
| SequencesApi.GetSequencesTags | src/app/api/sequencesApi.ts:18-27 | provides exactly the sequence collection tag and one tag per returned sequence |
| SequencesApi.GetSequence | src/app/api/sequencesApi.ts:29-31 | `/admin/sequences/` followed by the id |
| SequencesApi.GetSequenceInjective | src/app/api/sequencesApi.ts:30 | different ids give different addresses |
| SequencesApi.GetSequenceTags | src/app/api/sequencesApi.ts:31 | an item query provides only its own tag; used by the invalidation lemmas |
| SequencesApi.CreateSequence | src/app/api/sequencesApi.ts:33-40 | the request the mutation sends; stated by SequencesApi.MutationRequests |
| SequencesApi.CreateSequenceInvalidates | src/app/api/sequencesApi.ts:33-40 | the tags the mutation invalidates; stated by SequencesApi.CreateSequenceInvalidation |
| SequencesApi.UpdateSequence | src/app/api/sequencesApi.ts:41-54 | the request the mutation sends; stated by SequencesApi.MutationRequests |
| SequencesApi.UpdateSequenceInvalidates | src/app/api/sequencesApi.ts:41-54 | the tags the mutation invalidates; stated by SequencesApi.UpdateSequenceInvalidation |
| SequencesApi.DeleteSequence | src/app/api/sequencesApi.ts:55-61 | the request the mutation sends; stated by SequencesApi.MutationRequests |
| SequencesApi.DeleteSequenceInvalidates | src/app/api/sequencesApi.ts:55-61 | the tags the mutation invalidates; stated by SequencesApi.DeleteSequenceInvalidation |
| SequencesApi.AssignSequence | src/app/api/sequencesApi.ts:62-75 | the request the mutation sends; stated by SequencesApi.MutationRequests |
| SequencesApi.AssignSequenceInvalidates | src/app/api/sequencesApi.ts:62-75 | the tags the mutation invalidates; stated by SequencesApi.AssignSequenceInvalidation |
| SequencesApi.MutationRequests | src/app/api/sequencesApi.ts:33-75 | create posts to the collection; update patches and delete deletes the item's address; assign posts the client list to its `/assign` sub-address |
| SequencesApi.CreateSequenceInvalidation | src/app/api/sequencesApi.ts:33-40 | reaches every page of sequences, and an item query only for the id `LIST` |
| SequencesApi.UpdateSequenceInvalidation | src/app/api/sequencesApi.ts:41-54 | reaches every page of sequences and the item query for an id exactly when it is the updated id or `LIST` |
| SequencesApi.DeleteSequenceInvalidation | src/app/api/sequencesApi.ts:55-61 | reaches every page of sequences but not the deleted sequence's own item query, unless its id is `LIST` |
| SequencesApi.AssignSequenceInvalidation | src/app/api/sequencesApi.ts:62-75 | reaches every page of clients, a client item query only for `LIST`, the sequence item query exactly for the assigned id, and a page of sequences exactly when it returned that id (or the id is `LIST`) |
| LayoutsApi.GetLayouts | src/app/api/layoutsApi.ts:15-16 | the address reads back as the page and limit asked for, 1 and 10 by default |
| LayoutsApi.GetLayoutsTags | src/app/api/layoutsApi.ts:17-23 | provides exactly the layout collection tag and one tag per returned layout |
| LayoutsApi.GetLayout | src/app/api/layoutsApi.ts:25-27 | `/admin/layouts/` followed by the id |
| LayoutsApi.GetLayoutInjective | src/app/api/layoutsApi.ts:26 | different ids give different addresses |
| LayoutsApi.GetLayoutTags | src/app/api/layoutsApi.ts:27 | an item query provides only its own tag; used by the invalidation lemmas |
| LayoutsApi.CreateLayout | src/app/api/layoutsApi.ts:29-35 | the request the mutation sends; stated by LayoutsApi.MutationRequests |
| LayoutsApi.CreateLayoutInvalidates | src/app/api/layoutsApi.ts:29-35 | the tags the mutation invalidates; stated by LayoutsApi.CreateLayoutInvalidation |
| LayoutsApi.UpdateLayout | src/app/api/layoutsApi.ts:37-50 | the request the mutation sends; stated by LayoutsApi.MutationRequests |
| LayoutsApi.UpdateLayoutInvalidates | src/app/api/layoutsApi.ts:37-50 | the tags the mutation invalidates; stated by LayoutsApi.UpdateLayoutInvalidation |
| LayoutsApi.DeleteLayout | src/app/api/layoutsApi.ts:51-57 | the request the mutation sends; stated by LayoutsApi.MutationRequests |
| LayoutsApi.DeleteLayoutInvalidates | src/app/api/layoutsApi.ts:51-57 | the tags the mutation invalidates; stated by LayoutsApi.DeleteLayoutInvalidation |
| LayoutsApi.MutationRequests | src/app/api/layoutsApi.ts:29-57 | create posts the body to the collection; update patches and delete deletes the item's address |
| LayoutsApi.CreateLayoutInvalidation | src/app/api/layoutsApi.ts:29-35 | reaches every page of layouts, and an item query only for the id `LIST` |
| LayoutsApi.UpdateLayoutInvalidation | src/app/api/layoutsApi.ts:37-50 | reaches every page of layouts and the item query for an id exactly when it is the updated id or `LIST` |
| LayoutsApi.DeleteLayoutInvalidation | src/app/api/layoutsApi.ts:51-57 | reaches every page of layouts but not the deleted layout's own item query, unless its id is `LIST` |
| ApiCoverage.OnlyAssignCrossesTypes | src/app/api/sequencesApi.ts:71-74 | of all fourteen mutations, only the assignment invalidates a tag of another type, and that tag is the client collection |
| ApiCoverage.OwnCollectionRefreshed | src/app/api/clientsApi.ts:29-63 | a mutation carries its own collection tag exactly when it is neither the refresh nor an assignment (of an id other than `LIST`); the others reach every page of their type |
| ApiCoverage.OnlyRefreshInvalidatesNothing | src/app/api/clientsApi.ts:58-63 | the client refresh is the only mutation with an empty invalidation |
| ApiCoverage.ItemTagsOnlyForTarget | src/app/api/sequencesApi.ts:50-74 | an invalidated item tag belongs to an update or an assignment and names the id it was given |
| Validation.LoginIssues | src/utils/validation.ts:4-7 | accepted exactly when the e-mail is well formed and the password non-empty; each failing field reports its message |
| Validation.MinOneIsNonEmpty | src/utils/validation.ts:6 | `min(1)` passes exactly for a non-empty string |
| Validation.CreateClientIssues | src/utils/validation.ts:9-16 | accepted exactly when name and login id are non-empty and the password has at least six code units; the optional fields never fail |
| Validation.PasswordLengthBound | src/utils/validation.ts:14 | six characters always pass and fewer than three never do; without characters beyond U+FFFF the bound is exactly six characters |
| Validation.AstralPasswordAccepted | src/utils/validation.ts:14 | a password of three characters beyond U+FFFF is accepted |
| Validation.UpdateClientIssues | src/utils/validation.ts:18-24 | every field may be left out; a given name must be non-empty and a given password six code units long |
| Validation.CreateClientImpliesUpdate | src/utils/validation.ts:9-24 | a form the create schema accepts passes the update schema |
| Validation.CreateVideoIssues | src/utils/validation.ts:26-32 | accepted exactly when the URL (and a given thumbnail) is a URL, the title is non-empty and a given duration is not negative; the title and duration issues appear exactly when those fields break their rules |
| Validation.UpdateVideoIssues | src/utils/validation.ts:34-40 | the same bounds, each applying only to a given field |
| Validation.CreateVideoImpliesUpdate | src/utils/validation.ts:26-40 | on a complete form the create and update schemas agree |
| Validation.CreateSequenceIssues | src/utils/validation.ts:42-50 | accepted exactly when the name and the flow data are non-empty |
| Validation.UpdateSequenceIssues | src/utils/validation.ts:52-60 | refused exactly when a name is given empty |
| Validation.CreateSequenceImpliesUpdate | src/utils/validation.ts:42-60 | create acceptance implies update acceptance, and empty flow data separates them |

## Left out

- The cache engine of the endpoint library is not modelled: refetching, de-duplication, subscriptions and the matching of invalidated tags against cached queries. The model states only the tag lists the endpoints declare. "Reaches" means the two lists share a tag.
- The shared base API (transport, bearer token, refresh handling) is not part of this model. Neither are the authentication endpoints (`authApi.ts`) or the `useAuth` hook.
- The real-time socket connection and its refetch handlers, page rendering, dialogs, alerts and navigation are all I/O or UI.
- The slice's browser-storage writes are not modelled (`authSlice.ts:36-37`, `47-48`). The stored tokens read at start-up are constructor parameters.
- `isValidVideoUrl` is not modelled: it depends on the browser's URL parser.
- Validation: the schema library's e-mail and URL formats are predicates passed in.
- Validation: type errors on untyped input are not modelled; the form datatypes rule them out. This also covers the `nativeEnum` check on `source`.
- Validation: unknown keys being stripped is not modelled.
- Validation: floating-point durations are not modelled. `duration` is a real number, so NaN and infinities are out.
- SequenceEditor.HandleDragEnd: requires the dragged id, and a drop target's id when there is one, to be ids of the list. The sortable context offers only those, so the `-1` index `findIndex` gives for a missing id is not modelled.
- SequenceEditor.ArrayMove: defined for in-range indices only, which is all the editor passes.
- SequenceEditor.Payload: the order list is kept as the sequence of ids. Its JSON text (`JSON.stringify` with string escaping) is not modelled.
- VideoUtils.FormatDuration: takes a natural number of seconds. Negative and fractional durations, which the source would print with a sign or a fraction, are not modelled.
- ApiTags.ListUrl: page and limit are integers. Fractional numbers printed by template interpolation are not modelled.
- Strings.IntToString: prints every integer in plain decimal. JavaScript prints Numbers of magnitude 1e21 or more in exponent form (`1e+21`) and cannot tell integers apart above 2^53. So Strings.IntToStringRoundTrip, ApiTags.ListUrlRoundTrip, ApiTags.ListUrlSameAddress and the hours field of VideoUtils.FormatDurationRoundTrip hold in the program only below those bounds.
- Form state held by React hooks becomes an `EditorForm` value. The asynchronous create/update calls and their alerts become the `SaveAction` the save handler chooses.

# Classifieds client core in Dafny

A Dafny model of three parts of a classifieds marketplace client, the ones with logic of their own:

- **Listing display** (`AnnouncementList`). The listing component drops every announcement whose id is in the optional exception list. It then keeps the first `limit` items when `limit` is truthy, or shows a loader while loading. A truthy negative limit behaves as `Array.prototype.slice(0, limit)` does and drops items from the end.
- **Announcement form** (`CreationForm`, `CreationPage`). This covers the per-field validation rules with their messages and the multipart payload built on submit. It also covers the create-or-update choice, the category options with the fixed "Any" entry, the redirect after a successful mutation, the cleanup on leaving, the requests made on opening, and the prefill of an edited announcement.
- **Session actions** (`UserActions`). Register, login and logout are modelled as transitions of the browser's key/value storage. Only the `"token"` key is touched. The server's reply is an input: a body, an error response, or no response.

`Decimal` renders the price as text for the prefill, as `toString()` does for integers, and reads it back. `Entities` holds the records and `Wrappers` holds `Option`.

## Model

| member | source | states |
|---|---|---|
| AnnouncementList.Exclude | client/src/components/Announcements/AnnouncementList.tsx:34-38 | no kept item has an excluded id; each non-excluded announcement keeps its multiplicity; the result is a subsequence of the input (order kept) |
| AnnouncementList.Survivors | client/src/components/Announcements/AnnouncementList.tsx:33-38 | with no exception list the input passes unchanged, otherwise the exception filter applies |
| AnnouncementList.SliceTo | client/src/components/Announcements/AnnouncementList.tsx:42-43 | `slice(0, end)` yields a prefix of length `min(end, n)`, or `max(n + end, 0)` for a negative end |
| AnnouncementList.Shown | client/src/components/Announcements/AnnouncementList.tsx:33-51 | the shown items are a prefix of the survivors, none excluded; the whole survivor list when the limit is absent or 0; `min(limit, survivors)` items for a positive limit, `max(survivors + limit, 0)` for a negative one |
| AnnouncementList.RenderIn | client/src/components/Announcements/AnnouncementList.tsx:25-58 | the loader is rendered exactly when loading; otherwise the heading is the title and the items are the shown list |
| AnnouncementList.Render | client/src/components/Announcements/AnnouncementList.tsx:23-58 | the component always uses the grid container, and renders the loader alone while loading; otherwise the title heads the shown items |
| AnnouncementList.ExcludeAppend | client/src/components/Announcements/AnnouncementList.tsx:35-37 | the filter distributes over concatenation |
| AnnouncementList.ExcludeNothing | client/src/components/Announcements/AnnouncementList.tsx:34-37 | an empty exception list filters nothing |
| AnnouncementList.ExcludeInsertExcluded | client/src/components/Announcements/AnnouncementList.tsx:34-38 | inserting an excluded announcement anywhere leaves the filtered list unchanged |
| AnnouncementList.ExcludedItemsDoNotConsumeLimit | client/src/components/Announcements/AnnouncementList.tsx:33-46 | exclusion happens before the limit: an excluded item inserted anywhere changes nothing that is shown, whatever the limit |
| AnnouncementList.LimitFilledBySurvivors | client/src/components/Announcements/AnnouncementList.tsx:41-46 | with a positive limit and enough survivors, exactly the first `limit` survivors are shown |
| AnnouncementList.LayoutDoesNotChangeItems | client/src/components/Announcements/AnnouncementList.tsx:56-57 | grid and line view render the same items in the same order |
| CreationForm.TitleError | client/src/pages/Creation/CreationPage.tsx:136-140 | title accepted iff its length is 3..50; "Please provide title" exactly when empty, "Min length: 3" for 1-2 characters, "Max length: 50" above 50 |
| CreationForm.PriceError | client/src/pages/Creation/CreationPage.tsx:156-160 | price accepted iff present and 1 <= price <= 999 999; "Please provide price" exactly when empty, "Min: 1" below 1, "Max: 999 999" above the maximum |
| CreationForm.ImageError | client/src/pages/Creation/CreationPage.tsx:169-173 | image accepted iff a file is chosen or the path starts with "/update"; the only message is "Please provide image" |
| CreationForm.DescriptionError | client/src/pages/Creation/CreationPage.tsx:182-185 | description accepted iff non-empty and at most 600 characters; "Please provide description" exactly when empty, "Max length: 600" above 600 |
| CreationForm.LocationError | client/src/pages/Creation/CreationPage.tsx:193-197 | location accepted iff its length is 2..60; "Please provide location" when empty, "Min length: 2" for one character, "Max length: 60" above 60 |
| CreationForm.EmailError | client/src/pages/Creation/CreationPage.tsx:205-212 | email accepted iff non-empty and matching the address pattern; "Please provide email" when empty, "Please provide a valid email" when non-empty and not matching |
| CreationForm.PhoneError | client/src/pages/Creation/CreationPage.tsx:220-224 | phone number accepted iff its length is 10..13; "Please provide phone number" when empty, "Min length: 10" for 1-9 characters, "Max length: 13" above 13 |
| CreationForm.FieldMessage | client/src/pages/Creation/CreationPage.tsx:132-227 | a field gets no message iff its rule holds; the category select has no rule |
| CreationForm.ErrorsFor | client/src/pages/Creation/CreationPage.tsx:132-227 | every reported message is the one its listed field's failing rule gives, every listed failing field is reported, and no field is reported twice |
| CreationForm.Validate | client/src/pages/Creation/CreationPage.tsx:132-227 | a field is flagged iff its rule fails, at most once and with the message its rule gives; no messages iff every rule holds |
| CreationPage.BuildPayloadAsWritten | client/src/pages/Creation/CreationPage.tsx:96-107 | as written: with no file list or a chosen file the payload equals the corrected one; an empty file list appends an extra `image` entry holding the text "undefined" |
| CreationPage.BuildPayload | client/src/pages/Creation/CreationPage.tsx:96-107 | title, category, price, description, location, email, phoneNumber in that order; an eighth entry `image` holding the first file iff a file was chosen |
| CreationPage.DecodeBuildPayload | client/src/pages/Creation/CreationPage.tsx:96-107 | reading the payload back recovers every field and the first file |
| CreationPage.BuildDecodedPayload | client/src/pages/Creation/CreationPage.tsx:96-107 | every well-formed payload is the one built from the values it decodes to |
| CreationPage.OnSubmit | client/src/pages/Creation/CreationPage.tsx:109-115 | exactly one action carrying the payload: an update with the route id iff the id is present, otherwise a create |
| CreationPage.HandleSubmit | client/src/pages/Creation/CreationPage.tsx:131 | the handler runs iff every rule holds; otherwise the field messages are reported |
| CreationPage.CreatePathCarriesImage | client/src/pages/Creation/CreationPage.tsx:169-173 | outside the update path every dispatched payload ends with the chosen image |
| CreationPage.UpdateWithoutFileSendsUndefined | client/src/pages/Creation/CreationPage.tsx:104-107 | as written, a valid update (path under "/update", id present) with an empty file list dispatches an update and sends the text "undefined" as image, where the corrected payload has no image entry |
| CreationPage.SelectOptions | client/src/pages/Creation/CreationPage.tsx:118-123 | one more option than categories; "Any" with id 62782d01909cc2389eb9e4c5 first, then `{name, id}` per category in order |
| CreationPage.OptionsRoundTrip | client/src/pages/Creation/CreationPage.tsx:118-123 | dropping the first option and reading the rest back gives the categories |
| CreationPage.SentinelUnique | client/src/pages/Creation/CreationPage.tsx:122 | when no category uses the sentinel id, only the first option selects "Any" |
| CreationPage.DetailPath | client/src/pages/Creation/CreationPage.tsx:88 | the detail route is "/announcement/" followed by exactly the id |
| CreationPage.DetailPathRoundTrip | client/src/pages/Creation/CreationPage.tsx:88 | the id can be read back from the detail route |
| CreationPage.Redirects | client/src/pages/Creation/CreationPage.tsx:86-93 | one navigation per filled slot, updated first, each to the detail route of that announcement |
| CreationPage.RedirectTarget | client/src/pages/Creation/CreationPage.tsx:86-93 | the page ends on the created announcement's route, else the updated one's; nowhere when both slots are empty |
| CreationPage.LeavePage | client/src/pages/Creation/CreationPage.tsx:64-67 | leaving clears the current, updated and created slots |
| CreationPage.LeavingCancelsRedirect | client/src/pages/Creation/CreationPage.tsx:64-67 | after leaving, no redirect is pending |
| CreationPage.MountRequests | client/src/pages/Creation/CreationPage.tsx:56-63 | at most one request of each kind: categories first, iff none are loaded; then the route's own announcement id, iff the route has an id |
| CreationPage.PrefillValues | client/src/pages/Creation/CreationPage.tsx:73-81 | the seven text fields of the announcement as defaults, the price as decimal text that reads back to the price |
| CreationPage.PrefillAsWritten | client/src/pages/Creation/CreationPage.tsx:70-84 | as written: the defaults become the announcement's values but the form is reset to the previous defaults |
| CreationPage.Prefill | client/src/pages/Creation/CreationPage.tsx:70-84 | the defaults and the form both become the announcement's values; nothing changes without an announcement |
| CreationPage.FirstPrefillIsStale | client/src/pages/Creation/CreationPage.tsx:73-82 | as written, the first announcement loaded resets the form to empty values |
| CreationPage.PrefillThenSubmit | client/src/pages/Creation/CreationPage.tsx:73-82 | prefilling and submitting unchanged sends the announcement's own fields without an image |
| Decimal.ShowNat | client/src/pages/Creation/CreationPage.tsx:76 | a natural number renders as digits with no leading zero |
| Decimal.Show | client/src/pages/Creation/CreationPage.tsx:76 | an integer renders with a leading '-' exactly when negative |
| Decimal.ParseShowNat | client/src/pages/Creation/CreationPage.tsx:76 | reading the digits back gives the number |
| Decimal.ParseShow | client/src/pages/Creation/CreationPage.tsx:76 | reading the text back gives the integer |
| UserActions.AuthenticateAsWritten | client/src/store/reducers/user/userActionCreators.ts:9-20 | as written: success stores the token and returns the user; failures leave storage alone; a failure without response escapes as a thrown error |
| UserActions.Authenticate | client/src/store/reducers/user/userActionCreators.ts:9-20 | success stores the access token and returns the user; every failure rejects with "Failed" and leaves storage unchanged; no other key changes |
| UserActions.Register | client/src/store/reducers/user/userActionCreators.ts:6-22 | register success sets "token" to the access token and resolves with the user; failure rejects with "Failed", storage unchanged |
| UserActions.Login | client/src/store/reducers/user/userActionCreators.ts:24-40 | login success sets "token" to the access token and resolves with the user; failure rejects with "Failed", storage unchanged |
| UserActions.LogoutAsWritten | client/src/store/reducers/user/userActionCreators.ts:44-52 | as written: success removes "token"; failures leave storage alone; a failure without response escapes as a thrown error |
| UserActions.Logout | client/src/store/reducers/user/userActionCreators.ts:42-54 | success removes "token"; failure rejects with "Failed" and keeps the token; no other key changes |
| UserActions.NoResponseEscapesFailed | client/src/store/reducers/user/userActionCreators.ts:17-20 | as written, a request without response does not reject with "Failed"; the corrected actions do |
| UserActions.AsWrittenAgreesWithResponse | client/src/store/reducers/user/userActionCreators.ts:17-20 | the as-written and corrected actions agree whenever the server responded |
| UserActions.RunToken | client/src/store/reducers/user/userActionCreators.ts:6-54 | after any sequence of actions the token is the last successful register/login's, unless a later logout succeeded |
| UserActions.RunKeepsOtherKeys | client/src/store/reducers/user/userActionCreators.ts:15-48 | no sequence of actions changes any storage key but "token" |
| UserActions.FailuresLeaveStorage | client/src/store/reducers/user/userActionCreators.ts:17-52 | a sequence of failed actions leaves storage exactly as it was |

## Findings

| source | as written | input that shows it | evidently intended | confidence | as-written member | corrected member |
|---|---|---|---|---|---|---|
| client/src/pages/Creation/CreationPage.tsx:104-107 | `if (data.image)` tests the file list object, which is truthy even when empty, and then appends `data.image[0]`, which is `undefined`, stored as the text "undefined" | submitting at `/update/1` with valid fields and no file chosen | append an image entry only when a file was chosen | medium, not executed | CreationPage.UpdateWithoutFileSendsUndefined | CreationPage.BuildPayload |
| client/src/pages/Creation/CreationPage.tsx:73-82 | `reset(defaultValues)` passes the state value captured before `setDefaultValues` takes effect | the first announcement loaded, with empty previous defaults | reset the form to the values just built from the announcement | medium, not executed | CreationPage.FirstPrefillIsStale | CreationPage.PrefillThenSubmit |
| client/src/store/reducers/user/userActionCreators.ts:17-20 | the failure handler logs `error.response.data.message` before rejecting; with no response this throws, so the action rejects with that error instead of "Failed" (same at 35-38 and 49-52) | any register, login or logout request that gets no response | every failure rejects with "Failed" | medium, not executed | UserActions.NoResponseEscapesFailed | UserActions.Authenticate |

The rest of the model uses the corrected definitions: `BuildPayload`, `Prefill`, `Authenticate` and `Logout`.

## Left out

- Rendering, styling, the loaders of the creation page and its button labels are left out. The positional and vip class of each item is also left out, because the item component is not part of this model.
- The email regular expression is not encoded. It is the parameter `emailPattern`, an uninterpreted predicate on the text.
- CreationForm.PriceError: the price is an integer. Fractional input such as 1.5 is not modelled.
- CreationPage.BuildPayload: the price entry is the number input's text, sent unchanged. The model keeps only its integer value, so texts with the same value, such as "0100", "1e2" and "100", give the same payload.
- Decimal.Show: this is the integer case of `toString()` only. The exponent form used for magnitudes of 1e21 and above is not modelled.
- String lengths are counted in characters. The browser counts UTF-16 code units, so the two differ for characters outside the Basic Multilingual Plane.
- AnnouncementList.Shown: `limit` is an integer or absent. A `NaN` limit, which is falsy, is not modelled.
- The form library's internals are not modelled beyond its order of rule evaluation: required, then numeric bounds, then lengths, then pattern, with one message per field. Neither is the effect scheduling of the page. The unmount cleanup and the mount requests are modelled as functions of their inputs.
- HTTP requests, `console.log` and the storage as real I/O are left out. A request's outcome is the input `Reply`, and storage is a `map<string, string>`.
- The server controller, the comment routes and the router composition are left out. They are stubs or wiring without logic. The user service is not part of this model.
- Pagination, server-side validation and ownership checks, token renewal and its de-duplication, and stale-response discard are left out. None of them appears in the modelled code.
- UserActions.Logout: the token is removed only when the server confirms the logout; a failed logout keeps it.
- CreationForm.ImageError: the image is optional on every path beginning with "/update", whether or not the announcement already has one.

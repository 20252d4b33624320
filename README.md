# ShawtyLink in Dafny

ShawtyLink is a URL shortener. A FastAPI service stores links, users and click
events in a database. A Redis cache maps `url:<code>` to the link's target. A
React front end signs users in, creates and manages links, and shows
analytics. This project models the parts of both halves that decide things.

**Service** (`models.dfy`, `auth.dfy`, `service.dfy`):
- The table rows and their uniqueness constraints.
- Password hashing limits, token claims and the current-user checks.
- A `Store` class holding the tables, the cache and the next primary keys.
  Its methods are link creation (alias rules, reserved words and the retry
  loop over generated codes), profile update, link update and deletion,
  redirect with click counting, and the analytics and dashboard queries.
- The store's invariant (`Consistent`): unique codes, keys and emails; click
  foreign keys that point at stored links; non-negative click counts; and a
  cache that agrees with the table. Every state-changing method preserves it,
  with the link update's cache step corrected as described under "## Findings".
  The service as written can break the cache agreement.

**Front end:**
- The session provider (`auth_context.dfy`) and the route guards
  (`route_guards.dfy`, `admin_layout.dfy`).
- Each form as a class with "begin" and "finish" methods around its request
  (`create_link_modal.dfy`, `home_view.dfy`, `register_view.dfy`,
  `reset_password_view.dfy`, `forgot_password_view.dfy`, `settings.dfy`,
  `user_modals.dfy`).
- The list pages and their filters (`links.dfy`, `admin_users.dfy`,
  `toast_context.dfy`, `faq.dfy`).
- The figures the dashboards derive from the service's replies
  (`analytics_page.dfy`, `dashboard.dfy`, `admin_dashboard.dfy`).

**Shared helpers:**
- `text.dfy`: JavaScript/Python truthiness, ASCII lower-casing, substring
  search, and `split(c)[0]`.
- `seqs.dfy`: an order-preserving filter.

Several lemmas connect the two halves:
- a payload the front end builds, and what the service does with it;
- the analytics page's total, and the service's windowed click count;
- the dashboard's "has links", and ownership in the store.

Inputs that the code gets from the outside are parameters:
- the clock;
- random draws;
- bcrypt and JWT results;
- HTTP replies;
- `encodeURIComponent`.

## Model

| member | source | states |
|---|---|---|
| Text.OrElse | frontend/src/views/ResetPasswordView.jsx:43 | `a \|\| b` for an optional string: the value when present and non-empty, else the fallback |
| Text.NonEmptyOrNull | frontend/src/components/links/CreateLinkModal.jsx:61-62 | `value \|\| null`: None exactly for the empty string, else the value itself |
| Text.Lower | frontend/src/pages/Links.jsx:64 | ASCII `toLowerCase`: same length, each upper-case letter mapped to its lower-case letter, other characters kept |
| Text.IncludesMeansOccurs | frontend/src/pages/Links.jsx:64-65 | the recursive `includes` holds exactly when the needle occurs at some position of the haystack |
| Text.BeforeFirst | frontend/src/pages/Dashboard.jsx:46 | `s.split(c)[0]`: a prefix of `s` without `c`, followed in `s` by `c` unless it is all of `s` |
| Text.BeforeFirstOfJoin | frontend/src/views/admin/AdminDashboard.jsx:48 | the text before the first separator of `head + sep + tail` is `head` when `head` holds no separator |
| Text.FirstPieceOr | frontend/src/views/admin/AdminDashboard.jsx:38 | `s?.split(sep)[0] \|\| fallback`: the first piece when the value is present and that piece non-empty, else the fallback |
| Text.Utf16Length | frontend/src/views/RegisterView.jsx:27 | JavaScript `.length` counts between one and two units per character |
| Text.Utf8Length | backend/app/auth.py:37-38 | the UTF-8 byte length lies between one and four bytes per character |
| Text.Utf8Width | backend/app/auth.py:37-38 | one code point takes 1 byte exactly below U+0080 and 4 bytes exactly from U+10000, between 1 and 4 in all cases |
| Text.NatToString | frontend/src/pages/Analytics.jsx:115 | the decimal text of a count is non-empty and made of digits |
| Seqs.Filter | frontend/src/pages/Links.jsx:63-66 | `filter` keeps exactly the elements that pass and no others, never more than there were |
| Seqs.FilterAppend | frontend/src/context/ToastContext.jsx:22 | filtering distributes over concatenation, so the kept elements stay in their original order |
| Seqs.FilterKeepsAll | frontend/src/pages/Links.jsx:63-66 | a sequence whose elements all pass is returned whole |
| Seqs.FilterIsSubsequence | frontend/src/pages/Links.jsx:63-66 | the filtered sequence is a subsequence of the original |
| Seqs.FilterIdempotent | frontend/src/components/links/CreateLinkModal.jsx:155 | filtering twice with the same test equals filtering once |
| AuthContext.ExpiryBoundary | frontend/src/context/AuthContext.jsx:52 | `exp * 1000 < now`: a token whose `exp` second equals now is still valid, one millisecond later it is expired, and a token without `exp` never expires |
| AuthContext.AuthProvider.constructor | frontend/src/context/AuthContext.jsx:17-20 | starts UNKNOWN with no user, the token being the stored token when non-empty, else null |
| AuthContext.AuthProvider.Verify | frontend/src/context/AuthContext.jsx:39-77 | no token: UNAUTHENTICATED with no user and no server call; an expired or undecodable token or a failed `/users/me`: storage cleared, token and user null, UNAUTHENTICATED; success: AUTHENTICATED with the reply as user and the token stored; the server is asked iff the token is present, decodes and has not expired |
| AuthContext.AuthProvider.Login | frontend/src/context/AuthContext.jsx:79-105 | success stores and sets the access token and leaves status and user alone; failure reports the detail or 'Login failed' and changes nothing |
| AuthContext.AuthProvider.Register | frontend/src/context/AuthContext.jsx:107-117 | never changes the session; success reports `needsVerify` false, failure the detail or 'Registration failed' |
| AuthContext.AuthProvider.Logout | frontend/src/context/AuthContext.jsx:119-124 | token, user and storage cleared, status UNAUTHENTICATED |
| AuthContext.SignIn | frontend/src/context/AuthContext.jsx:85-97 | `login` followed by the token effect: the status stays as it was between the two, and a new token leads to the server check |
| RouteGuards.GetValidNextPath | frontend/src/components/RouteGuards.jsx:22-29 | every result starts with '/' and holds no '//', and is either '/dashboard' or the given `next` |
| RouteGuards.NextKeptIffSafe | frontend/src/components/RouteGuards.jsx:25-27 | `next` is returned unchanged exactly when it is non-empty, starts with '/' and holds no '//' |
| RouteGuards.NextExamples | frontend/src/components/RouteGuards.jsx:25-28 | absent, empty, '//evil.com' and 'http://evil.com' all give '/dashboard'; a local path is kept |
| RouteGuards.DefaultLandingSafe | frontend/src/components/RouteGuards.jsx:28 | the fallback '/dashboard' itself passes the safety test |
| RouteGuards.ProtectedRoute | frontend/src/components/RouteGuards.jsx:31-52 | loader iff UNKNOWN; UNAUTHENTICATED goes to '/login?next=' + the encoded path; AUTHENTICATED renders the outlet unless an admin route meets an absent or non-superuser user, which goes to '/dashboard' |
| RouteGuards.PublicOnlyRoute | frontend/src/components/RouteGuards.jsx:54-71 | loader iff UNKNOWN, outlet iff UNAUTHENTICATED, and a redirect to the safe `next` iff AUTHENTICATED |
| RouteGuards.NoRedirectWhileUnknown | frontend/src/components/RouteGuards.jsx:35-38 | with UNKNOWN neither guard redirects, whatever the user, path or admin flag |
| RouteGuards.AdminRouteOnProvider | frontend/src/components/RouteGuards.jsx:45-51 | for an authenticated provider, an admin route renders exactly for a superuser |
| AdminLayout.AdminLayoutView | frontend/src/components/layout/AdminLayout.jsx:6-41 | the loader iff `loading` is truthy; otherwise the admin shell exactly for a superuser and a redirect to '/' for anyone else |
| AdminLayout.LoaderUnreachable | frontend/src/components/layout/AdminLayout.jsx:7-11 | the provider supplies no `loading`, so the loader never shows and the shell shows exactly for a superuser |
| AdminLayout.RedirectsWhileUnknown | frontend/src/components/layout/AdminLayout.jsx:7-15 | while the session is UNKNOWN (no user yet) the layout redirects to '/' instead of waiting |
| Models.NewUrl | backend/app/models.py:9-19 | a new row has 0 clicks and is active, and keeps the given target, code, owner and optional password, expiry and limit |
| Models.AppendFreshCode | backend/app/models.py:11 | appending a row whose code is unused keeps short codes unique |
| Auth.GetPasswordHash | backend/app/auth.py:35-40 | refuses a password over 72 UTF-8 bytes, otherwise returns its hash |
| Auth.PasswordLimitBoundary | backend/app/auth.py:37-38 | for a password whose characters all take `w` UTF-8 bytes, the length in bytes is `w` times the character count, and the password is accepted exactly when that is at most 72 |
| Auth.MultiByteBoundary | backend/app/auth.py:37-38 | bytes decide, not characters: 36 'é' pass and 37 fail, 18 four-byte emoji pass and 19 fail, 72 'a' pass |
| Auth.CreateAccessToken | backend/app/auth.py:42-62 | the claims are `data` overlaid by `user_data`, with `exp` set last to now plus the delta, or 15 minutes when the delta is absent or zero |
| Auth.ExpAlwaysOverridden | backend/app/auth.py:60 | a caller-supplied `exp` in either map never survives |
| Auth.FindByEmail | backend/app/auth.py:80-81 | the index of the first user with that email, or None exactly when there is none |
| Auth.GetCurrentUser | backend/app/auth.py:64-85 | 401 when the payload is missing, has no 'sub' or names no user; otherwise the user with that email |
| Auth.GetCurrentActiveUser | backend/app/auth.py:87-90 | 400 'Inactive user' for an inactive user, else the same user |
| Auth.GetCurrentActiveSuperuser | backend/app/auth.py:92-97 | passes only active superusers; a non-superuser gets 400 with the privileges message |
| Service.AlphabetChar | backend/app/main.py:237 | each of the 62 draw values names an ASCII letter or digit, lower-case letters first |
| Service.GenerateShortCode | backend/app/main.py:236-238 | the code has one alphanumeric character per draw, the draw's character |
| Service.GeneratedCodes | backend/app/main.py:236-238 | a six-character generated code passes the alias pattern, and the generator can produce the reserved word 'verify' |
| Service.PatternShape | backend/app/main.py:288 | an alias passing the pattern is a non-empty run of allowed characters, optionally followed by one newline |
| Service.TrailingNewlineSlipsThrough | backend/app/main.py:288-290 | 'admin\n' passes both the pattern and the reserved-word check, while 'ADMIN' is reserved and 'ad min' malformed |
| Service.FindOwned | backend/app/main.py:344-345 | the index of a row with that code and owner, or None exactly when the caller owns no such row |
| Service.FindCode | backend/app/main.py:439-440 | the index of a row with that code, or None exactly when the code is unused |
| Service.DetachClicks | backend/app/models.py:27 | after a link is deleted, its click rows keep everything but lose their link reference |
| Service.UpdateUserResult | backend/app/main.py:125-146 | wrong current password, then a new password without the current one, then a taken email, then an over-long password (the 500 of `GetPasswordHash`) are refused in that order; the update succeeds exactly when none of the four applies, and then email changes only when truthy, name and bio only when not None, and the hash only when a password is given |
| Service.EmptyUserUpdate | backend/app/main.py:125-146 | an empty update, or one repeating the user's own email, returns the user unchanged |
| Service.EmailChangeNeedsNoPassword | backend/app/main.py:125-137 | an unused email is taken without any password, and the stored hash stays |
| Service.UrlAfterUpdate | backend/app/main.py:372-384 | the target changes only for a truthy value, the active flag only when given, the click limit only when positive; nothing else changes |
| Service.CacheAfterUpdate | backend/app/main.py:372-381 | the cache update as written: deactivation drops the key, but a new target is cached whenever the request does not itself deactivate |
| Service.InactiveLinkRecached | backend/app/main.py:372-381 | an inactive link whose target is edited gets cached, so it redirects again although the table says inactive |
| Service.CacheAfterUpdateFixed | backend/app/main.py:372-381 | the corrected cache update: a link inactive after the update has no cache entry, other keys are untouched |
| Service.CacheFollowsUpdate | backend/app/main.py:372-381 | after the corrected update, a cache entry for the link is the updated row's target and the row is active |
| Service.CacheKeyInjective | backend/app/main.py:355 | distinct codes have distinct cache keys |
| Service.RangeDays | backend/app/main.py:161-164 | '24h', '30d' and '90d' give 1, 30 and 90 days, anything else 7 |
| Service.DayShift | backend/app/main.py:209 | going back k whole days moves the UTC day back by k |
| Service.DayMonotone | backend/app/main.py:194 | a later instant never falls on an earlier day |
| Service.ChartDays | backend/app/main.py:205-210 | chart entry i is dated `days - i` days before today, oldest first |
| Service.SumDaysCountsBetween | backend/app/main.py:201-210 | summing the per-day counts of n consecutive days counts the windowed clicks on those days |
| Service.WindowFromFirstDay | backend/app/main.py:194 | counting from the window's first day onward counts every windowed click up to the last day |
| Service.ChartCoversWindow | backend/app/main.py:191-210 | the gap-filled chart's days, summed, count every owned click since the window start up to today |
| Service.TopEntries | backend/app/main.py:223 | one entry per grouped row with its count; a null or empty value is named 'Direct/Unknown', any other keeps its text |
| Service.OwnedCountAppend | backend/app/main.py:476-477 | appending a row adds one to the user's link count and its clicks to the user's total exactly when the user owns it |
| Service.OwnedCountIsIndexCount | backend/app/main.py:477 | the recursive link count equals the number of row positions the user owns |
| Service.ClickRaisesOwnerTotal | backend/app/main.py:454 | one more click on a row raises the dashboard total of that row's owner by one, leaves other users' totals alone and changes no link count |
| Service.OwnedFacts | backend/app/main.py:476-477 | with non-negative counters the click sum is non-negative, zero without links, and the count is zero exactly when the user owns nothing |
| Service.CacheHitAgrees | backend/app/main.py:435-437 | under the invariant a cache hit returns the target of an active row with that code |
| Service.UpdateKeepsConsistent | backend/app/main.py:372-387 | a link update with the corrected cache step keeps every part of the store invariant |
| Service.CountKeepsConsistent | backend/app/main.py:446-462 | counting a click on an active link keeps the store invariant |
| Service.EmailChangeKeepsUnique | backend/app/main.py:131-136 | taking an email that no other user holds keeps emails unique |
| Service.UpdateKeepsCoherent | backend/app/main.py:372-381 | after the corrected cache step the cache still agrees with the updated table |
| Service.RemoveKeepsCoherent | backend/app/main.py:353-355 | dropping a deleted link's cache key keeps the cache in agreement with the remaining rows |
| Service.CountKeepsCoherent | backend/app/main.py:462 | re-caching an active link's target after a click keeps the cache in agreement |
| Service.Store.constructor | backend/app/models.py:6-31 | an empty link table, no clicks, an empty cache and the given users, satisfying the invariant |
| Service.Store.CheckSlug | backend/app/main.py:466-469 | available exactly when no row carries the slug |
| Service.Store.PickFreeCode | backend/app/main.py:298-303 | the retry loop returns the first six-character drawn code that is not in use |
| Service.Dispatch | backend/app/main.py:240-279 | the first registered route whose path matches answers; none exactly when no route has the path |
| Service.PlaceholderReply | backend/app/main.py:240-263 | the placeholder handler's reply is a 500 |
| Service.PublicCreateShadowed | backend/app/main.py:240-279 | as registered, `POST /shorten` reaches the placeholder and fails with 500, never the public create handler; `/shorten_auth` reaches the authenticated one |
| Service.PublicCreateReachable | backend/app/main.py:265-279 | without the placeholder, `/shorten` reaches the public create handler and `/shorten_auth` the authenticated one |
| Service.Store.CreateShortUrl | backend/app/main.py:283-316 | the alias is refused as malformed, then reserved, then taken, in that order, and accepted otherwise; a missing or empty alias gets the first free generated code; the new row is appended with the request's fields and owner; the invariant holds |
| Service.Store.UpdateUser | backend/app/main.py:118-151 | the outcome is `UpdateUserResult`, only that user's row changes, and only on success |
| Service.Store.UpdateUserUrl | backend/app/main.py:359-389 | 404 unless the caller owns the code; otherwise the row becomes `UrlAfterUpdate` and the cache follows the corrected update `CacheAfterUpdateFixed`, not the as-written step (see "## Left out" and "## Findings"), keeping the invariant |
| Service.Store.DeleteUserUrl | backend/app/main.py:337-357 | 404 with 'URL not found or access denied' unless the caller owns the code; otherwise the row is removed, its clicks detached, the cache key dropped and the code free |
| Service.Store.Redirect | backend/app/main.py:427-464 | a non-empty cache hit returns the cached target and changes nothing; otherwise 404 for an unknown code, 410 for an inactive link, and a redirect exactly when the code is in use and active, which adds exactly one click row (referrer defaulting to 'Direct'), clicks + 1 and caches the target |
| Service.Store.RecordClick | backend/app/main.py:446-462 | the counter of that link rises by one, one click row is appended with the next key, and the cache maps the code to the target |
| Service.Store.GetUserAnalytics | backend/app/main.py:155-231 | a user without links gets empty lists and zeros; otherwise days + 1 chart entries oldest first, each the owned clicks of its day or 0, and the three named top lists |
| Service.Store.GetDashboardStats | backend/app/main.py:471-483 | the total is the sum of the clicks on the user's rows and the link count is the number of rows the user owns; the total is non-negative and zero without links, and there are no links exactly when the user owns no row |
| CreateLinkModal.SanitizeAlias | frontend/src/components/links/CreateLinkModal.jsx:155 | the alias keeps only characters of `[a-zA-Z0-9-_]` and never grows |
| CreateLinkModal.SanitizeIsSubsequence | frontend/src/components/links/CreateLinkModal.jsx:155 | the sanitised alias is the typed text with characters deleted |
| CreateLinkModal.SanitizeKeepsClean | frontend/src/components/links/CreateLinkModal.jsx:155 | text of allowed characters only passes unchanged |
| CreateLinkModal.SanitizeIdempotent | frontend/src/components/links/CreateLinkModal.jsx:155 | sanitising twice equals sanitising once |
| CreateLinkModal.BuildPayload | frontend/src/components/links/CreateLinkModal.jsx:59-63 | alias and password are sent as the value, or null when empty; the url as typed |
| CreateLinkModal.ModalAliasNeverMalformed | frontend/src/components/links/CreateLinkModal.jsx:155 | an alias sent from the modal always passes the service's alias pattern |
| CreateLinkModal.Form.constructor | frontend/src/components/links/CreateLinkModal.jsx:9-16 | empty inputs, unknown availability, options closed, not loading, no error and no result |
| CreateLinkModal.Form.Open | frontend/src/components/links/CreateLinkModal.jsx:20-30 | opening resets url, alias, password, availability, options, result and error, and leaves loading |
| CreateLinkModal.Form.TypeAlias | frontend/src/components/links/CreateLinkModal.jsx:33-44 | the field holds the sanitised text; a changed empty alias clears availability with no check, a changed non-empty one starts a check |
| CreateLinkModal.Form.CheckAnswered | frontend/src/components/links/CreateLinkModal.jsx:38-43 | the availability answer, or null on failure, is stored and nothing else changes |
| CreateLinkModal.Form.BeginSubmit | frontend/src/components/links/CreateLinkModal.jsx:46-64 | an empty url does nothing; a known-taken alias sets 'Custom alias is already taken' and sends nothing; otherwise the payload is sent with loading on and the error cleared |
| CreateLinkModal.Form.FinishSubmit | frontend/src/components/links/CreateLinkModal.jsx:65-72 | success shows origin + '/' + code, failure the detail or 'Failed to create link'; loading ends false |
| HomeView.NextTheme | frontend/src/views/HomeView.jsx:40-42 | 'light' becomes 'dark' and anything else 'light' |
| HomeView.ToggleTwice | frontend/src/views/HomeView.jsx:34 | the theme starts 'dark', and toggling twice restores either theme |
| HomeView.DigitPrefix | frontend/src/views/HomeView.jsx:76 | the longest prefix of digits: a prefix, all digits, stopped by a non-digit |
| HomeView.ParseInt | frontend/src/views/HomeView.jsx:76 | NaN (None) exactly when no digit follows the optional sign; a '-' gives a value at most 0, otherwise at least 0 |
| HomeView.ParseIntRoundTrip | frontend/src/views/HomeView.jsx:76 | the decimal text of a count parses back to it; '1.5' gives 1, '-3' gives -3, 'e' gives NaN |
| HomeView.BuildPayload | frontend/src/views/HomeView.jsx:71-77 | alias, password and expiry are the value or null; the click limit is `parseInt` of a non-empty value, else null |
| HomeView.Page.constructor | frontend/src/views/HomeView.jsx:19-34 | every field empty, nothing loading and the 'dark' theme |
| HomeView.Page.ToggleTheme | frontend/src/views/HomeView.jsx:40-42 | the theme becomes `NextTheme` of the old one, and nothing else changes |
| HomeView.Page.TypeAlias | frontend/src/views/HomeView.jsx:44-56 | the field holds the typed text; a changed empty alias clears availability with no check, a changed non-empty alias starts one; every other field is kept |
| HomeView.Page.CheckAnswered | frontend/src/views/HomeView.jsx:49-55 | the availability answer is stored and every other field is kept |
| HomeView.Page.BeginSubmit | frontend/src/views/HomeView.jsx:58-78 | an empty url aborts; a known-taken alias sets 'Custom alias is already taken.'; otherwise loading on, error and short URL cleared, and the payload built from the form as the user left it is sent; the inputs and the theme are kept |
| HomeView.Page.FinishSubmit | frontend/src/views/HomeView.jsx:80-98 | a created code gives origin + '/' + code; a refusal the detail or 'Failed to shorten URL'; a failed fetch its message; loading ends false; the inputs, the availability and the theme are kept |
| RegisterView.Validate | frontend/src/views/RegisterView.jsx:21-31 | a mismatch is reported first; the under-8 length message only for matching passwords; no error exactly for matching passwords of 8 or more units |
| RegisterView.ValidateExamples | frontend/src/views/RegisterView.jsx:27 | seven characters are refused, eight accepted |
| RegisterView.NextRoute | frontend/src/views/RegisterView.jsx:35-40 | the pending-verification page with the encoded email when verification is needed, else '/login?registered=true' |
| RegisterView.VerifyPageUnreachable | frontend/src/context/AuthContext.jsx:110 | the provider's `register` always reports `needsVerify` false, so success always leads to the login page |
| RegisterView.Form.constructor | frontend/src/views/RegisterView.jsx:10-14 | empty fields, no error, not loading |
| RegisterView.Form.BeginSubmit | frontend/src/views/RegisterView.jsx:16-33 | a validation failure shows its message with loading off; otherwise `register(email, password)` is called once with loading on and the error cleared |
| RegisterView.Form.FinishSubmit | frontend/src/views/RegisterView.jsx:35-44 | success navigates with loading still on; failure shows the reply's error and ends loading |
| ResetPasswordView.View | frontend/src/views/ResetPasswordView.jsx:47-88 | the invalid-link screen iff the token is missing; the success notice replaces the form; the message shows above the form iff the status is 'error' |
| ResetPasswordView.MissingTokenScreen | frontend/src/views/ResetPasswordView.jsx:47-57 | an absent or empty token shows the invalid-link screen in every status |
| ResetPasswordView.Page.constructor | frontend/src/views/ResetPasswordView.jsx:14-22 | a missing token gives 'error' with 'Invalid or missing reset token.'; otherwise 'idle' with no message |
| ResetPasswordView.Page.BeginSubmit | frontend/src/views/ResetPasswordView.jsx:24-36 | a mismatch gives 'error' with 'Passwords do not match' and sends nothing; otherwise 'loading', message cleared, token and password sent, button disabled |
| ResetPasswordView.Page.FinishSubmit | frontend/src/views/ResetPasswordView.jsx:37-44 | success gives 'success' and schedules the login page with its message; failure gives 'error' with the detail or the expiry message |
| FormStatus.SubmitDisabled | frontend/src/views/ResetPasswordView.jsx:123 | the submit button is disabled exactly while loading |
| ForgotPasswordView.ArrowNeverShown | frontend/src/views/ForgotPasswordView.jsx:105 | `!status === 'loading'` compares a boolean with a string, so the arrow never renders |
| ForgotPasswordView.View | frontend/src/views/ForgotPasswordView.jsx:50-110 | the form and the back link show exactly when the status is not 'success', the success notice exactly when it is |
| ForgotPasswordView.Page.constructor | frontend/src/views/ForgotPasswordView.jsx:8-11 | empty email and message, status 'idle', no development note |
| ForgotPasswordView.Page.BeginSubmit | frontend/src/views/ForgotPasswordView.jsx:13-19 | 'loading' with the message cleared, and the email sent |
| ForgotPasswordView.Page.FinishSubmit | frontend/src/views/ForgotPasswordView.jsx:20-30 | success gives 'success' with the development note iff `smtp_configured` is exactly false; failure gives 'error' with the detail or the fixed message |
| Settings.PrefillName | frontend/src/pages/Settings.jsx:31 | the name, else the email up to its first '@', else undefined exactly when both are missing |
| Settings.BuildSubmission | frontend/src/pages/Settings.jsx:44-57 | name, email and bio are always sent; a non-empty new password that differs from its confirmation is refused with 'New passwords do not match'; a matching one travels with the current password; an empty one sends no password field |
| Settings.ProfileSaveKeepsPassword | frontend/src/pages/Settings.jsx:51 | with the new-password field empty the service never changes the stored hash |
| Settings.NewPasswordNeedsCurrent | frontend/src/pages/Settings.jsx:55-56 | a new password sent with an empty current password is refused by the service as 'Current password required to change password' |
| Settings.Page.constructor | frontend/src/pages/Settings.jsx:12-25 | every field empty (the name as ''), not loading, no message |
| Settings.Page.Prefill | frontend/src/pages/Settings.jsx:27-36 | a signed-in user fills name, email and bio ('' for missing ones); the password fields keep their text |
| Settings.Page.BeginSave | frontend/src/pages/Settings.jsx:38-59 | loading on and message cleared, then either the update body is sent or the mismatch is shown with loading off |
| Settings.Page.FinishSave | frontend/src/pages/Settings.jsx:59-67 | success reloads with the success message; failure shows the detail or the error's message; loading ends false; every form field, the password fields included, is kept |
| UserModals.PrefillForm | frontend/src/components/admin/UserModals.jsx:158-167 | name and email or '', an empty password, both flags copied |
| UserModals.StripPassword | frontend/src/components/admin/UserModals.jsx:174-175 | every field is submitted, except that an empty password is removed |
| UserModals.UntouchedEditSendsNoPassword | frontend/src/components/admin/UserModals.jsx:158-176 | submitting an untouched edit form sends no password |
| UserModals.EditTitle | frontend/src/components/admin/UserModals.jsx:183 | 'Edit ' + the name, or the email (printed 'null' when missing) |
| UserModals.DeleteTarget | frontend/src/components/admin/UserModals.jsx:282-315 | rendered only when open with a user, and the confirm button submits that user's id |
| UserModals.AddUserModal.constructor | frontend/src/components/admin/UserModals.jsx:36-42 | empty name, email and password, not a superuser, active |
| UserModals.EditUserModal.constructor | frontend/src/components/admin/UserModals.jsx:150-156 | the empty form, before any user is loaded |
| UserModals.AddUserModal.Submit | frontend/src/components/admin/UserModals.jsx:44-49 | the modal submits exactly when it is open (it renders nothing while closed), and then the form as it stands |
| UserModals.EditUserModal.Prefill | frontend/src/components/admin/UserModals.jsx:158-168 | a present user replaces the whole form with its prefill |
| UserModals.EditUserModal.Submit | frontend/src/components/admin/UserModals.jsx:170-176 | only while open with a user: that user's id and the form without an empty password |
| Links.Visible | frontend/src/pages/Links.jsx:63-66 | the shown links are exactly those whose code or target contains the search text ignoring case, in list order |
| Links.EmptySearchShowsAll | frontend/src/pages/Links.jsx:63-66 | an empty search shows every link |
| Links.WithoutCode | frontend/src/pages/Links.jsx:55 | exactly the links with that code are removed, the rest kept in order |
| Links.WithoutAbsentCode | frontend/src/pages/Links.jsx:55 | removing a code the list does not hold changes nothing |
| Links.Page.constructor | frontend/src/pages/Links.jsx:12-23 | no links, an empty search, nothing being deleted or copied |
| Links.Page.Copy | frontend/src/pages/Links.jsx:42-47 | the copied URL is origin + '/' + code, and the code is marked as copied; the list, the search and the deletion mark are kept |
| Links.Page.BeginDelete | frontend/src/pages/Links.jsx:49-52 | declining the confirmation changes nothing; otherwise the code is marked as being deleted and the current list is captured; the list, the search and the copied mark are kept |
| Links.Page.FinishDelete | frontend/src/pages/Links.jsx:53-60 | success leaves the captured list without that code; failure alerts and keeps the list; the deletion mark is cleared either way; the search and the copied mark are kept |
| AdminUsers.FilterUsers | frontend/src/views/admin/AdminUsers.jsx:75-78 | the shown accounts are exactly those whose email, or present name, contains the term ignoring case, in list order |
| AdminUsers.EmptyTermShowsAll | frontend/src/views/admin/AdminUsers.jsx:75-78 | an empty term shows every account |
| AdminUsers.NoUsersFound | frontend/src/views/admin/AdminUsers.jsx:289 | the "No users found" block shows exactly when no account matches |
| AdminUsers.Page.constructor | frontend/src/views/admin/AdminUsers.jsx:8-16 | no users yet and loading, every dialog closed, no action running |
| AdminUsers.Page.FinishLoad | frontend/src/views/admin/AdminUsers.jsx:18-31 | the mount fetch: a reply replaces the list, a failure keeps it, and loading ends false; the dialogs and the action flag are kept |
| AdminUsers.Page.BeginAction | frontend/src/views/admin/AdminUsers.jsx:34 | the action flag is raised and nothing else changes |
| AdminUsers.Page.FinishAction | frontend/src/views/admin/AdminUsers.jsx:33-73 | success refetches (a failed refetch keeps the list) and closes only that action's dialog; failure alerts 'Failed to <verb> user: ' + the detail or message and leaves the dialogs; the action flag ends false |
| ToastContext.WithoutId | frontend/src/context/ToastContext.jsx:21-23 | every toast with that id is dropped, the others kept in order |
| ToastContext.RemoveAbsentId | frontend/src/context/ToastContext.jsx:22 | removing an id no toast carries changes nothing |
| ToastContext.AddThenRemove | frontend/src/context/ToastContext.jsx:17-22 | adding a toast with a fresh id and removing that id restores the list |
| ToastContext.StyleOf | frontend/src/context/ToastContext.jsx:60-68 | 'success' and 'error' have their own style and icon; every other kind gets the info look |
| ToastContext.Provider.constructor | frontend/src/context/ToastContext.jsx:13 | no toasts |
| ToastContext.Provider.Add | frontend/src/context/ToastContext.jsx:15-19 | exactly one toast appended at the end, kind defaulting to 'success'; its removal is scheduled after the duration, 2000 by default |
| ToastContext.Provider.Remove | frontend/src/context/ToastContext.jsx:21-23 | the list becomes `WithoutId` of the old list |
| Faq.Toggled | frontend/src/views/support/FAQ.jsx:83 | clicking the open item closes all (-1); clicking another opens exactly that one |
| Faq.OpenFlags | frontend/src/views/support/FAQ.jsx:82 | an item is open iff its index is `openIndex`, so at most one is open, and none for -1 |
| Faq.ClickTwice | frontend/src/views/support/FAQ.jsx:83 | two clicks on the same item restore the state exactly when that item was open or nothing was |
| Faq.Accordion.constructor | frontend/src/views/support/FAQ.jsx:59 | the first question starts open |
| Faq.Accordion.Click | frontend/src/views/support/FAQ.jsx:83 | the index becomes `Toggled` of the old one and stays -1 or a valid item |
| AnalyticsPage.ChartPrefixTotal | frontend/src/pages/Analytics.jsx:55 | summing the first k chart entries counts the clicks of the chart's first k days |
| AnalyticsPage.TotalIsWindowClicks | frontend/src/pages/Analytics.jsx:55 | the page's total equals the service's count of the user's clicks in the window |
| AnalyticsPage.AveragePerLink | frontend/src/pages/Analytics.jsx:128 | `Math.round(total / n)`: the nearest integer with halves rounded up, 0 without links |
| AnalyticsPage.AverageExamples | frontend/src/pages/Analytics.jsx:128 | 5 over 2 rounds to 3, 4 over 3 to 1, and no links gives 0 |
| AnalyticsPage.TopLinkCard | frontend/src/pages/Analytics.jsx:111-116 | '/' + the first link's code and its clicks, or '-' and 'No data' |
| AnalyticsPage.DisplayName | frontend/src/pages/Analytics.jsx:217 | the name 'None' is shown as 'Direct / Unknown', any other as is |
| AnalyticsPage.StatsList | frontend/src/pages/Analytics.jsx:211-224 | 'No data yet' iff the list is empty, else one row per entry with its shown name and count |
| AnalyticsPage.MissingNamesKeepServiceLabel | frontend/src/pages/Analytics.jsx:217 | a missing name arrives as the service's 'Direct/Unknown' and is shown so; only a stored 'None' becomes 'Direct / Unknown' |
| AnalyticsPage.View | frontend/src/pages/Analytics.jsx:34-46 | the skeleton while loading, 'Failed to load data' when no reply arrived, else the report |
| AnalyticsPage.Page.constructor | frontend/src/pages/Analytics.jsx:15-17 | no data, loading, the '7d' range |
| AnalyticsPage.Page.BeginFetch | frontend/src/pages/Analytics.jsx:19-23 | the chosen range is requested with loading on and the old data kept |
| AnalyticsPage.Page.FinishFetch | frontend/src/pages/Analytics.jsx:24-29 | a reply replaces the data, a failure keeps it; loading ends false |
| Dashboard.HasLinksIffOwner | frontend/src/pages/Dashboard.jsx:45 | with the service's stats, the dashboard has links exactly when the user owns a row |
| Dashboard.Greeting | frontend/src/pages/Dashboard.jsx:48-53 | morning before 12, afternoon before 18, evening after; the admin dashboard repeats these thresholds at AdminDashboard.jsx lines 31-36 |
| Dashboard.FirstName | frontend/src/pages/Dashboard.jsx:46 | the email up to '@', or 'User' when the email is missing or that part empty |
| Dashboard.StatCards | frontend/src/pages/Dashboard.jsx:89-119 | clicks and links from the reply, or 0; the click-rate card is always 0 and the top-source card always 'Direct' |
| Dashboard.View | frontend/src/pages/Dashboard.jsx:31-120 | the skeleton while loading; otherwise the empty state iff there are no links, and the New Link button and cards iff there are |
| Dashboard.Page.constructor | frontend/src/pages/Dashboard.jsx:13-14 | no stats, loading |
| Dashboard.Page.FinishFetch | frontend/src/pages/Dashboard.jsx:18-27 | a reply replaces the stats, a failure keeps them; loading ends false |
| AdminDashboard.FirstName | frontend/src/views/admin/AdminDashboard.jsx:38 | the name up to its first space, or 'Admin' when missing or that piece is empty |
| AdminDashboard.ReportFilename | frontend/src/views/admin/AdminDashboard.jsx:48 | 'shawty_report_' + a piece without 'T' + '.csv' |
| AdminDashboard.ReportNamedByDate | frontend/src/views/admin/AdminDashboard.jsx:48 | for an ISO timestamp the file is named after its date alone |
| AdminDashboard.Page.constructor | frontend/src/views/admin/AdminDashboard.jsx:10-15 | all three counters start at 0, loading |
| AdminDashboard.Page.FinishFetch | frontend/src/views/admin/AdminDashboard.jsx:17-29 | a reply replaces the counters, a failure keeps them; loading ends false |
| AdminDashboard.DownloadReport | frontend/src/views/admin/AdminDashboard.jsx:40-56 | a finished download is saved under `ReportFilename` of now; a failure alerts 'Failed to download report' |

## Left out

- Network, database and cache calls are not modelled as calls. Their outcomes
  are method parameters, or `Store` fields replaced in one step.
- Transactions and concurrency are left out. This includes overlapping
  `verifySession` runs when the token changes quickly.
- The cache entry's one-hour expiry (`ex=3600`) is not modelled.
- The service without Redis is not modelled: the model always has a cache.
- Background click enrichment (`process_click_stats`) is not modelled. It
  calls an external geolocation service and a user-agent parser.
- Startup, CORS, environment configuration and the database setup are left out.
- `Service.Store.CreateShortUrl` with no owner models the public handler
  `create_short_url_public`. The service as written never runs it: the
  placeholder `create_short_url` (main.py lines 240-263) is registered first
  on the same method and path, so it answers every `POST /shorten` with a
  500. The landing page's `HomeView.Page.FinishSubmit` therefore only ever
  receives the failed-request reply from the server as written. See "## Findings".
- `schemas.py` is not part of this model, and neither is the declaration of
  `models.User`. Record shapes are inferred from their uses.
- Email sending (`email_utils.py`) is not part of this model.
- bcrypt, JWT signing and decoding, `URLSearchParams`, `encodeURIComponent`
  and `random.choice` are parameters, not computations.
- Clocks are integer seconds; `datetime.utcnow` and `Date.now` are parameters.
  The chart dates all come from one `now`: the source reads the clock again
  on every loop iteration.
- Timers are not modelled: the alias-check debounce, toast auto-removal, the
  copied-mark reset and the reset page's delayed navigation. Each scheduled
  action is returned instead of run.
- Case handling is ASCII only: `toLowerCase` and `.lower()` fold only A–Z.
- `AnalyticsPage.AveragePerLink` uses exact integer arithmetic. JavaScript
  divides in floating point, which only differs for very large totals.
- `HomeView.ParseInt` handles only what a number input can hold: a sign and
  digits. It does not model leading whitespace or hex prefixes.
- Browser form validation is not modelled: `required`, `pattern`,
  `type=number` and `maxLength`.
- `Service.Store.UpdateUserUrl` runs the corrected cache step
  `CacheAfterUpdateFixed`, not the step at main.py lines 372-381. The two differ
  for a link that is inactive after the update and whose request sends a
  truthy `original_url` without `is_active: false`. The source caches the new
  target there, while the model drops the key. The as-written step is kept
  as `Service.CacheAfterUpdate`, with the gap shown by
  `Service.InactiveLinkRecached`.
- `Service.Store.Redirect` does not check `expires_at`, `max_clicks` or a
  link password, because the source does not either.
- `Service.Store.GetUserAnalytics` takes the top lists' grouped rows and the
  top links as given. Their ordering and 5-row limit belong to the database
  query.
- `Service.Store.GetDashboardStats` omits `recent_links`, a plain query result.
- `Service.Store.CreateShortUrl` requires, without a custom alias, that some
  draw yields a free code. The source's loop would otherwise retry forever.
- The link password is stored as given, as the source stores it.
- Thin wrappers and presentation-only components are not modelled: the admin
  view, link unlock and verification views, the edit, QR and delete-account
  dialogs, the navbar, layouts, the stat card animation and the legal pages.
- `ToastContext.StyleOf` treats any kind other than 'success' and 'error' as
  'info'. It ignores prototype keys such as 'toString', which a JavaScript
  object lookup would find.

## Findings

| source | as written | input that shows it | evidently intended | confidence | as-written member | corrected member |
|---|---|---|---|---|---|---|
| backend/app/main.py:372-381 | a truthy `original_url` is written to the cache unless the same request sets `is_active` false, even when the link is already inactive | a link with `is_active` false, updated with `{"original_url": "https://example.org"}` only: the cache now holds the target, and redirect answers from the cache instead of 410 | an inactive link is never cached, so redirect keeps refusing it | not executed | Service.InactiveLinkRecached | Service.CacheAfterUpdateFixed |
| backend/app/main.py:240-279 | a placeholder handler whose body is only `pass` is registered for `POST /shorten` before the public create handler on the same path | any anonymous `POST /shorten`, such as the landing page's form: the first matching route answers, returns None against the `schemas.URL` response model, and the client gets a 500 | `POST /shorten` creates an ownerless link through `create_short_url_public` | not executed | Service.PublicCreateShadowed | Service.PublicCreateReachable |

The `Store` uses the corrected cache update. With it, the cache always agrees
with the table: every cached code belongs to an active link and maps to that
link's current target (`Service.CacheFollowsUpdate`,
`Service.CacheHitAgrees`).

# Website monitoring dashboard — a Dafny model

This project models the core of a small website-monitoring application. An administrator signs in, registers websites (HTTP, HTTPS or PING), and triggers checks. Each check records a status-check row: up or down, response time, status code and error message. The dashboard shows totals, the latest status and the average response time.

The model covers:

- the probes of `lib/monitoring.ts`: URL normalisation, the HTTP probe and its error paths, the ping host clean-up, the `time=…ms` pattern, rounding, and the persisted record;
- the three API routes, with their 401 / 400 / 500 paths;
- the dashboard statistics of `app/page.tsx`;
- the badge, "last checked" and check-in-progress logic of `components/website-list.tsx`;
- the middleware matcher and `authorized` callback;
- the callbacks of `lib/auth.ts`.

Outside effects are parameters:

- `Network` holds the answer of `fetch` per URL, the outcome of running `ping` per host, and the elapsed milliseconds of one probe.
- `StoreAnswer` says whether the database accepted a status-check row, and its timestamp.
- The website listing is an `Option` (`None` means the query threw).
- `create` is the answer of the website insert.
- `session` / `hasToken` are booleans.

The bulk run takes each website's probe result as a parameter. `MonitorRoutes.Probes(net)` gives, for each website, what `checkWebsiteStatus` returns against that website's network, and `MonitorAll` passes exactly that. `MonitorRoutes.MonitorWebsiteSettles` shows that each step of the run is one `monitorWebsite` call.

Modules follow the program:

| module | what it models |
|---|---|
| `Common` | `Option`, `Outcome` |
| `Decimal` | digit strings, number rendering, `Math.round` of a quotient |
| `Text` | prefixes, ASCII upper-casing |
| `Records` | the Website and StatusCheck rows |
| `Monitoring` | `lib/monitoring.ts` |
| `Api` | JSON responses |
| `MonitorRoutes` | `app/api/monitor/route.ts`, `app/api/monitor/single/route.ts` |
| `WebsitesRoute` | `app/api/websites/route.ts` |
| `Dashboard` | `app/page.tsx` |
| `WebsiteList` | `components/website-list.tsx` |
| `Middleware` | `middleware.ts` |
| `Auth` | `lib/auth.ts` |

The HTTP probe counts a website as up exactly for a status in 200..299, the range `response.ok` reports. An address that does not start with `http` is fetched with `https://` prefixed, whatever the website's type.

## Model

| member | source | states |
|---|---|---|
| Monitoring.NormalizeUrl | lib/monitoring.ts:28 | the address fetched always starts with "http"; it is the stored address unchanged iff that starts with "http", and otherwise "https://" followed by it |
| Monitoring.NormalizeUrlIdempotent | lib/monitoring.ts:28 | normalising a normalised address changes nothing |
| Monitoring.NormalizeUrlKeepsHttpbin | lib/monitoring.ts:28 | a host such as "httpbin.org" is fetched without a scheme, because the test is a bare prefix "http"; "example.com" gets "https://" |
| Decimal.FromNat | lib/monitoring.ts:46 | the rendering of a whole number is a non-empty digit string with no leading zero whose value is that number |
| Monitoring.HttpMessage | lib/monitoring.ts:46 | the message for a non-ok status is "HTTP " followed by the digits of the status, with no leading zero |
| Monitoring.HttpCheck | lib/monitoring.ts:26-68 | a response gives its status code, up iff 200..299, and "HTTP <status>" when not ok; an AbortError rejection gives "Request timeout"; another Error rejection gives its message; any other thrown value gives "Unknown error"; all of these are down with no code and take the elapsed time; a null or undefined rejection makes the `.name` read throw a TypeError that escapes the probe |
| Monitoring.StripScheme | lib/monitoring.ts:73 | a leading "http://" or "https://" is removed; any other host is unchanged |
| Monitoring.UpToSlash | lib/monitoring.ts:73 | the first piece of `split("/")`: a prefix with no "/", which is the whole text or stops right before a "/" |
| Monitoring.CleanHost | lib/monitoring.ts:73 | the ping host is the scheme-stripped address up to its first "/" |
| Monitoring.CleanHostIdempotent | lib/monitoring.ts:73 | cleaning a clean host changes nothing |
| Monitoring.MatchAtSound | lib/monitoring.ts:92 | a match found by the deterministic matcher spells the pattern `time[<=](\d+(?:\.\d+)?)ms`, ignoring case, at that position |
| Monitoring.MatchAtComplete | lib/monitoring.ts:92 | every way the pattern can be spelled at a position is the one the matcher finds, so the capture at a position is unique |
| Monitoring.FindTimeAt | lib/monitoring.ts:92 | the search returns the first position at or after the start where the pattern matches, or none if it matches nowhere |
| Monitoring.PingTimeIsLeftmostMatch | lib/monitoring.ts:92 | the ping time is absent iff the pattern matches nowhere in stdout; when present it is the capture of the leftmost match |
| Monitoring.RoundedMillisIsHalfUp | lib/monitoring.ts:93 | rounding the captured decimal on its first fraction digit equals `Math.round` of its exact value: the nearest integer, halves up |
| Decimal.RoundHalfUp | app/page.tsx:252 | the result r satisfies (2r-1)·den <= 2·num < (2r+1)·den, which is what `Math.round(num / den)` returns |
| Decimal.RoundHalfUpWithin | app/page.tsx:237-252 | rounding a quotient that lies between two integers stays between them |
| Monitoring.PingCheck | lib/monitoring.ts:70-110 | the probe is up iff ping ran with empty stderr; a non-empty stderr becomes the error message; a failed run gives its Error message or "Ping failed"; the time is the rounded `time=…ms` when present and the elapsed time otherwise; there is never a status code |
| Monitoring.CheckWebsiteStatus | lib/monitoring.ts:6-24 | the type "PING" selects the ping probe and any other type the HTTP probe; an error escaping the probe gives down, no code, the elapsed time and the error's message; every result has an error message iff it is down |
| Monitoring.KindDispatch | lib/monitoring.ts:10-14 | HTTP and HTTPS websites are probed identically; PING websites are pinged and never carry a status code |
| Monitoring.MonitorWebsite | lib/monitoring.ts:112-129 | the call succeeds iff the insert is accepted; then it returns the probe result and appends exactly one row holding the website id and the result's status, time, code and message |
| Text.ToUpperAscii | components/website-list.tsx:80 | upper-casing keeps the length and maps each letter a–z to A–Z, leaving other characters |
| WebsiteList.StatusLabel | components/website-list.tsx:80 | the status label is "UP" for up and "DOWN" for down |
| WebsiteList.ZeroTimeBadgeAsWritten | components/website-list.tsx:81 | as written, an up check with response time 0 shows "UP0", not "UP" |
| WebsiteList.BadgeText | components/website-list.tsx:80-81 | the badge text is the status label, followed by " • <digits of the time>ms", with no leading zero, exactly when the time is present and non-zero |
| WebsiteList.BadgeTextCorrectsZero | components/website-list.tsx:80-81 | the corrected text differs from the as-written text exactly for a time of 0 |
| WebsiteList.StatusBadge | components/website-list.tsx:65-84 | no checks gives a "secondary" "No Data" badge; otherwise the variant is "default" iff the latest check is up, "destructive" iff it is down, and the text is the corrected badge text |
| WebsiteList.LastCheckOf | components/website-list.tsx:98-111 | no checks gives "Never"; otherwise the age selects under one minute "Just now", under an hour whole minutes (1–59), under a day whole hours (1–23), and otherwise the date of the check |
| WebsiteList.LastCheckText | components/website-list.tsx:100-110 | the label reads "Never", "Just now", the digits of the minutes followed by "m ago", the digits of the hours followed by "h ago" (digits with no leading zero), or the locale date |
| WebsiteList.BeginCheck | components/website-list.tsx:56 | starting a check adds that website id and keeps every other id |
| WebsiteList.EndCheck | components/website-list.tsx:58-62 | finishing a check removes that website id and keeps every other id |
| WebsiteList.DisabledTracksLastEvent | components/website-list.tsx:55-63 | after any sequence of starts and finishes, a website's "Check now" button is disabled iff its last event was a start, or it has no event and was disabled before |
| MonitorRoutes.ActiveSites | app/api/monitor/route.ts:14-16 | the listed websites are exactly the active ones: each active website occurs as often as in the table and no inactive one occurs |
| MonitorRoutes.RunAll | app/api/monitor/route.ts:18-20 | one settled outcome per website, each the website's own probe result settled by its own store answer; the table after the run is the old table followed by exactly the rows of the accepted websites, in listing order |
| MonitorRoutes.RowOf | lib/monitoring.ts:118-126 | the row an accepted call appends holds the website id, the probe's status, time, code and message, and the store's timestamp |
| MonitorRoutes.MonitorWebsiteSettles | lib/monitoring.ts:112-129 | one `monitorWebsite` call settles as the bulk run settles it: rejected when the store refuses, otherwise fulfilled with the probe result and extending the table by exactly that website's row |
| MonitorRoutes.RowsForIndex | app/api/monitor/route.ts:18-20 | an accepted target's row stands right after the rows of the accepted targets before it |
| MonitorRoutes.RunAllRowInOrder | app/api/monitor/route.ts:18-20 | one row per accepted target, in target order: target i's row follows the old table and the rows of the accepted targets before it, and holds target i's probe result and timestamp |
| MonitorRoutes.RejectionIsolated | app/api/monitor/route.ts:18-20 | the outcome for one website does not depend on the store's answers for the others |
| MonitorRoutes.CountsPartition | app/api/monitor/route.ts:22-23 | fulfilled plus rejected outcomes count every website |
| MonitorRoutes.SuccessfulCountsAcceptedAppends | app/api/monitor/route.ts:22 | the successful count is the number of websites whose row the database accepted |
| MonitorRoutes.MonitorAll | app/api/monitor/route.ts:7-33 | no session gives 401 "Unauthorized"; a failed listing gives 500 "Failed to run monitoring"; otherwise 200 with "Monitored <n> websites" for the n active websites; successful is the number of active websites whose row was stored and failed the rest; the table becomes the old table followed by exactly the rows of the stored websites, in listing order |
| MonitorRoutes.MonitorSingle | app/api/monitor/single/route.ts:6-24 | no session gives 401; an unreadable body gives 500; a missing or empty id, URL or type gives 400 "Website ID, URL, and type are required"; otherwise the result with 200 when stored and 500 "Failed to monitor website" when not; 200 exactly when all of these hold |
| WebsitesRoute.LatestCheck | app/api/websites/route.ts:13-19 | no check is chosen iff the website has none; the chosen one belongs to the website and no check of it is later |
| WebsitesRoute.WithLatest | app/api/websites/route.ts:13-19 | each listed website carries at most one check, its latest, and none iff it has no checks |
| WebsitesRoute.SortNewestFirst | app/api/websites/route.ts:20 | the websites are ordered by creation time, newest first, and form a permutation of the table |
| WebsitesRoute.Listing | app/api/websites/route.ts:13-21 | the listing holds every website once, newest first, each with its latest check |
| WebsitesRoute.GetWebsites | app/api/websites/route.ts:6-27 | no session gives 401; a failed query gives 500 "Failed to fetch websites"; otherwise 200 with the listing |
| WebsitesRoute.PostWebsite | app/api/websites/route.ts:29-50 | an insert is issued iff there is a session, a readable body, and a non-empty name, URL and type; it carries exactly those three fields; 200 with the new website, or 500 "Failed to create website" when the insert fails; 401 without a session; 500 "Failed to create website" and no insert for an unreadable body; 400 "Name, URL, and type are required" otherwise |
| WebsitesRoute.PostIgnoresIsActive | app/api/websites/route.ts:36-44 | the isActive field of the request has no effect on the created website |
| Dashboard.CountActive | app/page.tsx:230 | the active count is at most the total; it is 0 iff no website is active and the total iff every one is |
| Dashboard.CountLatest | app/page.tsx:231-236 | the up (or down) count is at most the total; it is 0 iff no website's latest check has that status and the total iff every website's has |
| Dashboard.StatusPartition | app/page.tsx:231-236 | up, down and no-data websites together are all websites |
| Dashboard.Timings | app/page.tsx:239-241 | the averaged times are the truthy, hence non-zero, ones (positive, as elapsed times are taken as non-negative); there is one per website whose latest check has a time, and none iff no website's latest check has one |
| Dashboard.TimingsIndex | app/page.tsx:239-242 | each website with a time contributes exactly its own latest response time, in website order, so the average is taken over those times |
| Dashboard.MeanResponseTime | app/page.tsx:237-252 | with no timings the average is 0 (the `|| 0` of NaN); otherwise it is the half-up rounding of sum / count |
| Dashboard.MeanWithinRange | app/page.tsx:237-252 | the rounded average lies between the smallest and largest timing |
| Dashboard.GetOverallStats | app/page.tsx:228-254 | total is the number of websites; active is the number of active websites; up and down are the websites whose latest check is up or down, and never exceed the total; the remainder is the no-data websites; the average is the rounded mean of the timings, within their range, or 0 |
| Dashboard.SaveTargetFor | app/page.tsx:80-83 | editing saves with PUT to /api/websites/<id>; adding saves with POST to /api/websites |
| Dashboard.FindById | app/page.tsx:141 | `find` returns the first website with the id, or none |
| Dashboard.ToggleActive | app/page.tsx:139-148 | nothing is sent iff no website has the id; otherwise a PUT to that website's path whose body is that website with only isActive replaced |
| Middleware.MatcherExcludes | middleware.ts:58 | wherever the middleware runs, the path starts with "/" and not with "/api/auth", "/_next/static", "/_next/image" or "/favicon.ico" |
| Middleware.MatcherIncludes | middleware.ts:58 | every single-line path that starts with "/" and avoids the excluded prefixes goes through the middleware |
| Middleware.MatcherRunsOnPages | middleware.ts:58 | "/" and "/login" go through the middleware |
| Middleware.MatcherSkipsAssets | middleware.ts:58 | "/api/auth/session", "/favicon.ico" and, since the dot is unescaped, "/favicon-ico" do not |
| Middleware.Authorized | middleware.ts:22-44 | a token always grants access; without one, access is granted iff the path is "/login", or "/debug" while NODE_ENV is "development" |
| Middleware.TokenNeverReducesAccess | middleware.ts:28-43 | having a token never removes access |
| Middleware.RootRedirect | middleware.ts:5-19 | the middleware redirects to "/login" exactly for the root path without a token |
| Middleware.AuthorizedRootPasses | middleware.ts:12-43 | whenever `authorized` admits a request, the middleware function lets it through |
| Auth.AuthorizeAsWritten | lib/auth.ts:12-41 | as written, sign-in yields the admin user iff the given username and password equal the configured ones, missing values included |
| Auth.UnsetConfigAdmitsMissingCredentials | lib/auth.ts:24-27 | as written, with ADMIN_USERNAME and ADMIN_PASSWORD unset, a sign-in without credentials succeeds |
| Auth.Authorize | lib/auth.ts:24-40 | corrected: sign-in yields the fixed admin user iff both values are configured and the credentials match them |
| Auth.AuthorizeNeedsCredentials | lib/auth.ts:24-27 | a successful sign-in always supplied a username and a password |
| Auth.AuthorizeAgreesWhenConfigured | lib/auth.ts:24-27 | once both values are configured, the corrected check agrees with the code as written |
| Auth.Jwt | lib/auth.ts:52-65 | at sign-in the token gains the user's role; otherwise it is unchanged; subject, name and email are kept |
| Auth.SessionOf | lib/auth.ts:66-79 | with a token the session user gets its subject as id and its role; name, email and expiry are kept |
| Auth.SignedInSessionIsAdmin | lib/auth.ts:58-75 | after an admin sign-in the session's role is "admin" and its id is the token's subject |
| Auth.Redirect | lib/auth.ts:80-99 | a relative URL is appended to the base URL; a URL on the base origin is kept; any other goes to the base URL; an unparsable URL throws; every redirect stays on the base URL's site |

## Left out

- `fetch`, `AbortController`, `setTimeout` and `Date.now` are not modelled as such. The HTTP answer is a parameter; an abort appears as a rejection named "AbortError". One elapsed value stands for every clock reading within one probe.
- `child_process.exec`, the platform check and the command text (`ping -c 1 -W 10` / `ping -n 1 -w 10000`) are not modelled. The exec outcome is looked up by the clean host. The host is pasted into a shell command unescaped (lib/monitoring.ts:77); that is not modelled.
- `Number.parseFloat` and floating point are not modelled. The captured decimal is rounded exactly. A capture so long that a double would round it differently is not distinguished.
- Prisma is not modelled: tables are sequences, and inserts are answers passed in. The generated row id is not modelled.
- `Promise.allSettled` runs the probes concurrently. The model settles them in listing order, and the rows are appended in that order; the real order of the inserts is unspecified.
- JSON request fields are `Option<string>`: a field is absent, empty or a string. Non-string JSON values (numbers, objects) are not modelled.
- `getServerSession`, JWT signing and cookie handling are not modelled; a session is a boolean. `new URL(url).origin` is a parameter that may fail.
- `withAuth`'s own redirect to the sign-in page is not modelled. Next.js's path normalisation before matching is not modelled either.
- React rendering, toasts, polling, the form modals and `toLocaleDateString` are not modelled; the locale date is an input string. Date parsing is not modelled; times are integers in milliseconds.
- The page's other handlers (delete, manual check, history) are not modelled. Neither are the history route, the login and debug pages, the header and the console logging.
- Response times are natural numbers: the elapsed time of a probe (`Date.now() - startTime`) is taken as non-negative. `Date.now()` is a wall clock and can step back during a probe, which would store, display and average a negative time; that is not modelled.
- Decimal.FromNat: renders every natural number in plain digits; JavaScript switches to exponent notation at 1e21, which is not modelled.
- Text.ToUpperAscii: upper-cases ASCII letters only; the statuses it is applied to are "up" and "down".
- WebsiteList.StatusBadge: carries the corrected badge text of WebsiteList.BadgeText, so for a response time of 0 it reads "UP" where the component as written renders "UP0" (see Findings; WebsiteList.ZeroTimeBadgeAsWritten models the as-written text).
- Monitoring.HttpCheck: the TypeError message for a null or undefined rejection is V8's wording; other engines word it differently.
- WebsitesRoute.LatestCheck: among checks with the same timestamp it keeps the first in table order; the database's tie-break is unspecified.

## Findings

| source | as written | input that shows it | evidently intended | confidence | as-written member | corrected member |
|---|---|---|---|---|---|---|
| components/website-list.tsx:81 | `{latestCheck.responseTime && …}` renders the number 0 itself when the time is 0 | an up check with responseTime 0 | no time suffix, as for a missing time, so the badge reads "UP" | not executed; medium | WebsiteList.ZeroTimeBadgeAsWritten | WebsiteList.BadgeText |
| lib/auth.ts:24-27 | credentials are compared with `===` against environment values that may be unset | ADMIN_USERNAME and ADMIN_PASSWORD unset, sign-in with no username and no password | sign-in refused while the admin credentials are not configured | not executed; medium | Auth.UnsetConfigAdmitsMissingCredentials | Auth.Authorize |

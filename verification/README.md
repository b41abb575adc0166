# AWS resource dashboard: a Dafny model

The dashboard is a React single-page app behind an OIDC sign-in. It has four resource pages: EC2 instances, RDS databases, EKS clusters and S3 buckets. Each page fetches a region-keyed listing from an AWS Lambda through API Gateway, keeps the last result in a `byRegion` state variable mirrored in `localStorage`, and renders one section per region. This project models the logic under that plumbing as pure Dafny functions, and proves what the code promises about it.

- **Region cache** (`region_cache.dfy`). This is the per-page cache with hydrate-on-mount, self-healing of corrupt storage, and replace-and-persist on fetched data. It also models the refresh button as a state machine with at most one fetch in flight.
- **Envelope decode** (`envelope.dfy`). The fetch checks the status, parses the JSON response, then parses its `body` member a second time. JSON values are a concrete datatype (`json.dfy`). `JSON.parse`/`JSON.stringify`/`json.dumps` are an abstract codec. The law that parsing a serialisation gives the value back is a hypothesis (`Lawful`) of the lemmas that need it.
- **Rendering** (`region_view.dfy`, `pages.dfy`):
  - the empty-message condition, as written;
  - the `Object.entries` walk, as written, including the cases where it throws: `.map` on a value that is not an array, a `null` record, and an object shown as a cell;
  - a corrected region list;
  - row and badge colours;
  - the cluster plural.
- **Auth gate and routes** (`app.dfy`):
  - the gate's priority decision;
  - the `signinRedirect` calls;
  - the callback-path history scrub;
  - the route table.
- **Sign-out and greeting** (`uri.dfy`, `sign_out.dfy`, `home.dfy`, `navbar.dfy`):
  - `encodeURIComponent`, together with the decoding that inverts it;
  - the logout URL and its query parameters;
  - the username taken from the e-mail;
  - the mobile-menu state machine.
- **Lambda handlers** (`lambda.dfy`, `ec2.dfy`, `s3.dfy`, `eks.dfy`, `rds.dfy`). Every boto3 call is an input: a value, or the exception it raised. The handlers become pure functions from those answers to the returned dict (`Invocation`).
- **End to end** (`pipeline.dfy`). A handler's reply is decoded by the page's fetch, stored and rendered. This is where the EC2 `DebugErrors` member meets the instances page (see Findings).

API Gateway is taken to be a non-proxy integration. It returns the handler's dict as the JSON body of an HTTP 200 response, which is what the pages' double decoding expects.

Two behaviours of the code are easy to misread, and the model follows the code in both:

- **Sign-in redirect.** `App.jsx:24-27` calls `signinRedirect` in the render path itself, not in an effect. It is therefore called again on every render in the unauthenticated state, not once per entry into that state. `App.RedirectOncePerRender` proves n calls for n renders.
- **Storage writes.** The pages call `localStorage.setItem` without a `try`, so a write refused for lack of quota throws out of the effect instead of being ignored. The model's store never refuses a write (see Left out).

## Model

| member | source | states |
|---|---|---|
| Envelope.FetchPayload | application/src/pages/DbsRdsPage.jsx:4-12 | The fetch fails with an HTTP error carrying the response status exactly when the status is outside 200-299, and outer text that does not parse is a failure. For an ok status and parsed outer text: an outer `null` is a TypeError; a value without a `body` member is a SyntaxError; a `body` whose string form does not parse is a SyntaxError; otherwise the result is exactly the second parse. A success always came from an object with a `body`. |
| Envelope.EnvelopeRoundTrip | application/frontend/src/pages/InstancesPage.jsx:4-12 | An ok response whose text is an envelope with the payload's serialisation in `body` yields exactly that payload, whatever other members the envelope has. |
| Envelope.InnerParseFailure | application/frontend/src/pages/EksClustersPage.jsx:4-12 | If the outer envelope parses but its `body` text does not, the fetch fails with a SyntaxError. |
| Envelope.MissingBodyFailure | application/frontend/src/pages/S3BucketsPage.jsx:4-12 | An envelope without a `body` member fails with a SyntaxError, because `JSON.parse(undefined)` throws. |
| Envelope.NullEnvelopeFailure | application/src/pages/DbsRdsPage.jsx:10-11 | An outer `null` fails with a TypeError when `.body` is read. |
| RegionCache.Hydrate | application/src/pages/DbsRdsPage.jsx:27-36 | A non-empty stored text that parses becomes the snapshot, even when it parses to a falsy value, and nothing else changes. Corrupt non-empty text is removed and the snapshot is kept. An absent or empty item leaves everything as it was. Only the page's key is ever removed. |
| RegionCache.OnData | application/src/pages/DbsRdsPage.jsx:39-44 | Truthy data replaces the snapshot, and its serialisation, which parses back to the data, is stored under the key. Falsy data changes nothing. No other key is touched. |
| RegionCache.Settle | application/src/pages/DbsRdsPage.jsx:38-44 | A failed fetch leaves snapshot and storage unchanged; no key other than the page's own is written. |
| RegionCache.ReloadRestoresFetchedData | application/frontend/src/pages/InstancesPage.jsx:27-45 | After a successful fetch, a reload's hydration reproduces exactly the fetched data. |
| RegionCache.HydrateThenPersistIsStable | application/frontend/src/pages/S3BucketsPage.jsx:27-44 | Hydrating a persisted snapshot and persisting it again leaves the store as it was. |
| RegionCache.CorruptStoreSelfHeals | application/src/pages/DbsRdsPage.jsx:32-34 | Corrupt text is removed and the snapshot stays null, and a second hydration gives the same result. |
| RegionCache.EmptyStoreHydratesNothing | application/src/pages/DbsRdsPage.jsx:28-29 | An absent or empty stored item leaves the snapshot null and the store intact. |
| RegionCache.SecondFetchReplacesFirst | application/src/pages/DbsRdsPage.jsx:39-44 | Fetched data replaces the snapshot wholesale, with no merge with earlier regions, and storage ends up as if only the second fetch had happened. |
| RegionCache.Mount | application/frontend/src/pages/InstancesPage.jsx:27-45 | On mount, data the query client still holds, when truthy, wins over the stored text: it becomes the snapshot and is written back under the key. Otherwise the mount is exactly the hydration. No other key is touched. |
| RegionCache.MountPage | application/frontend/src/pages/InstancesPage.jsx:18-24 | A freshly mounted page has issued nothing and shows no error. It starts in the state the one-fetch-in-flight invariant needs, with the refresh button enabled. |
| RegionCache.Step | application/src/pages/DbsRdsPage.jsx:49-51 | A fetch is issued only by a click on the enabled button, and no event writes another page's key. |
| RegionCache.StepKeepsOneInFlight | application/frontend/src/pages/EksClustersPage.jsx:47-48 | Each event keeps the invariant that every issued fetch has settled except the one in flight. |
| RegionCache.RunInvariants | application/src/pages/DbsRdsPage.jsx:18-51 | Over any trace, at most one fetch is in flight, fetches never outnumber clicks, and no other storage key is touched. |
| RegionCache.NoClickNoFetch | application/frontend/src/pages/S3BucketsPage.jsx:18-24 | A mounted page that is never clicked never fetches. |
| RegionCache.FailedFetchKeepsLastGood | application/src/pages/DbsRdsPage.jsx:39-59 | A failed fetch keeps the last good snapshot and storage, surfaces its error and re-enables the button. |
| Pages.StorageKeysDistinct | application/frontend/src/pages/S3BucketsPage.jsx:28-42 | Different pages never share a storage key. |
| Pages.PagesDoNotInterfere | application/frontend/src/pages/EksClustersPage.jsx:25-41 | Any trace on one page leaves every other page's stored item exactly as it was. |
| Pages.StatusTone | application/src/pages/DbsRdsPage.jsx:99-122 | A row and its badge are green exactly when the named member is a string among the accepted ones. Any other value, a non-string, or a missing member is red. Strings are compared with `===`, so there is no case folding. |
| Pages.ClusterNoun | application/frontend/src/pages/EksClustersPage.jsx:66 | The header reads `cluster` exactly for a count of one, and `clusters` otherwise. |
| RegionView.KeyCountZeroIffNoEntries | application/src/pages/DbsRdsPage.jsx:61-65 | For a truthy snapshot, `Object.keys` is empty exactly when `Object.entries` is. |
| RegionView.EmptyMessageIffNoSection | application/src/pages/DbsRdsPage.jsx:61-68 | The empty message shows exactly when the page renders no region section. |
| RegionView.ObjectEntryCrashesRender | application/frontend/src/pages/InstancesPage.jsx:66-87 | A member whose value is an object without a zero `length` makes the page throw, because `.map` is called on an object. |
| RegionView.ThrowingMemberBreaksRender | application/frontend/src/pages/InstancesPage.jsx:66-89 | One member that cannot be rendered as a section throws the whole render. |
| RegionView.ObjectCellCrashesRender | application/frontend/src/pages/InstancesPage.jsx:87-96 | A record that shows an object in one of the page's text cells throws the whole render, even inside a list of records: React refuses an object as a child. |
| RegionView.RegionSections | application/frontend/src/pages/InstancesPage.jsx:66-105 | Corrected region list: a section exists exactly for a member whose value is an array. Its rows are exactly the non-null elements of that array, and all of them, in order, when none is null. |
| RegionView.CorrectedAgreesOnRecordLists | application/frontend/src/pages/InstancesPage.jsx:66-105 | When every member is an array of records whose rows render, the corrected list is exactly what the page renders as written. |
| RegionView.EmptyMessageImpliesNoRegions | application/frontend/src/pages/InstancesPage.jsx:62-64 | Whenever the empty message shows, the corrected list is empty too. |
| App.Gate | application/frontend/src/App.jsx:20-29 | Loading wins over error, and error over authentication. Children render exactly when not loading, without error, and authenticated. The error view carries the error's message. |
| App.ErrorNeverRedirects | application/frontend/src/App.jsx:22 | In the error state the message shows and no sign-in redirect is issued. |
| App.RedirectOncePerRender | application/frontend/src/App.jsx:24-27 | n renders in the unauthenticated state call `signinRedirect` n times, once per render. |
| App.RedirectCallsCountUnauthenticated | application/frontend/src/App.jsx:24-27 | No redirect is ever called exactly when every render is loading, errored or authenticated; there is never more than one call per render. |
| App.Scrub | application/frontend/src/App.jsx:14-18 | When authenticated on `/callback`, the current history entry becomes `/` and earlier entries are kept; otherwise history is unchanged. |
| App.ScrubIdempotent | application/frontend/src/App.jsx:14-18 | Scrubbing twice is scrubbing once. |
| App.Route | application/frontend/src/App.jsx:38-44 | A shown page is the one declared for the path. Every other path replace-navigates to `/`, and no page is declared for it. |
| App.RouteRoundTrip | application/frontend/src/App.jsx:37-45 | Each page is reached by its own path, and an unknown path reaches the home page after one redirect. |
| App.CallbackFallsBackHome | application/frontend/src/App.jsx:43-44 | `/callback` is not a route; it falls back to `/`. |
| App.RenderApp | application/frontend/src/App.jsx:32-49 | Navbar and routes render exactly when the gate renders its children, and then the routed page is the route table's. |
| Uri.Utf8 | application/frontend/src/pages/HomePage.jsx:13 | Each character is 1 to 4 bytes, chosen by the code point's range (below U+0080, U+0800, U+10000). The lead byte lies in the range its length calls for, and every continuation byte lies in 0x80-0xBF. |
| Uri.Utf8Decodes | application/frontend/src/pages/HomePage.jsx:13 | An independent decoder, which reads the payload bits of the lead and continuation bytes, recovers every character from its UTF-8 encoding. |
| Uri.EncodeUriComponent | application/frontend/src/pages/HomePage.jsx:13 | The output uses only unreserved characters and `%`. Text made only of unreserved characters comes out unchanged, and text with any other character comes out strictly longer. |
| Uri.EncodeIdentityIffUnreserved | application/frontend/src/pages/HomePage.jsx:13 | Encoding leaves text unchanged exactly when all of it is unreserved. |
| Uri.EncodeConcat | application/frontend/src/pages/HomePage.jsx:13 | Encoding a concatenation is concatenating the encodings. |
| Uri.EncodedHasNoDelimiters | application/frontend/src/pages/HomePage.jsx:13 | Encoded text contains no `&`, `=`, `?`, `/`, `#`, `+` or space. |
| Uri.DecodeInvertsEncode | application/frontend/src/pages/HomePage.jsx:13 | Percent-decoding the encoded text gives back exactly the UTF-8 bytes of the original. |
| SignOut.SignOutRedirect | application/frontend/src/pages/HomePage.jsx:7-14 | The user is removed first. Navigation to the logout URL happens only after that removal has succeeded, and last. |
| SignOut.LogoutQueryHasTwoParams | application/frontend/src/pages/HomePage.jsx:13 | The logout URL's query has exactly two parameters, `client_id` with the id and `logout_uri` with the encoded target, which decodes to the target's bytes. |
| Home.ChosenEmail | application/frontend/src/pages/HomePage.jsx:17 | A missing or empty e-mail gives `Guest`; otherwise the e-mail itself is used. |
| Home.Username | application/frontend/src/pages/HomePage.jsx:18 | The username is a prefix of the e-mail without `@`. It is the whole e-mail when that has no `@`, and is otherwise followed by the e-mail's first `@`. |
| Home.UsernameOfAddress | application/frontend/src/pages/HomePage.jsx:18 | For an address, the username is the text before the first `@`, whatever follows. |
| Home.UsernameUnique | application/frontend/src/pages/HomePage.jsx:18 | The username is the only string with the three properties of `Home.Username`. |
| Home.GuestGreeting | application/frontend/src/pages/HomePage.jsx:17-18 | A visitor with no e-mail, or an empty one, is greeted as `Guest`. |
| Home.HomeSignOut | application/frontend/src/pages/HomePage.jsx:7-14 | The home Logout removes the user and then, once that succeeds, navigates to the logout URL built from the page's constants. |
| Home.HomeLogoutUrlWellFormed | application/frontend/src/pages/HomePage.jsx:8-13 | With the page's own constants, the query has exactly the client id and the encoded target, and the target decodes back. |
| Home.LogoutTargetEncoding | application/frontend/src/pages/HomePage.jsx:9-13 | The post-logout target appears in the logout URL as `https%3A%2F%2Fd1wars3xdlos6i.cloudfront.net%2F`. |
| Navbar.Step | application/src/Navbar/Navbar.jsx:44-73 | The menu button toggles. The overlay, a mobile link and mobile logout leave the menu closed. Desktop clicks leave it as it was. |
| Navbar.OpenIffOddToggles | application/src/Navbar/Navbar.jsx:7-10 | Starting closed, the menu is open exactly when an odd number of toggles followed the last closing click. |
| Navbar.ToggleTwice | application/src/Navbar/Navbar.jsx:10 | Toggling twice restores the state. |
| Navbar.ClosingClickHidesOverlay | application/src/Navbar/Navbar.jsx:69-73 | After any closing click the menu is closed and the overlay gone. |
| Navbar.Handle | application/src/Navbar/Navbar.jsx:12-60 | Exactly the two Logout buttons start a sign-out, which is the standard redirect. Exactly the links navigate, each to its own `to`. |
| Navbar.SignOutMatchesHome | application/src/Navbar/Navbar.jsx:12-19 | The navbar's sign-out produces the same effects as the home page's, and mobile logout also closes the menu. |
| Navbar.LinksReachPages | application/src/Navbar/Navbar.jsx:26-54 | Every navbar link is a declared route and never hits the fallback. The bar reaches every page, and the slide-out menu reaches every resource page. |
| Lambda.KeepNonEmpty | application/backend/list_rds.py:31-32 | Every kept region has records, and the records are those of one of its visits. |
| Lambda.KeptIffSomeRecords | application/backend/list_ec2.py:81-83 | A region is kept exactly when some visit of it produced records. |
| Lambda.LastVisitWins | application/backend/list_eks.py:37-38 | A region's records are those of its last visit that produced any. |
| Lambda.RecordsCarryRegion | application/backend/list_eks.py:31-38 | When each visit's records name their region, every kept record names its key. |
| Lambda.GroupedJson | application/backend/list_rds.py:34-40 | The payload object has exactly the kept regions as members, each holding its records as an array. |
| Lambda.Others | application/backend/list_ec2.py:90-97 | The returned dict carries the status code, and carries the JSON content-type header exactly when one is set; `body` is added separately. |
| Ec2.NameTagIsFirst | application/backend/list_ec2.py:37-41 | With well-formed tags, the name is the value of the first tag keyed `Name`. |
| Ec2.NameTagDefault | application/backend/list_ec2.py:37-41 | With well-formed tags and none keyed `Name`, the name is `N/A`. |
| Ec2.Shape | application/backend/list_ec2.py:43-56 | An instance record exists exactly when the tag lookup raises no KeyError. Its fields are the instance's values with `N/A` defaults, and its `Region` is the scanned region. |
| Ec2.ShapeAll | application/backend/list_ec2.py:32-57 | Shaping succeeds exactly when every instance shapes. The records then correspond one to one, in order. |
| Ec2.ScanRegion | application/backend/list_ec2.py:22-79 | A region succeeds exactly when it raised nothing. A paginator exception discards the records already collected and records the exception's message. A KeyError while shaping falls into the generic handler and records `Unknown Error: ` followed by the quoted key. |
| Ec2.Errors | application/backend/list_ec2.py:59-79 | The error map has an entry exactly for the regions of which some visit failed. Each entry is the message of that region's last failed visit, and a later successful visit does not clear it. |
| Ec2.Handler | application/backend/list_ec2.py:6-97 | A region-listing failure returns 500 without headers and a body of `Error` (the fixed sentence) and `Details` (the exception text). Otherwise the handler returns 200 with the JSON header and the region payload. |
| Ec2.PayloadRegionMember | application/backend/list_ec2.py:86-88 | Every payload member other than `DebugErrors` is a kept region, holding its records. |
| Ec2.RegionKeyIffInstances | application/backend/list_ec2.py:81-83 | A region is a payload key exactly when some visit of it succeeded with at least one instance. |
| Ec2.DebugErrorsIffFailure | application/backend/list_ec2.py:86-88 | `DebugErrors` is present exactly when some region failed, provided no region bears that name. |
| Ec2.DebugErrorsIsObject | application/backend/list_ec2.py:86-88 | When a region failed, `DebugErrors` is an object mapping that region, and the others, to message strings. |
| Ec2.DebugErrorsHoldLastMessage | application/backend/list_ec2.py:59-88 | For every region with a failed visit, `DebugErrors` holds the message of its last failed visit. |
| Ec2.DebugMemberIsErrorMap | application/backend/list_ec2.py:86-88 | The payload is an object whose `DebugErrors` member, if present, is a map of strings. |
| Ec2.RecordsNameTheirRegion | application/backend/list_ec2.py:55 | Each record under a region key has that region in its `Region` field, and no region key is empty. |
| Ec2.InstancesKeepOrder | application/backend/list_ec2.py:32-57 | A region visited once lists one record per instance, in page, reservation and instance order. |
| S3.Region | application/backend/list_s3.py:18-22 | The region is the location constraint when non-empty, `us-east-1` when missing or empty, and `Unknown` when the lookup raised. |
| S3.Versioning | application/backend/list_s3.py:32-36 | Versioning is the reported `Status`, else `Disabled`, and `Unknown` when the call raised. |
| S3.Encryption | application/backend/list_s3.py:38-43 | Encryption is the first rule's algorithm. It is `None` when the call raised, when the rule list is empty, or when the first rule has no algorithm. |
| S3.Info | application/backend/list_s3.py:25-43 | A bucket record is a flat record of strings. It carries the bucket's name, its computed region, its creation date, and its versioning and encryption as the lookups give them. |
| S3.Group | application/backend/list_s3.py:45-48 | Groups are keyed exactly by the regions that occur, and none is empty. |
| S3.GroupIsFilter | application/backend/list_s3.py:45-48 | Each group is exactly the records of its region, in listing order. |
| S3.GroupKeepsCount | application/backend/list_s3.py:13-48 | The group sizes add up to the number of listed buckets, so every bucket appears exactly once. |
| S3.GroupedUnderOwnRegion | application/backend/list_s3.py:27 | Every record sits under the key equal to its own `Region` field. |
| S3.Handler | application/backend/list_s3.py:5-56 | The handler raises exactly when `list_buckets` raises or a bucket lacks its name or creation date. Otherwise it returns 200 with the grouped payload. |
| Eks.Record | application/backend/list_eks.py:24-32 | A cluster record is a flat record of strings. It carries the region, and the name, status, version, ARN, creation time and endpoint, each with its `N/A` default. |
| Eks.DescribedClusters | application/backend/list_eks.py:21-35 | Reference list: it holds exactly the clusters that could be described, one per successful description. When every description succeeds, it is the whole listing in order. |
| Eks.Records | application/backend/list_eks.py:21-35 | A region's records are, in order, the records of exactly the clusters that could be described, and each names the region. |
| Eks.RegionRecords | application/backend/list_eks.py:13-17 | A region whose cluster listing raised contributes nothing. |
| Eks.FailedDescribeDropsOnlyThatCluster | application/backend/list_eks.py:21-35 | A cluster that fails to describe is dropped and all other clusters are kept. |
| Eks.Handler | application/backend/list_eks.py:4-46 | The handler raises exactly when the region listing raises. Otherwise it returns 200 with the non-empty regions. |
| Eks.RegionKeyIffClusters | application/backend/list_eks.py:37-38 | A region is a payload key exactly when some visit of it described at least one cluster. |
| Eks.RecordsNameTheirRegion | application/backend/list_eks.py:31 | Each record under a region key names that region, and no region key is empty. |
| Rds.Record | application/backend/list_rds.py:21-28 | Identifier and creation time are taken as they are. Engine, class, zone and status (from `DBInstanceStatus`) default to `N/A`. |
| Rds.RegionRecords | application/backend/list_rds.py:13-29 | A region with a client error contributes nothing. Otherwise it has one record per instance, in response order. |
| Rds.Handler | application/backend/list_rds.py:4-40 | The handler raises exactly when the region listing raises, some region raises an error other than a client error, or an entry lacks a required key. Otherwise it returns 200. |
| Rds.RegionKeyIffInstances | application/backend/list_rds.py:31-32 | A region is a payload key exactly when some visit of it described at least one instance. |
| Rds.InstancesKeepOrder | application/backend/list_rds.py:20-29 | A region listed once keeps one record per instance, in response order. |
| Pipeline.Delivered | application/backend/list_ec2.py:90-97 | Whatever a handler returns reaches the page's fetch as exactly its payload. |
| Pipeline.RefreshStoresPayload | application/frontend/src/pages/InstancesPage.jsx:40-45 | A refresh answered by a handler stores its truthy payload as snapshot and in storage, and a reload hydrates it back. |
| Pipeline.NonRecordObjectThrows | application/frontend/src/pages/InstancesPage.jsx:69-87 | An object all of whose members are strings cannot be rendered as a section, whatever cells the page shows. |
| Pipeline.DebugErrorsBreakRender | application/frontend/src/pages/InstancesPage.jsx:66-105 | The EC2 payload of any scan with a failed region makes the instances page throw as written. |
| Pipeline.DebugErrorsCrashPersists | application/frontend/src/pages/InstancesPage.jsx:27-45 | The crash comes back on every later mount, because the payload is persisted. This holds whether the query client comes back empty or comes back holding the same payload. |
| Pipeline.ListingFailureBreaksRender | application/backend/list_ec2.py:13-16 | The region-listing failure payload also makes the instances page throw. |
| Pipeline.UnreachableRegionBreaksRender | application/backend/list_ec2.py:71-88 | Concrete case: one unreachable region gives a payload that is only a `DebugErrors` object, and the page throws on it. |
| Pipeline.CorrectedShowsRegionsOnly | application/frontend/src/pages/InstancesPage.jsx:66-105 | The corrected page never shows `DebugErrors`. It shows a region exactly when the payload has instances for it. |
| Pipeline.RecordPayloadRenders | application/frontend/src/pages/S3BucketsPage.jsx:61-71 | A payload of flat string records renders as written exactly as the corrected page does, whatever cells the page shows. |
| Pipeline.OtherPagesRender | application/frontend/src/pages/EksClustersPage.jsx:58-100 | The bucket, cluster and database pages, each with its own displayed cells, never throw on what their handlers return. |
| Pipeline.InstanceRowTone | application/backend/list_ec2.py:53 | An instance row is green exactly when the instance's `State.Name` is `running`. |
| Pipeline.DatabaseRowTone | application/backend/list_rds.py:27 | A database row is green exactly when `DBInstanceStatus` is `available`. |
| Pipeline.ClusterRowTone | application/backend/list_eks.py:26 | A cluster row is green exactly when the cluster's status is `ACTIVE` or `active`. A missing status reads `N/A` and is red. |

## Left out

- **Network I/O.** `fetch` and the network are not modelled: a response is given as its status and text. Timeouts and aborts are not modelled.
- **TanStack Query internals.** Retries and request deduplication are left out, and so are the `status === "loading"` line of a disabled query that has never fetched and structural sharing of `data`. `staleTime` and `cacheTime` are kept as constants only, because the code never compares them with a clock.
- **Retained query data.** Data the query client retained from an earlier visit is an input (`retained`) of `RegionCache.Mount`, not a model of the cache.
- **localStorage medium.** The store is a map that never refuses a write. A `setItem` that throws, for example on quota, is not modelled. In the code such a throw is not caught.
- **OIDC provider.** Token exchange and session handling inside `react-oidc-context` are not modelled. `isLoading`, `error` and `isAuthenticated` are inputs.
- **Routing.** React Router's case-insensitive and trailing-slash matching is not modelled: routes are exact strings.
- **Dates.** Date formatting (`toLocaleDateString`, `strftime`) depends on locale and clock. Formatted dates are given as strings.
- **JSON values:**
  - numbers are integers (no floating point);
  - object member order is not kept;
  - `JSON.parse` and `JSON.stringify` are an abstract codec whose round-trip law is the hypothesis `Lawful`.
- **boto3.** Pagination mechanics and client construction are left out. Each AWS call is an input result: a value, or the exception it raised.
- **Exception texts.** The exact texts of exceptions raised out of the S3, EKS and RDS handlers are not modelled (`Raised` carries none). For EC2, a KeyError's text is its quoted key.
- **EC2 raw data.** `Tags` missing and `Tags` empty are the same input. So are `State` missing and `State` without `Name`. The code treats both pairs alike.
- **EC2 error messages.** The three opt-in and permission error codes produce the same message as any other client error, as in the code. The model has a single branch for them.
- **Presentational and wiring files.** `MenuButton.jsx` is purely presentational and `main.jsx` is only provider wiring, so neither is modelled. The query client module that `main.jsx` imports is not part of this model.
- **JSX layout and styling.** Only the class names that encode a row's tone are modelled.
- **React rendering.** Of React's rules for children, only one is modelled: an object shown as a child throws, while arrays, strings, numbers, booleans and `null` render. Each page's displayed cells are the record members it shows as text; the launch and creation dates go through `Date` and are left out with date formatting. Key warnings and the rendered markup are not modelled.
- **Ec2.DebugErrorsIffFailure.** This lemma assumes no region is named `DebugErrors`. A region of that name with instances would be overwritten by the error map, or would itself be the `DebugErrors` member when no region failed.
- **S3.Encryption.** The lookup path to the algorithm is an input (`None` when any step raised), not the nested dictionary lookups.

## Findings

| source | as written | input that shows it | evidently intended | confidence | as-written member | corrected member |
|---|---|---|---|---|---|---|
| application/frontend/src/pages/InstancesPage.jsx:66-105 | Every top-level member of the EC2 payload is rendered as a region, and `.map` is called on its value. The handler adds a `DebugErrors` object whenever a region failed (application/backend/list_ec2.py:86-88), and on region-listing failure the payload is `{"Error": ..., "Details": ...}`. Rendering either throws a TypeError. The payload is persisted, so the page throws again on every reload until storage is cleared. | One region whose endpoint cannot be reached: the payload `{"DebugErrors": {"ap-south-1": "EndpointConnectionError: Could not connect to EC2 endpoint."}}` | Only members holding lists of records are regions, and the diagnostic member is not rendered as one. | not executed | Pipeline.UnreachableRegionBreaksRender | RegionView.RegionSections |

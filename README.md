# Workshop manager core, modelled in Dafny

This project models the core of a Next.js workshop manager for a vehicle
service shop. The model covers:

- the route gate in `middleware.ts`;
- the guarded database client of `src/lib/prisma.ts`;
- the server actions for appointments, customers and vendors, including their
  demo-mode fallbacks;
- the login, logout and seed API routes;
- the appointments page;
- the client-side filtering of the service-history list and the dashboard chooser.

The database is a class `Store.Db`. It has the rows of each table, one id
counter, and a flag saying whether the database server can be reached. The flag
stays fixed for one request. Every primitive of `Db` answers with a
`Facade.Reply`: a value, or a thrown error with its message.

Which client an action uses is the parameter `Facade.Client`:

- `SafeClient` is the proxy exported by `src/lib/prisma.ts`. It turns a thrown
  model call into `[]`, `null` or `0`.
- `PlainClient` is a raw `new PrismaClient()`.

The action files import the wrapped client. The contracts state both cases, so
they show what the wrapper changes. Under the wrapped client, none of these is
ever reached:

- the mock fallback of the appointment actions;
- the echo in the catch blocks of `createVendor` and `updateVendor`;
- the failure answer of `updateCustomer`.

Under the wrapped client an unreachable store also looks like this:

- `deleteCustomer` reports success;
- the appointments page shows an empty list.

`prisma.$transaction` is a client member that is a function, so the wrapper
does not guard it. `createCustomer` therefore keeps its all-or-nothing
behaviour.

Modules, one per source file:

- Helpers: `Wrappers`, `Text` (the `|| null` rule, `includes`, decimal
  numerals and `parseInt`), and `Seqs` (`filter`).
- Source files: `Store`, `Facade`, `Middleware`, `AppointmentActions`,
  `AppointmentsPage`, `CustomerActions`, `VendorActions`, `Auth` (login and
  logout), `Seed`, `ServiceHistory` and `Dashboard`.

## Model

| member | source | states |
|---|---|---|
| Middleware.Gate | middleware.ts:22-49 | What a request meets: a path outside `config.matcher` never reaches the middleware and passes; inside it the decision is the middleware's; a redirect happens exactly for a matched, protected, non-exempt path without the cookie |
| Middleware.GateIffFirstSegment | middleware.ts:5-49 | The gate as one rule: redirect exactly when there is no cookie, the first segment is listed and the matcher does not exclude the path |
| Middleware.ProtectedImagePasses | middleware.ts:47-49 | `/customers/logo.png` is protected and the middleware would redirect it, but the matcher excludes `.png` paths, so it passes without a cookie |
| Middleware.FaviconDotIsAnyCharacter | middleware.ts:48 | The matcher's unescaped dot matches any character: `/favicon.ico` and `/faviconXico` are both excluded |
| Middleware.NotExcluded | middleware.ts:48 | A path part that starts with none of `_`, `f`, `g` and does not end in `.png` is inside the matcher |
| Middleware.ListedSegmentIsProtected | middleware.ts:31 | A path whose first segment is listed is protected |
| Middleware.Decide | middleware.ts:22-45 | The middleware function: login and `/api/` paths always pass; a session cookie always passes; the only other outcome is a redirect to `/login`, and it happens exactly for a protected, non-exempt path without the cookie |
| Middleware.ProtectedIffFirstSegment | middleware.ts:5-20 | A path is protected exactly when it starts with `/` and its first segment is one of the fourteen listed names (the empty name stands for `/`) |
| Middleware.RedirectIffFirstSegment | middleware.ts:26-41 | The middleware function as one rule: redirect exactly when there is no cookie and the first segment is listed; the exemptions never change a decision |
| Middleware.RootEntryCovers | middleware.ts:6 | The entry `/` protects only `/` and paths starting `//` |
| Middleware.UnlistedSegmentPasses | middleware.ts:31 | A path whose first segment is not listed is never redirected, with or without a cookie |
| Middleware.NestedCustomerPageIsGated | middleware.ts:31-49 | A request for `/customers/5` is redirected without a cookie and passes with one |
| Middleware.RootIsGated | middleware.ts:6-49 | A request for `/` without a cookie is redirected |
| Middleware.LongerNameIsNotGated | middleware.ts:31 | `/customersX` is not protected: an entry matches only the whole path or the path followed by `/` |
| Middleware.AppointmentsPagePasses | middleware.ts:5-20 | `/appointments` is not in the list and passes without a cookie |
| Middleware.BelowLoginPasses | middleware.ts:26-28 | Only `/login` itself is exempt: `/login/x` is neither exempt nor protected, and passes |
| Middleware.ApiPasses | middleware.ts:26-28 | `/api/customers` passes without a cookie |
| Facade.Default | src/lib/prisma.ts:27-30 | The wrapper's substitute: an empty list for `findMany` only, zero for `count` only, `null` for every other method |
| Facade.Guard | src/lib/prisma.ts:20-32 | A wrapped model call never throws; a success passes through unchanged; a failure gives the method's substitute |
| Facade.FailureValues | src/lib/prisma.ts:27-30 | What a failed call resolves to for each method: `[]`, `null` for `findUnique`/`findFirst`, `0`, else `null` |
| Facade.ClientMember | src/lib/prisma.ts:11-40 | `$connect`/`$disconnect` become stubs; other object-valued members become guarded delegates; every other member is handed out unwrapped |
| Facade.TransactionIsUnwrapped | src/lib/prisma.ts:39 | `$transaction` is handed out unwrapped, so its errors propagate |
| Facade.DelegateAccess | src/lib/prisma.ts:20-34 | A function member of a model delegate is handed out as its guarded call, which never throws, passes a result through and yields the method's empty value for an error; any other member is handed out as it is |
| Facade.SafeCallIsDelegateAccess | src/lib/prisma.ts:11-36 | Through the wrapped client every model other than `$connect`/`$disconnect` is a guarded delegate, and a call of its method is the guarded call, which never throws |
| Facade.CountOf | src/app/actions/customer-actions.ts:87-91 | The awaited count is above zero exactly when it is a positive number, and then it is that number; `null` counts as zero |
| Facade.Call | src/lib/prisma.ts:18-34 | Through the wrapped client a call never throws and a failure gives the substitute; through a plain client the raw outcome is seen; a success is the same under both |
| Store.FindIndex | src/app/actions/appointment-actions.ts:127 | `findIndex`: the first position with that id, or -1 exactly when no entry has it |
| Store.WithStatus | src/app/actions/appointment-actions.ts:127-130 | Only the found entry's status changes; the length and every other entry are kept; nothing changes when the id is absent |
| Store.Rows | src/app/actions/customer-actions.ts:108-117 | `findMany` lists the stored rows: as many rows as the table holds, each of them stored, every stored row listed, and no row twice when no two keys hold the same row |
| Store.WithUser | src/app/api/seed/route.ts:26-42 | A user insert adds one row under its email with the next id and touches nothing else |
| Store.Db.FindUser | src/app/api/auth/login/route.ts:13-22 | `findUnique` by email: throws exactly when the store is unreachable, else the row or `null` |
| Store.Db.FindVehicle | src/app/actions/customer-actions.ts:26-28 | `findUnique` by registration: throws exactly when unreachable, else the row or `null` |
| Store.Db.CountVehicles | src/app/actions/customer-actions.ts:87-89 | `count` of the vehicles owned by a customer, or a throw when unreachable |
| Store.Db.CountPurchaseOrders | src/app/actions/vendor-actions.ts:73-75 | `count` of a vendor's purchase orders, or a throw when unreachable |
| Store.Db.FindAppointments | src/app/actions/appointment-actions.ts:50-58 | `findMany` of the appointments, or a throw when unreachable |
| Store.Db.FindCustomers | src/app/actions/customer-actions.ts:108-117 | `findMany` of the customers: as many as are stored, each stored, every stored one listed and none twice; or a throw when unreachable |
| Store.Db.FindVendors | src/app/actions/vendor-actions.ts:95-100 | `findMany` of the vendors: as many as are stored, each stored, every stored one listed and none twice; or a throw when unreachable |
| Store.Db.CreateAppointment | src/app/actions/appointment-actions.ts:84-93 | An insert appends the row built from the next id, which no stored appointment has, or throws and changes nothing; the tables stay well formed |
| Store.Db.UpdateAppointmentStatus | src/app/actions/appointment-actions.ts:118-121 | An update of a missing id throws "not found"; otherwise only that row's status changes |
| Store.Db.UpdateCustomer | src/app/actions/customer-actions.ts:65-75 | Only the addressed customer changes, keeping its id; a missing row or an unreachable store throws and changes nothing |
| Store.Db.DeleteCustomer | src/app/actions/customer-actions.ts:95-97 | Only the addressed customer is removed; a failure changes nothing |
| Store.Db.CreateVendor | src/app/actions/vendor-actions.ts:9-29 | The next id is free, so the insert files the row built from it under that id and keeps every other vendor; or it throws and changes nothing; the tables stay well formed |
| Store.Db.UpdateVendor | src/app/actions/vendor-actions.ts:41-61 | Only the addressed vendor changes, keeping its id; a failure changes nothing |
| Store.Db.DeleteVendor | src/app/actions/vendor-actions.ts:81-83 | Only the addressed vendor is removed; a failure changes nothing |
| Store.Db.CreateUser | src/app/api/seed/route.ts:26-42 | A user insert adds the row, or throws a unique-key error for a taken email, or throws when unreachable; a throw changes nothing |
| Text.OrNull | src/app/actions/customer-actions.ts:16-18 | `x \|\| null` on text: `null` exactly for a missing or empty value, otherwise the value itself |
| Text.ParseIntOfDecimal | src/app/appointments/page.tsx:61 | `parseInt` of a number's decimal text gives the number back |
| Text.NumberAfterPrefix | src/app/actions/customer-actions.ts:92 | A number written into a message after a prefix and before a non-digit can be read back from that message |
| AppointmentActions.StoredRow | src/app/actions/appointment-actions.ts:84-93 | Whatever id the store assigns, the stored appointment has that id and the status `PENDING` |
| AppointmentActions.FallbackEntry | src/app/actions/appointment-actions.ts:100-109 | The demo entry copies the payload and has status `PENDING` and the given id |
| AppointmentActions.InitialIds | src/app/actions/appointment-actions.ts:7-46 | The two initial mock entries have ids exactly 1 and 2 |
| AppointmentActions.PrependKeepsIds | src/app/actions/appointment-actions.ts:100-109 | Putting an entry with id `length + 1` in front keeps the ids exactly 1 .. length |
| AppointmentActions.StatusKeepsIds | src/app/actions/appointment-actions.ts:127-130 | Changing a status keeps the ids exactly 1 .. length |
| AppointmentActions.FoundIffInRange | src/app/actions/appointment-actions.ts:127-128 | While that invariant holds, an id is found exactly when it lies in 1 .. length |
| AppointmentActions.MockAppointments.constructor | src/app/actions/appointment-actions.ts:7-46 | The mock list starts with the two entries and satisfies the id invariant |
| AppointmentActions.MockAppointments.Unshift | src/app/actions/appointment-actions.ts:100-109 | The new demo entry, numbered `length + 1`, goes in front; the invariant is kept |
| AppointmentActions.MockAppointments.SetStatus | src/app/actions/appointment-actions.ts:127-130 | The status of the entry with that id is set, if there is one; the invariant is kept |
| AppointmentActions.GetAppointments | src/app/actions/appointment-actions.ts:48-74 | Always success: the stored rows when reachable; an unreachable store gives `[]` under the wrapped client and the mock list under a plain one; role and user id are ignored |
| AppointmentActions.CreateAppointment | src/app/actions/appointment-actions.ts:76-113 | Always success: a reachable store gets a `PENDING` row; an unreachable one changes nothing, and the mock list grows only under a plain client |
| AppointmentActions.UpdateAppointmentStatus | src/app/actions/appointment-actions.ts:116-134 | Always success, for any status text: the stored row changes when it exists; otherwise the mock list changes only under a plain client |
| AppointmentsPage.Offered | src/app/appointments/page.tsx:274-301 | An administrator is offered Confirm and Reject on a pending row and Mark Done on a confirmed one; every other role and status gets no button |
| AppointmentsPage.OfferedIsLifecycle | src/app/appointments/page.tsx:274-301 | The buttons are exactly the lifecycle steps PENDING to CONFIRMED or CANCELLED and CONFIRMED to COMPLETED; there is no direct completion, and cancelled or completed rows offer nothing |
| AppointmentsPage.WalksAreShort | src/app/appointments/page.tsx:274-301 | Any sequence of button presses on one row passes through at most three statuses |
| AppointmentsPage.LongestWalk | src/app/appointments/page.tsx:274-301 | The only three-status walk is PENDING, CONFIRMED, COMPLETED |
| AppointmentsPage.VisibleRows | src/app/appointments/page.tsx:83-92 | The table shows, in the loaded order, exactly the rows that match both the search and the status filter, so never more rows than were loaded |
| AppointmentsPage.InitialControlsShowAll | src/app/appointments/page.tsx:27-28 | With the initial empty query and "ALL", every loaded row is shown |
| AppointmentsPage.StatusFilterIsExact | src/app/appointments/page.tsx:89 | A status other than "ALL" shows only rows with exactly that status |
| AppointmentsPage.OwnerOf | src/app/appointments/page.tsx:69 | `find(...)?.customerId`: an owner exactly when some vehicle has the id, and then the owner of the first such vehicle |
| AppointmentsPage.Booking | src/app/appointments/page.tsx:59-71 | The payload carries the parsed vehicle id, its owner, the service type, the converted date and the notes text |
| AppointmentsPage.PickedVehicleIsBooked | src/app/appointments/page.tsx:61-69 | Choosing a vehicle from the list books that vehicle and links its owner |
| AppointmentsPage.Page.constructor | src/app/appointments/page.tsx:22-37 | The initial state: nothing loaded, loading, dialog closed, empty query, "ALL", the empty form with time 09:00 |
| AppointmentsPage.Page.LoadData | src/app/appointments/page.tsx:39-49 | The list becomes what `getAppointments` gives; vehicles change only when `getVehicles` succeeds; loading ends unless `getVehicles` rejects, which leaves the page loading; the controls are kept |
| AppointmentsPage.Page.HandleSubmit | src/app/appointments/page.tsx:55-76 | A date that cannot be converted changes nothing at all. Otherwise the whole new state: reachable, the store gains the `PENDING` row with the next id and nothing else, the mock list is kept and the page shows the stored list; offline, the store is kept, and the booking is lost with an empty list shown under the wrapped client, or put in front of the mock list, which is shown, under a plain one. The dialog closes, the form resets, the vehicles follow `getVehicles`, the controls are kept, and the page keeps loading exactly when `getVehicles` rejects |
| AppointmentsPage.Page.HandleStatusChange | src/app/appointments/page.tsx:78-81 | The whole new state: a stored row with that id gets the status and nothing else in the store or the mock list changes; otherwise the store is kept and the mock list changes under a plain client only. The page then shows the stored list, or offline an empty list under the wrapped client and the mock list under a plain one; the form, the dialog and the controls are kept, the vehicles follow `getVehicles`, and the page keeps loading exactly when `getVehicles` rejects |
| CustomerActions.NewCustomer | src/app/actions/customer-actions.ts:10-20 | The customer row copies the form and stores empty email, address and GSTIN as `null` |
| CustomerActions.NewVehicle | src/app/actions/customer-actions.ts:34-47 | A vehicle row carries the owner's id and copies of the owner's full name, phone, address and GSTIN; empty chassis and engine numbers become `null` |
| CustomerActions.AddVehicles | src/app/actions/customer-actions.ts:23-48 | The reference for the vehicle loop of the `$transaction` callback: it can only fail with the conflict error of one of the listed vehicles |
| CustomerActions.Transaction | src/app/actions/customer-actions.ts:8-52 | The reference for the whole `$transaction`: an unreachable store fails with its error, a commit returns the customer built from the next id, and any other failure is the conflict error of one of the vehicles |
| CustomerActions.CommitsIffFresh | src/app/actions/customer-actions.ts:23-48 | The vehicle loop completes exactly when no registration is stored already and none repeats |
| CustomerActions.AbortNamesFirstClash | src/app/actions/customer-actions.ts:26-32 | An aborted loop's error names the first vehicle whose registration is taken or repeated |
| CustomerActions.CommitKeepsRows | src/app/actions/customer-actions.ts:24-48 | A completed loop uses one id per vehicle, keeps every earlier vehicle row and touches no other table |
| CustomerActions.CommitAddsKeys | src/app/actions/customer-actions.ts:34-47 | After a completed loop the registrations are exactly the old ones and the new vehicles' |
| CustomerActions.CommitAddsRows | src/app/actions/customer-actions.ts:34-47 | After a completed loop each vehicle is stored under its registration with consecutive ids and the owner's id and copied details |
| CustomerActions.CreateCommitsIffFresh | src/app/actions/customer-actions.ts:8-52 | The transaction commits exactly when the store is reachable and every registration is new and distinct; it then adds the customer under the next id and one row per vehicle, keeps every stored vehicle and leaves the other tables alone; on well-formed tables the next id is free, so every stored customer is kept as well and the tables stay well formed |
| CustomerActions.CreateNamesFirstConflict | src/app/actions/customer-actions.ts:30-32 | A rejected creation reports the first registration that clashes |
| CustomerActions.RunTransaction | src/app/actions/customer-actions.ts:8-52 | The transaction's loop computes exactly the reference outcome |
| CustomerActions.MessageOr | src/app/actions/customer-actions.ts:59 | `error.message \|\| fallback`: the message when it is not empty, else the fallback |
| CustomerActions.CreateCustomer | src/app/actions/customer-actions.ts:6-61 | All or nothing: success with the created customer and the committed tables, or the transaction's error and unchanged tables; the tables stay well formed |
| CustomerActions.Edited | src/app/actions/customer-actions.ts:63-75 | An update writes the name and phone fields that were sent, keeps those that were not (`undefined` leaves a column alone), writes the `\|\| null` optional fields, and keeps the id and `customerId` |
| CustomerActions.PhoneOnlyEditClearsOptionals | src/app/actions/customer-actions.ts:63-75 | A form holding only a phone number keeps both names and sets email, address and GSTIN to `null` |
| CustomerActions.UpdateCustomer | src/app/actions/customer-actions.ts:63-82 | Only the customer changes, never its vehicles' copied owner fields; a failure is success with `null` under the wrapped client and the fixed error under a plain one |
| CustomerActions.StillOwnsStatesCount | src/app/actions/customer-actions.ts:92 | The refusal message contains the number of vehicles, readable back from the text |
| CustomerActions.DeleteCustomer | src/app/actions/customer-actions.ts:84-104 | A customer who owns vehicles is never deleted, and the refusal names their count; otherwise the row is removed; offline or missing, it is success under the wrapped client and the fixed error under a plain one |
| CustomerActions.GetCustomers | src/app/actions/customer-actions.ts:106-123 | One entry per stored customer (as many as are stored, each stored, every one listed, none twice), or none when the store cannot be read |
| VendorActions.Normalised | src/app/actions/vendor-actions.ts:13-27 | Each optional text field is stored as `null` when it is missing or empty |
| VendorActions.RatingOnCreate | src/app/actions/vendor-actions.ts:23 | `rating \|\| 3.0`: a missing, `null` or zero rating becomes 3; any other number is kept |
| VendorActions.RatingOnUpdate | src/app/actions/vendor-actions.ts:55 | `rating !== undefined ? rating : 3.0`: only a missing rating becomes 3; `null` is written as `null`, a number as itself |
| VendorActions.LimitOrNull | src/app/actions/vendor-actions.ts:25 | A missing or zero credit limit is stored as `null` |
| VendorActions.StatusOr | src/app/actions/vendor-actions.ts:26 | A missing or empty status becomes "ACTIVE" |
| VendorActions.Revised | src/app/actions/vendor-actions.ts:39-59 | An update writes every column but the id and `vendorId`, with the update's defaults; a company name or phone that was not sent keeps the stored one |
| VendorActions.RatingRulesDisagree | src/app/actions/vendor-actions.ts:23-55 | Creation and update store the same rating exactly unless the form's rating is zero or `null`; update keeps those, creation replaces them by 3 |
| VendorActions.StoredVendorFields | src/app/actions/vendor-actions.ts:9-29 | For a form with a company name and phone, the stored vendor carries the form's values with the documented defaults |
| VendorActions.CreateVendor | src/app/actions/vendor-actions.ts:7-37 | Always success: the stored row when the store is reachable and the form has a company name and phone; otherwise nothing is written, and the reply is `null` under the wrapped client or the form echoed with a random id below 1000 under a plain one |
| VendorActions.UpdateVendor | src/app/actions/vendor-actions.ts:39-68 | Always success: the revised row; on failure `null` or the form echoed with the given id |
| VendorActions.OrdersRemainStatesCount | src/app/actions/vendor-actions.ts:78 | The refusal message contains the number of purchase orders, readable back from the text |
| VendorActions.DeleteVendor | src/app/actions/vendor-actions.ts:70-91 | Refused, naming the count, exactly when the count is readable and above zero; otherwise success, with the vendor removed only when the deletion really happened |
| VendorActions.GetVendors | src/app/actions/vendor-actions.ts:93-112 | One entry per stored vendor, none twice, when there are some and they can be read; otherwise the mock list |
| Auth.SessionOf | src/app/api/auth/login/route.ts:41-46 | The session data copies id, email, name and role, and never the password |
| Auth.SessionCookie | src/app/api/auth/login/route.ts:49-55 | The `session` cookie carries the session data, is HTTP-only and `lax`, has path `/` and lives 604800 seconds; it is secure exactly in production |
| Auth.Login | src/app/api/auth/login/route.ts:8-71 | 500 exactly when the route throws: an unparsable body, no email, an unreachable store, or no password for a registered email; otherwise 401 "Invalid credentials" exactly for an unknown email or a wrong password; else 200 with the user's session data and cookie |
| Auth.MissingPasswordRevealsEmail | src/app/api/auth/login/route.ts:13-32 | Without a password a registered email gives 500 and an unknown one 401, so the status tells which emails are registered |
| Auth.FailuresLookAlike | src/app/api/auth/login/route.ts:24-38 | An unknown email and a wrong password give the same response |
| Auth.ClearingCookie | src/app/api/auth/logout/route.ts:6-12 | The logout cookie is the empty `session` cookie with lifetime 0 |
| Auth.Logout | src/app/api/auth/logout/route.ts:4-21 | Always 200 "Logged out successfully", with the clearing cookie |
| Auth.LogoutMirrorsLogin | src/app/api/auth/logout/route.ts:6-12 | The logout cookie is the login cookie with the value emptied and the lifetime zeroed, so the browser matches it to the same cookie |
| Auth.Receive | src/app/api/auth/logout/route.ts:10 | A cookie with a positive lifetime is stored; one with lifetime zero or less is removed (RFC 6265, section 5.3) |
| Auth.LogoutClosesTheGate | src/app/api/auth/logout/route.ts:6-20 | After login a browser passes the gate on a matched protected page; after logout it is redirected to `/login` again |
| Seed.HttpStatus | src/app/api/seed/route.ts:52-59 | Error responses are 500; the other two are 200 |
| Seed.SeedDatabase | src/app/api/seed/route.ts:7-60 | The route computes exactly the reference outcome and the new tables |
| Seed.SeedIsIdempotent | src/app/api/seed/route.ts:10-20 | After any request to a reachable store the administrator exists, and a second request reports `already_seeded` and changes nothing |
| Seed.OnlyAdminIsChecked | src/app/api/seed/route.ts:10-42 | If the demo user exists but the administrator does not, the administrator is inserted and kept, and the response is a 500 unique-key error |
| Seed.FreshSeed | src/app/api/seed/route.ts:23-51 | A fresh seed adds exactly the two demo accounts and lists their emails and passwords |
| Seed.SeededAdminCanSignIn | src/app/api/seed/route.ts:26-33 | After a fresh seed the administrator can sign in with the published password and gets the ADMIN role |
| ServiceHistory.Render | src/app/service-history/components/ServiceHistoryList.tsx:8-78 | A spinner exactly while loading; an administrator sees every record; the empty state shows exactly when no card does, with the booking hint exactly for role USER |
| ServiceHistory.OthersSeeOwnRecords | src/app/service-history/components/ServiceHistoryList.tsx:19-21 | Anyone but an administrator sees, in order, exactly the records whose customer id is their own |
| ServiceHistory.NoOwnRecordsShowsEmptyState | src/app/service-history/components/ServiceHistoryList.tsx:67-75 | A non-administrator with no records of their own gets the empty state, with the hint exactly when their role is USER |
| Dashboard.Choose | src/components/dashboard/DashboardWrapper.tsx:8-24 | A spinner exactly while loading; the administrator dashboard exactly when nobody is signed in or the role is ADMIN; otherwise the user dashboard for that user |

## Left out

- I/O is left out: HTTP framing, JSON and cookie serialisation, `revalidatePath`, console logging, React rendering and effects. A cookie's serialised text is modelled as the value it encodes.
- `src/lib/prisma.ts`: the proxy and reflection machinery and the process-wide singleton are left out. Only the per-member decision and the catch table are modelled.
- The store is reduced to the columns the actions read or write:
  - ids come from one counter for all tables;
  - a failed transaction restores the id counter in the model, while a real autoincrement sequence would keep the ids it spent;
  - the tables are taken to be well formed (`Store.WellFormed`): every customer, vendor and appointment id is below the counter, customers and vendors are filed under their own id, and appointment ids are distinct;
  - the order of `findMany` (`orderBy`) and the joined relations (`include`) are not modelled;
  - foreign-key checks beyond the counted guards of the two deletions are not modelled;
  - a store that fails part-way through a request is not modelled: reachability is fixed per request.
- Concurrency between requests and transaction isolation are left out.
- Foreign code becomes a parameter:
  - `bcrypt.compare` becomes the parameter `verify`;
  - `bcrypt.hash` becomes the hash arguments of `Seed.SeedDatabase`;
  - `toLowerCase` becomes `lower`;
  - `Math.random` becomes the argument `randomId` below 1000;
  - `new Date(...).toISOString()` becomes `iso`;
  - the creation time becomes `now`;
  - `NODE_ENV` becomes `production`.
- Dates are opaque text.
- `MOCK_VENDORS` is a parameter of `VendorActions.GetVendors`: `src/lib/mock-data` is not part of this model.
- `getVehicles` is imported by the appointments page but is not defined in `src/app/actions/customer-actions.ts`. How that call settles is the parameter `fetched` of `AppointmentsPage.Page.LoadData`: its rows, a reply without success, or a rejection. With the file as shown the call rejects.
- `config.matcher` is modelled as the regular expression it states, read against the path. Next.js's own compilation of the matcher (locale and base-path prefixes, trailing slashes, `.` not matching a line break) is left out.
- VendorActions.RatingOnUpdate: the rating column is taken to be nullable, so a `null` rating is stored as `null`. The schema is not part of this model. With a non-nullable column the update would throw instead. A rating that is not a number is not modelled.
- The auth context is not part of this model. `useAuth()` is modelled as an optional `Auth.SessionData` with a numeric id. That is the id the login route puts in the cookie.
- Text.ParseIntOfDecimal: only the decimal digits of a vehicle id are modelled. `parseInt`'s handling of leading spaces, signs and other bases is not.
- AppointmentsPage.Booking: a vehicle id that does not parse is sent as no vehicle. How the store would treat the `NaN` the page really sends is not modelled.
- VendorActions.CreateVendor: `companyName` and `phone` are taken to be the vendor's required columns, as the row type has them; the schema is not part of this model. A form field set to `null` rather than left out, and a value of the wrong type, are not modelled; for `CustomerActions.UpdateCustomer` and `VendorActions.UpdateVendor` a required field is either a string or absent.
- CustomerActions.CreateCustomer: a unique constraint on `customerId` and other database-side validation of the customer row are not modelled. The schema is not part of this model.
- The service-history page and `getServiceHistory` only load the records. Their list is the parameter `records` of `ServiceHistory.Render`.
- The card texts of the service-history list are left out, and so is the appointment table's badge styling: both are display only.

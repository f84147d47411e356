# Student AI platform — verified model of the data layer, actions, tutor prompt and dashboard

This project is a Dafny model of the learning platform's logic. A signed-in user picks a learning domain, sees that domain's resources, marks resources complete and chats with an AI tutor. The model covers four parts of the source:

- **Schema** (`schema.dfy`, from `src/db/schema.ts`): the `users`, `resources` and `user_progress` tables as maps from primary key to row. `Valid` gathers the declared constraints:
  - each table is keyed by its primary key, and `user_progress` by the pair (userId, resourceId);
  - `users.email` is unique;
  - both columns of the progress key reference existing rows.

  NOT NULL columns are plain values and nullable columns are `Option`s. So a resource always has a title, url, type and domain, its description and difficulty may be absent, and `isCompleted` is never null. A `select` from a table is a *scan*: a sequence that lists every row once, in an order the database chooses (`ScanOf`, `CatalogOf`).
- **Server actions** (`user_actions.dfy`, from `src/app/actions/user.ts`): the three actions that write to the database.
  - `updateUserDomain` upserts the caller's profile row.
  - `toggleResourceCompletion` upserts the caller's progress row; the last write wins.
  - `resetUserDomain` clears `selectedDomain` and only updates an existing row.

  Each action is written twice. The first is a pure step function from the old tables to an outcome and the new tables; its contract is what the action promises. The second is a method of the class `Store`, which holds the three tables and updates them in place; each method is proved to follow its step function and to keep `Valid`. Authentication is checked first, and an unauthenticated call writes nothing. The database's own checks are part of the step: the unique email, and the foreign keys on the insert path of the progress upsert.
- **Tutor chat endpoint** (`chat_route.dfy`, from `src/app/api/chat/route.ts`). It maps the domain to its display name and joins the caller's completed progress rows with their resources. Each resource is rendered as `title (type)`, the renderings are joined with `", "`, and `"none yet"` is used when there are none. The template is filled in, and the text generator receives the prompt and the request's messages. The 401 guard comes before anything else, and the 500 error responses are modelled.
- **Dashboard** (`dashboard.dfy`, from `src/app/dashboard/page.tsx`): the page's data. It covers the greeting name, the resources of the selected domain, the resourceId→completed map and each card's flag, the completed count, the completion percentage and the domain display name.

Shared pieces:
- `domains.dfy` holds the domain label table. Both pages define the same table; here it is defined once. A lemma checks it against the selection screen's list of domains.
- `auth.dfy` holds what the authentication provider supplies: an optional user id and an optional profile.
- `text.dfy` holds JavaScript truthiness of nullable strings, `Array.prototype.join`, and substring containment.

Behaviour of the code worth noting:
- The chat endpoint does not reject an empty message history. It passes the messages on as they are.
- A thrown `Error` is answered with a JSON 500 that carries the error's message, not with a generic error. Only a thrown non-`Error` value gets the plain "Internal Server Error".
- Domain values are not checked against the closed set of domains anywhere. Any string is stored, and an unknown key is displayed as itself.
- A toggle fails with a foreign-key error when the caller has no profile row yet, that is, before choosing a domain (`ToggleNeedsProfileAndResource`).

## Model

| member | source | states |
|---|---|---|
| `Domains.Label` | src/app/api/chat/route.ts:9-13 | A mapped domain key yields its label (e.g. "data-science" → "Data Science"). An unmapped key yields itself. A non-empty key never yields "". This is the same table as src/app/dashboard/page.tsx:10-14. |
| `Domains.SelectableDomainsAreLabelled` | src/components/domain-selection.tsx:14-33 | The label table maps exactly the domains offered on the selection screen, each to the name its card shows. |
| `Schema.Valid` | src/db/schema.ts:3-38 | The table invariant: rows keyed by their primary keys (schema.ts:4, 13, 35-37), unique emails (schema.ts:5), and both progress-key columns referencing existing rows (schema.ts:26-31). Under it every progress row points to an existing user row and an existing resource row. |
| `Schema.FindUser` | src/app/api/chat/route.ts:30-34 | The lookup of a user row by id finds a row exactly when the id is a key, and then finds that row. |
| `UserActions.StoredEmail` | src/app/actions/user.ts:22 | The stored email is the first email address, or "" when the profile has none. |
| `UserActions.FullName` | src/app/actions/user.ts:23-25 | The name is "first last" when both are truthy, else the first name, else the username, else null. It is null exactly when neither the first name nor the username is usable, and it is never "". |
| `UserActions.UpdateUserDomainStep` | src/app/actions/user.ts:9-51 | Unauthenticated: fails with Unauthorized and writes nothing. No profile: fails with UserNotFound and writes nothing. Fails with EmailTaken exactly when another user's row holds the derived email. Otherwise it inserts or updates the caller's row: the domain, email, name and image come from the inputs, the creation time is kept, and no other row changes. It never touches `user_progress` or `resources`, and it preserves every schema constraint. |
| `UserActions.ToggleResourceCompletionStep` | src/app/actions/user.ts:53-84 | Unauthenticated: fails with Unauthorized. Succeeds exactly when the (caller, resource) row exists or both foreign keys hold; otherwise fails with MissingReference. On success that row holds the new flag and time, and every other progress row is unchanged. It never touches `users` or `resources`, and it preserves every schema constraint. |
| `UserActions.ResetUserDomainStep` | src/app/actions/user.ts:86-105 | Unauthenticated: fails with Unauthorized. Otherwise it succeeds and sets only the caller's `selectedDomain` to null. It creates no row, deletes no row, changes nothing else, and preserves every schema constraint. |
| `UserActions.UpdateThenLookup` | src/app/actions/user.ts:28-45 | After a successful domain update, looking up the caller finds exactly one row, and it holds the chosen domain. |
| `UserActions.UpdateUserDomainIdempotent` | src/app/actions/user.ts:28-45 | Repeating a domain update with the same inputs gives the same outcome and leaves the tables unchanged. |
| `UserActions.ToggleLastWriteWins` | src/app/actions/user.ts:64-78 | Toggling (caller, resource) twice gives exactly what toggling once to the second value gives: one row, holding the last value. |
| `UserActions.ToggleNeedsProfileAndResource` | src/app/actions/user.ts:64-78 | With the schema's constraints in force, a toggle succeeds exactly when the caller is signed in, has a profile row and the resource exists. |
| `UserActions.ResetClearsDomain` | src/app/actions/user.ts:94-99 | A reset keeps the caller's row, leaves its domain null whatever it was, and a second reset changes nothing. |
| `UserActions.Store.constructor` | src/db/schema.ts:3-38 | A database seeded with a resource catalog starts with no users and no progress, and satisfies every constraint. |
| `UserActions.Store.UpdateUserDomain` | src/app/actions/user.ts:9-51 | The in-place upsert returns the outcome of `UpdateUserDomainStep` and leaves the tables it gives. It keeps the constraints. |
| `UserActions.Store.ToggleResourceCompletion` | src/app/actions/user.ts:53-84 | The in-place upsert returns the outcome of `ToggleResourceCompletionStep` and leaves the tables it gives. It keeps the constraints. |
| `UserActions.Store.ResetUserDomain` | src/app/actions/user.ts:86-105 | The in-place update returns the outcome of `ResetUserDomainStep` and leaves the tables it gives. It keeps the constraints. |
| `ChatRoute.DomainDisplayName` | src/app/api/chat/route.ts:36-39 | A set domain yields its label. An unset or empty domain, or a missing user row, yields "your chosen field". The name is never empty. |
| `ChatRoute.CompletedResources` | src/app/api/chat/route.ts:42-55 | The join holds exactly the resources of scanned rows that belong to the caller, are completed and reference a resource. No other user's rows and no incomplete rows are included. |
| `ChatRoute.CompletedResourcesAppend` | src/app/api/chat/route.ts:42-55 | The join keeps scan order: joining a + b gives the join of a followed by the join of b. |
| `ChatRoute.CompletedResourcesMatchTables` | src/app/api/chat/route.ts:42-55 | For a scan of valid tables, the join holds exactly the resources of the caller's completed progress rows. |
| `ChatRoute.Renders` | src/app/api/chat/route.ts:60-61 | Each completed resource is rendered, in order, as `title (type)`. |
| `ChatRoute.CompletedList` | src/app/api/chat/route.ts:58-63 | The list is "none yet" exactly when there are no completed resources. A joined list can never read "none yet". |
| `ChatRoute.CompletedListSingle` | src/app/api/chat/route.ts:58-62 | One completed resource is listed as exactly `title (type)`. Together with `CompletedListAppend`, this fixes the list text exactly. |
| `ChatRoute.CompletedListMentionsEach` | src/app/api/chat/route.ts:58-63 | Every completed resource appears in the list as `title (type)`. |
| `ChatRoute.CompletedListAppend` | src/app/api/chat/route.ts:58-62 | The list keeps row order: the list of a + b is the list of a, then ", ", then the list of b. |
| `ChatRoute.SystemPrompt` | src/app/api/chat/route.ts:66-78 | The template opens with "You are an expert AI tutor specializing in ", the domain display name and ". ". It contains the role block ("Your role is to:", "- Guide the user on what to learn next based on their progress", "- Provide personalized recommendations for their learning journey"). It ends with the fixed closing lines ("- Keep your answers concise…" through "…learning goals."). |
| `ChatRoute.SystemPromptMentions` | src/app/api/chat/route.ts:66-78 | The prompt opens with the domain display name. It contains "The user has completed the following resources: " followed by the list and ".". It contains the role block with its two directives (guide the user on what to learn next; give personalized recommendations). It names the domain again in the "Answer questions related to" line. |
| `ChatRoute.AssemblePrompt` | src/app/api/chat/route.ts:29-63 | The caller's prompt opens with the domain display name taken from the caller's user row (or "your chosen field"), and ends with the template's fixed closing lines. |
| `ChatRoute.AssembledPromptReportsProgress` | src/app/api/chat/route.ts:29-78 | For valid tables, the caller's prompt contains "none yet" when the caller has completed nothing. It names every resource the caller has completed as `title (type)`. |
| `ChatRoute.ErrorResponse` | src/app/api/chat/route.ts:91-101 | A thrown `Error` becomes status 500 with a JSON body carrying its message. Any other thrown value becomes a 500 "Internal Server Error". |
| `ChatRoute.Post` | src/app/api/chat/route.ts:15-103 | Without a signed-in caller the answer is 401 "Unauthorized", whatever the body, the tables or the generator. A malformed body or a throw from the `streamText` call becomes the matching 500. Otherwise the generator receives exactly the assembled prompt and the request's messages, unchanged. |
| `Dashboard.UserName` | src/app/dashboard/page.tsx:25 | The greeting name is the first name if truthy, else the username if truthy, else "there". It is never empty. |
| `Dashboard.DomainDisplayName` | src/app/dashboard/page.tsx:64-67 | The name is null exactly when no (non-empty) domain is set. Otherwise it is the domain's label. |
| `Dashboard.DomainNamesAgree` | src/app/dashboard/page.tsx:64-67 | The dashboard and the tutor prompt name the domain alike. The prompt says "your chosen field" where the dashboard has none. |
| `Dashboard.InDomain` | src/app/dashboard/page.tsx:37-40 | The filtered list holds exactly the scanned resources whose domain is the given one. |
| `Dashboard.InDomainAppend` | src/app/dashboard/page.tsx:37-40 | The domain filter keeps scan order. |
| `Dashboard.DomainResources` | src/app/dashboard/page.tsx:34-42 | With no selected domain the list is empty. Otherwise it holds exactly the scanned resources of that domain. |
| `Dashboard.DomainResourcesMatchTables` | src/app/dashboard/page.tsx:34-42 | For a scan of valid tables, the listed resources are exactly the table's resources of the selected domain. |
| `Dashboard.UserRows` | src/app/dashboard/page.tsx:44-48 | The progress data holds exactly the scanned rows of the caller. |
| `Dashboard.ProgressMap` | src/app/dashboard/page.tsx:50-53 | The map has one entry for each resource id that occurs in the rows. |
| `Dashboard.ProgressMapLastWins` | src/app/dashboard/page.tsx:50-53 | An id's entry holds the flag of the last row with that id. |
| `Dashboard.CardCompleted` | src/app/dashboard/page.tsx:141 | A card is completed exactly when the map has its id with value true. A missing entry counts as false. |
| `Dashboard.CardCompletedMatchesTables` | src/app/dashboard/page.tsx:141 | For a scan of valid tables, a card is completed exactly when the caller's progress row for that resource exists and says completed. |
| `Dashboard.CompletedCount` | src/app/dashboard/page.tsx:56 | The count never exceeds the number of rows. |
| `Dashboard.CompletedCountIsKeyCount` | src/app/dashboard/page.tsx:56 | In a scan with distinct keys, the count of the caller's completed rows is the number of their distinct keys. |
| `Dashboard.CompletedCountMatchesTables` | src/app/dashboard/page.tsx:44-56 | The completed count is the number of the caller's completed progress rows in the table, across all domains. |
| `Dashboard.CompletionPercentage` | src/app/dashboard/page.tsx:58-62 | 0 when there are no listed resources. Otherwise completed·100/total rounded half up, stated as 2·t·r ≤ 200·c + t < 2·t·(r+1). |
| `Dashboard.CompletionPercentageBounds` | src/app/dashboard/page.tsx:58-62 | The percentage is at most 100 while completed ≤ total and at least 100 once completed ≥ total. It is exactly 100 when they are equal and 0 when nothing is completed. |
| `Dashboard.CompletionPercentageExceedsHundred` | src/app/dashboard/page.tsx:58-62 | The percentage is not capped: two completed lessons against one listed resource show 200. |
| `Dashboard.Cards` | src/app/dashboard/page.tsx:132-143 | There is one card per listed resource, in order, each carrying its completed flag from the map. |
| `Dashboard.DashboardPage` | src/app/dashboard/page.tsx:16-69 | A signed-out caller is redirected to "/". Otherwise the page shows the greeting name, the domain name, the completed count, the percentage of that count over the listed resources, and one card per listed resource, in order. Each card's completed flag is the caller's progress value for that resource, or false when there is none. |

## Left out

- Authentication (the provider's `auth` and `currentUser`): it is replaced by its results, an optional user id and an optional profile, which are inputs.
- The text generator (`streamText`, the model choice, `toTextStreamResponse`) and streaming: the model records the generator call (system prompt and messages), not the reply. A throw from the `streamText` call is an input. A failure after the stream has started reaches the caller inside the 200 stream and is not modelled.
- Framework plumbing: `revalidatePath`, the body of `redirect` (modelled only as the redirect target), `Request.json` (its result is an input: either the messages, or what parsing the body or reading its `messages` threw, so a body such as `{}` gives the JSON 500 of `Malformed(ErrorObject(..))`), response headers, and the exact JSON text of an error body.
- Database mechanics: the query builder, transactions and atomicity, and concurrent writers. Failures of the lookups in the chat endpoint and the dashboard are also not modelled.
- Timestamps and ids: `createdAt` and `lastInteractedAt` are an opaque tick passed in. Uuid generation is not modelled.
- Resource ids are compared as exact text. Postgres reads any spelling of a `uuid` (upper case, no hyphens, braces) as the same value, and rejects text that is not a uuid with an "invalid input syntax" error. Neither the normalisation nor that error is modelled: a toggle given a different spelling of an existing id fails here with `MissingReference`.
- The order of scanned rows: the database returns rows in an unspecified order, so the order is an input (a scan).
- The column default `isCompleted = false`: no modelled operation inserts a progress row without a flag, so the default is never used.
- `Domains.Label`: the lookup `domainNames[key]` on a plain JavaScript object also finds inherited properties such as `constructor`, whose value is truthy. The model treats the table as a map, so such keys display as themselves.
- `Dashboard.CompletionPercentage`: it is computed in exact rational arithmetic. The source rounds the floating-point value `completed / total * 100`, which can differ at exact halves.
- Console logging and the page's presentation (layout, styling, the optimistic toggle in the resource card). `src/db/seed.ts` is not part of this model.

# Admin activities page and create-admin edge function, in Dafny

This project models two small pieces of logic from the "Ognjište ljepote Grahovo"
site and proves properties of them.

- **The admin page** (`src/pages/AdminDashboard.tsx`) is a React component.
  - It selects an image for a new activity.
  - It names the storage object `<timestamp>-<random>.<ext>`.
  - It submits the form: validation, then the upload into bucket `activities`,
    then the row insert, then the reset and a reload of the list.
  - It deletes an activity: it recovers the storage key from the public URL,
    removes the object, deletes the row and filters the list.

  The component's state is the class `AdminDashboard.Dashboard`, whose fields
  are those of its `useState` hooks. Each event handler is a method on it. The
  storage and database calls are not executed. Their replies are parameters, and
  each handler returns the ordered log of requests it issues (`Request`) and the
  notice it raises. `ToastOf` turns a notice into the toast text.
- **The `create-admin` edge function** (`supabase/functions/create-admin/index.ts`)
  is pure.
  - It builds the list of allowed origins and chooses the
    `Access-Control-Allow-Origin` value.
  - It answers one request through a chain of early returns: OPTIONS, body
    parse, Bearer check, claims, admin-role lookup, user creation, role insert.

  `Respond` maps a request and the backend's replies (`Backend`) to the response
  and to the ordered log of backend calls (`Call`). `Serve` adds the CORS headers
  built from the request's `Origin`.
- **`JsString`** writes out the JavaScript string built-ins that both files use:
  `split`, `join`, `findIndex`, `replace`, `trim`, `substring`, `startsWith` and
  `String(n)`.
- **`Outcomes`** holds the `Option`, `Result` and `Outcome` wrappers.

## Model

| member | source | states |
|---|---|---|
| AdminDashboard.Dashboard.HandleFileSelect | src/pages/AdminDashboard.tsx:95-107 | A file whose type does not start with `image/` raises "choose an image" and leaves the selection and preview unchanged. An image becomes the selection, with the object URL as its preview. Only images are ever selected. |
| AdminDashboard.Dashboard.HandleFileChange | src/pages/AdminDashboard.tsx:109-114 | Only the first chosen file is considered. With no file chosen, nothing changes and no notice is raised. |
| AdminDashboard.Dashboard.HandleDrop | src/pages/AdminDashboard.tsx:135-144 | Only the first dropped file is considered. With no file dropped, nothing changes. |
| AdminDashboard.Dashboard.constructor | src/pages/AdminDashboard.tsx:39-49 | Initial state: empty list, loading, not uploading, nothing being deleted, empty form, no file, no preview. |
| AdminDashboard.Dashboard.SetTitle | src/pages/AdminDashboard.tsx:404 | The title field takes the typed value. |
| AdminDashboard.Dashboard.SetDescription | src/pages/AdminDashboard.tsx:417 | The description field takes the typed value. |
| AdminDashboard.Dashboard.ReceiveActivities | src/pages/AdminDashboard.tsx:74-93 | On success the rows replace the list, and `null` counts as no rows. On an error the list is kept and a "could not load" notice is raised. Loading ends either way. |
| AdminDashboard.FileExtension | src/pages/AdminDashboard.tsx:149 | The extension is the suffix after the last `.`, contains no `.`, and is the whole name when the name has no `.`. |
| AdminDashboard.RandomToken | src/pages/AdminDashboard.tsx:148 | At most six characters. They are characters 2 to 8 of the rendered random number, fewer when it is shorter, none when it has at most two. |
| AdminDashboard.GeneratedNameParts | src/pages/AdminDashboard.tsx:146-151 | The generated name splits at its first `-` into the timestamp's decimal digits. Its extension is the extension of the original name. |
| AdminDashboard.NameShape | src/pages/AdminDashboard.tsx:150 | For a name `digits-token.ext` whose extension has no `.`, the part before the first `-` is the digits and the part after the last `.` is the extension. |
| AdminDashboard.Submit | src/pages/AdminDashboard.tsx:153-230 | An empty trimmed title is refused first, then a missing file, with nothing issued. Otherwise the upload of the selected file to the object key comes first. The insert comes only after a passed upload, with the trimmed title, the description or `null`, the public URL of the uploaded key and the user's id. A passed insert clears the form, reloads the list and raises "activity added". Every failure raises a destructive notice carrying the error's message. |
| AdminDashboard.Dashboard.HandleSubmit | src/pages/AdminDashboard.tsx:153-230 | The issued requests, the notice and the new form state are those that `Submit` gives for the trimmed form and the generated key. When nothing is issued, `uploading` is unchanged; after any call it is false. The list and the delete marker are untouched. |
| AdminDashboard.Dashboard.Publish | src/pages/AdminDashboard.tsx:174-229 | The body of the try block. The form is reset exactly when both calls passed. `uploading` is false on every exit. |
| AdminDashboard.ShownMessage | src/pages/AdminDashboard.tsx:222-225 | A non-empty error message is shown as is, and an empty one is replaced by the fallback. |
| AdminDashboard.ToastOf | src/pages/AdminDashboard.tsx:157-170 | A toast is destructive exactly for failures. Its title is "Greška" or "Uspješno", its description is never empty, and a failure's non-empty message is shown verbatim. |
| AdminDashboard.NullIfEmpty | src/pages/AdminDashboard.tsx:195 | `description.trim() \|\| null`: `None` exactly for the empty string. |
| AdminDashboard.KeyAfterSegment | src/pages/AdminDashboard.tsx:242-245 | No key exactly when no path segment equals the bucket name. |
| AdminDashboard.ExtractStorageKey | src/pages/AdminDashboard.tsx:241-245 | No key exactly when the path has no `activities` segment. |
| AdminDashboard.KeyAfterSegmentInverts | src/pages/AdminDashboard.tsx:242-245 | For a prefix without that segment, the key after `/segment/` comes back exactly, including any `/` inside it. |
| AdminDashboard.ExtractAfterBucket | src/pages/AdminDashboard.tsx:242-245 | The same round trip for the `activities` segment. |
| AdminDashboard.UploadedObjectIsFound | src/pages/AdminDashboard.tsx:179-189 | The public URL path `/storage/v1/object/public/activities/activities/<name>` yields back the uploaded key `activities/<name>`. |
| AdminDashboard.RemoveById | src/pages/AdminDashboard.tsx:266 | The kept items are exactly the listed items with another id. |
| AdminDashboard.RemoveByIdConcat | src/pages/AdminDashboard.tsx:266 | Filtering distributes over concatenation, so the kept items stay in their original order. |
| AdminDashboard.RemoveByIdAbsent | src/pages/AdminDashboard.tsx:266 | A list without the id is returned unchanged. |
| AdminDashboard.RemoveByIdIdempotent | src/pages/AdminDashboard.tsx:266 | Filtering twice equals filtering once. |
| AdminDashboard.Dashboard.HandleDelete | src/pages/AdminDashboard.tsx:232-277 | A declined confirmation does nothing. A URL that does not parse issues nothing, keeps the list and raises its message. Otherwise the object removal is issued only when a key is recovered. A rejected removal ends the handler with its message, before the row delete and with the list kept. In every other case the row delete is issued after it, and only a passed delete filters the activity out of the list. `deleting` is cleared on every exit after the confirmation. |
| CreateAdmin.Truthy | supabase/functions/create-admin/index.ts:6-10 | `filter(Boolean)`: keeps exactly the present, non-empty strings and never grows the list. |
| CreateAdmin.AllowedOriginsShape | supabase/functions/create-admin/index.ts:4-12 | The list is `[SUPABASE_URL, production, preview]`, or the two fixed origins when the URL is unset or empty. It never has fewer than two entries. |
| CreateAdmin.StripTrailingSlash | supabase/functions/create-admin/index.ts:16 | `replace(/\/$/, '')` removes one trailing `/` and nothing else. |
| CreateAdmin.SomePrefix | supabase/functions/create-admin/index.ts:16 | True exactly when some allowed entry, with its trailing `/` stripped, is a prefix of the origin. |
| CreateAdmin.AllowOrigin | supabase/functions/create-admin/index.ts:16-18 | The origin is echoed exactly when it is non-empty and matches by prefix. Otherwise the result is the first allowed entry, or `*` for an empty list. |
| CreateAdmin.AllowOriginIsOriginOrAllowed | supabase/functions/create-admin/index.ts:14-18 | With the real allowed list, the chosen origin is the request's origin or an allowed entry. When the origin is not echoed, the result is the first entry, so the `*` fallback is never reached. |
| CreateAdmin.PrefixMatchAdmitsLongerOrigins | supabase/functions/create-admin/index.ts:16 | Any origin that extends an allowed entry is echoed back, e.g. a lookalike host with a longer name. |
| CreateAdmin.CorsHeaders | supabase/functions/create-admin/index.ts:14-24 | Exactly the two CORS headers. Allow-Headers is the fixed list, and Allow-Origin is the request origin or an allowed entry. |
| CreateAdmin.JsonHeaders | supabase/functions/create-admin/index.ts:42 | The CORS headers kept, plus `Content-Type: application/json`. |
| CreateAdmin.CreateAdminUser | supabase/functions/create-admin/index.ts:86-117 | `createUser` is the first call. The role insert follows only for a created user, with that user's id. 200 with the id exactly when both steps succeed; otherwise 400 with the failing step's message. |
| CreateAdmin.Authorize | supabase/functions/create-admin/index.ts:65-78 | The admin-row lookup is for the requester. A lookup error or no admin row gives 403 and no further call. A thrown lookup gives 400. |
| CreateAdmin.Authenticate | supabase/functions/create-admin/index.ts:53-63 | The claims are fetched for the token. An error or missing claims gives 401 and no further call. A thrown call gives 400. |
| CreateAdmin.Respond | supabase/functions/create-admin/index.ts:30-119 | OPTIONS is answered 200 without a body or any call. Then an unparsable body gives 400 and a header not starting with `Bearer ` gives 401, both before any call. The calls made are a prefix of claims, admin lookup, create user, role insert, each after the previous one passed. Success is 200 with the new user's id. Statuses are 200, 400, 401 or 403, and every response carries the CORS headers. |
| CreateAdmin.Serve | supabase/functions/create-admin/index.ts:26-32 | Every response carries the constant Allow-Headers value and an Allow-Origin that is the request origin or an allowed entry. |
| CreateAdmin.CallPositions | supabase/functions/create-admin/index.ts:54-103 | In the handler's call order, a user is created exactly when there is a third call, and the role granted exactly when there is a fourth. |
| CreateAdmin.NoUserWithoutAdmin | supabase/functions/create-admin/index.ts:37-91 | A user is created only for a non-OPTIONS request with a parsed body and a `Bearer` header, valid claims and an admin row for the requester, with the email and password requested. |
| CreateAdmin.AdminRoleOnlyForCreatedUser | supabase/functions/create-admin/index.ts:87-103 | The admin role is granted only after a user was created, and only to that user's id. |
| CreateAdmin.RefusalsChangeNothing | supabase/functions/create-admin/index.ts:38-78 | A 401 or 403 answer creates no user and grants no role. |
| CreateAdmin.FailedRoleInsertLeavesUser | supabase/functions/create-admin/index.ts:98-117 | When the role insert fails, the answer is 400 with its message, yet the user was created and no grant succeeded. |
| AdminDashboard.GenerateUniqueFileName | src/pages/AdminDashboard.tsx:146-151 | `${timestamp}-${random}.${extension}`. Its properties are stated by `GeneratedNameParts` (timestamp digits before the first `-`, original extension after the last `.`) and `NameShape`. |
| AdminDashboard.IsImage | src/pages/AdminDashboard.tsx:96 | A file is accepted when its media type starts with `image/`. `HandleFileSelect` and the class invariant `Valid` state its use. |
| AdminDashboard.UploadPath | src/pages/AdminDashboard.tsx:179 | `activities/${fileName}`. `UploadedObjectIsFound` states that the delete handler recovers exactly this key from its public URL. |
| CreateAdmin.AllowedOrigins | supabase/functions/create-admin/index.ts:4-12 | The list `[SUPABASE_URL, production, preview]` after `filter(Boolean)`. Its shape is stated by `AllowedOriginsShape`, and its filtering by `Truthy`. |
| JsString.Join | src/pages/AdminDashboard.tsx:245 | `Array.prototype.join`. `JoinSplit` and `SplitJoin` state that it inverts `split`. |
| JsString.StartsWith | src/pages/AdminDashboard.tsx:96 | `startsWith`, also used at supabase/functions/create-admin/index.ts lines 16 and 39. `SomePrefix`, `AllowOrigin` and `Respond` state the properties that depend on it. |
| JsString.Split | src/pages/AdminDashboard.tsx:242 | A split always has at least one piece. |
| JsString.JoinSplit | src/pages/AdminDashboard.tsx:242-245 | Joining the pieces of a split with the same separator gives back the string. |
| JsString.SplitJoin | src/pages/AdminDashboard.tsx:242-245 | Splitting a join of pieces without the separator gives back the pieces. |
| JsString.SplitAround | src/pages/AdminDashboard.tsx:242 | Splitting `a + sep + b` is splitting `a` followed by splitting `b`. |
| JsString.SplitPiecesLackSeparator | src/pages/AdminDashboard.tsx:149 | No piece of a split contains the separator. |
| JsString.SplitSingleIff | src/pages/AdminDashboard.tsx:149 | A split has one piece exactly when the separator does not occur. |
| JsString.SplitWithoutSeparator | src/pages/AdminDashboard.tsx:149 | Without the separator, the split is the string alone. |
| JsString.LastPieceIsSuffix | src/pages/AdminDashboard.tsx:149 | The last piece of a split (`pop()`) is a suffix of the string that follows the last separator. |
| JsString.FindIndex | src/pages/AdminDashboard.tsx:243 | -1 exactly when the item is absent; otherwise the index of its first occurrence. |
| JsString.IndexOf | supabase/functions/create-admin/index.ts:53 | The first position where the pattern occurs, or -1 when there is none. |
| JsString.ReplaceFirst | supabase/functions/create-admin/index.ts:53 | With no occurrence the string is unchanged. With the pattern as a prefix, only that prefix is replaced. |
| JsString.Trim | src/pages/AdminDashboard.tsx:156 | The result is a middle part of the string with white space on both sides. It starts and ends with a non-white character. |
| JsString.TrimEmptyIff | src/pages/AdminDashboard.tsx:156 | A trimmed string is empty exactly when the string is all white space. |
| JsString.TrimIdempotent | src/pages/AdminDashboard.tsx:192-195 | Trimming twice equals trimming once. |
| JsString.Substring | src/pages/AdminDashboard.tsx:148 | `substring` clamps both ends to the string and swaps them when reversed. Every placement of the two bounds (before the string, inside it, past its end) has its result stated. |
| JsString.NatToDecimal | src/pages/AdminDashboard.tsx:150 | The rendering of a timestamp is a non-empty run of digits that starts with `0` only for zero. |
| JsString.DecimalRoundTrip | src/pages/AdminDashboard.tsx:150 | Reading the rendered digits back gives the number. |

## Left out

- Network and storage calls: `upload`, `getPublicUrl`, `remove`, `insert`,
  `select`, `delete`, `getClaims`, `createUser` and `createClient` are not
  executed. Their replies are parameters and the requests issued are returned
  as a log. `getPublicUrl` is a function parameter `publicUrlOf`. For `remove`
  the parameter says only whether the call resolved or rejected, because the
  page never reads the `{ error }` it resolves with.
- `Date.now()` and `Math.random().toString(36)` are parameters (a `nat` and
  the rendered text). The base-36 rendering of a float is not modelled.
- `new URL(...)` is given as its `pathname` or the message it throws. URL
  parsing and percent-decoding are not modelled.
- `URL.createObjectURL` is a parameter. `confirm` is a boolean parameter.
- Drag highlighting (`isDragging`, src/pages/AdminDashboard.tsx:116-133), the
  `fileInputRef` reset, routing for non-admins, `formatDate`, the
  `console.error` logging (lines 84, 221 and 268) and the JSX are
  presentational.
- `fetchActivities` is modelled only by the reply it receives. The query and its
  server-side ordering belong to the backend.
- Asynchrony: each handler is one atomic step. The `uploading` and `deleting`
  markers are set during the step and cleared at its end. Interleaving of two
  handlers, and a second submit while one is uploading, are not modelled.
- Thrown values without a `message` (`error.message` undefined): an error is
  always a `message` string, and an empty one shows the fallback text.
- CreateAdmin.Authenticate: claims without a `sub` are not modelled. The claims
  reply carries the requester's id or none.
- `Deno.env` and missing environment variables: `SUPABASE_URL` is an
  `Option<string>` parameter, and `createClient` is assumed not to fail.
- The JSON texts of response bodies: a body is the `Json` datatype
  (`{error}` or `{success: true, user_id}`). Header names are the `Header`
  datatype, with `HeaderName` giving their literal text.
- The `email_confirm: true` flag of `createUser` is not recorded in the call log.
- `src/hooks/useAnalytics.ts`, `src/components/admin/AnalyticsDashboard.tsx`
  and the other pages and layout components are presentational or use mock
  data and floating point. A multi-file batch uploader does not exist in the
  source, so it has no model.
- JavaScript string semantics: a `char` is a Unicode scalar value, so the
  UTF-16 code-unit positions of characters outside the Basic Multilingual
  Plane are not modelled. `substring` on such a string (the random token, a
  file name) counts each of them as one position, where JavaScript counts
  two. `trim` uses the ECMAScript white-space and line-terminator set.

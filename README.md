# Fortex opportunity board — verified model

Fortex is a small job and opportunity board. A browser client fetches the
list of opportunities and renders one card per opportunity. For each card it
computes a skill-match score against a fixed mock skill list
(clie/script.js:3), and the score is shown only as a badge, only when it is
above 0. An Express server keeps two
MongoDB collections, opportunities and users. It serves list, create and
delete routes for opportunities and register, login and list routes for
users.

This project models the two pieces that carry logic:

- `client.dfy` (module `Client`) models the pure rules of `clie/script.js`:
  - the match score `calculateMatch`;
  - the badge, description-preview and tag rules of the card template;
  - the search-URL rule.
- `server.dfy` (module `Server`) models the route handlers of
  `serv/serv.js` as methods of a `Store` class. The class holds the two
  collections as sequences of records. The store hands out record ids
  itself. The current time `now` is a parameter of each route that needs it.
- `seqs.dfy` (module `Seqs`) is an order-preserving `Filter` with its
  lemmas. It stands for JavaScript's `filter` and for the match conditions
  of the document-store queries. `wrappers.dfy` holds `Option`.

Points where the code behaves differently from what the routes and names
suggest. The model follows the code in each case:

- `GET /api/opportunities` ignores its `?skill=` query. After the purge it
  returns every record (serv/serv.js:44).
- `calculateMatch([])` is `0/0`, which is NaN in JavaScript, not 0. Only
  `null`/`undefined` scores 0. The model's `Score` has a `NaN` case, and
  `Badge` shows no badge for it.
- The card template slices `skillsRequired` without the null guard that
  the score has (clie/script.js:41). A card for an event with no skills
  list therefore throws, and `RenderCard` returns `None` for it.
- Rounding is to the nearest percent, with halves rounded up. The model
  uses the integer formula `(200·m + n) / (2·n)`, and `Round`'s contract
  states what that number means.
- Delete-by-id succeeds whether or not the id exists.
- Register first checks for an existing email. Otherwise it saves the
  user, and the schema's `required` fields reject an empty email or
  password at that save. The code has no handler for that rejection.
- The routes have no stats counters, no verification codes, no
  get-user-by-email, no account deletion and no cascade delete.

## Model

| member | source | states |
|---|---|---|
| `Client.SearchUrl` | clie/script.js:14 | Every request URL starts with the list endpoint, and a non-empty query ends it, appended unencoded after `?skill=`. |
| `Client.SearchUrlRoundTrip` | clie/script.js:14 | The request is the bare endpoint exactly when the query is empty. A non-empty query is carried verbatim after `?skill=` and can be read back unchanged. Distinct queries give distinct URLs. |
| `Client.CalculateMatch` | clie/script.js:73-77 | An absent skills list scores 0 and an empty list gives NaN. A non-empty list gives a whole percentage between 0 and 100. That percentage is within half a point of 100·(matches/length), with halves rounded up. Matches are counted per occurrence. |
| `Client.Round` | clie/script.js:76 | The result r satisfies n·(2r−1) ≤ 200·m < n·(2r+1). In other words, it is the nearest integer to 100·m/n, with halves rounded up. |
| `Client.RoundUnique` | clie/script.js:76 | Exactly one integer meets that rounding condition, so `Round` is `Math.round(100·m/n)` on exact values. |
| `Client.RoundAtMostHundred` | clie/script.js:75-76 | When the matches are at most the length, the rounded percentage is at most 100. |
| `Client.RoundZeroIff` | clie/script.js:76 | The percentage rounds to 0 exactly when 200·m < n. |
| `Client.MatchesPerOccurrence` | clie/script.js:75 | The filter keeps every occurrence of a skill in `userSkills` and drops every other skill. Matching is exact, by multiset count. |
| `Client.FullMatchScoresHundred` | clie/script.js:75-76 | A non-empty list made only of skills in the mock list scores 100. |
| `Client.NoMatchScoresZero` | clie/script.js:75-76 | A non-empty list with none of the mock list's skills scores 0. |
| `Client.OneOfThreeScores33` | clie/script.js:73-77 | This is seed record "Frontend Intern": one known skill of three scores 33. |
| `Client.TwoOfThreeScores67` | clie/script.js:73-77 | This is seed record "MERN Stack Bootcamp": two known skills of three score 67. |
| `Client.RepeatedSkillScores100` | clie/script.js:75-76 | `["React","React"]` scores 100. Repeats count at each occurrence and the denominator is the list length. |
| `Client.LowerCaseDoesNotMatch` | clie/script.js:75 | `"react"` does not match `"React"`, so it scores 0. |
| `Client.Badge` | clie/script.js:36 | A badge is shown, carrying the score, exactly when the score is a number above 0. A score of 0 or NaN shows none. |
| `Client.BadgeShownIff` | clie/script.js:36 | A card has a badge exactly when its skills list is present and non-empty and 200·matches ≥ length. So a badge implies at least one match. |
| `Client.Preview` | clie/script.js:38 | An absent or empty description gives "No description.". Any other description gives its first min(60, length) characters followed by "...". |
| `Client.Tags` | clie/script.js:41 | The tags are the first min(3, length) skills, in order. |
| `Client.RenderCard` | clie/script.js:33-50 | A card exists exactly when the skills list is present. It keeps the event's type and title. Its badge is `Badge` of the score: shown exactly when the list is non-empty and 200·matches ≥ length, and then a score in 1..100 with some match. Its preview is `Preview` of the description. Its tags are exactly the first min(3, length) skills. |
| `Server.LiveExactly` | serv/serv.js:42 | The purge keeps a record exactly when it is not expired, that is, when it has no deadline or a deadline ≥ now. |
| `Server.PurgeLater` | serv/serv.js:59 | A second purge at the same time removes nothing more. A purge at a later time after an earlier one leaves what one later purge would leave. |
| `Server.PostedByExactly` | serv/serv.js:64 | The owner query returns exactly the records whose `postedBy` equals the email. A record without an owner never matches. |
| `Server.WithoutIdRemovesOnly` | serv/serv.js:97 | With unique ids, deleting an absent id changes nothing. Deleting a present id removes that one record and keeps the rest in order. |
| `Server.AddUserKeepsEmailsUnique` | serv/serv.js:107-110 | Adding a user whose email is not taken keeps emails unique. This is the schema's unique email. |
| `Server.FindUser` | serv/serv.js:116 | The result is a user exactly when some stored user matches both email and password. The user returned is stored and matches both. |
| `Server.FindUserIsTheUser` | serv/serv.js:116 | With unique emails, login with an existing email returns that user when the password matches, and nothing when it does not. |
| `Server.Store.constructor` | serv/serv.js:16-33 | The store starts with both collections empty, and the invariant holds: unique ids, unique non-empty emails, non-empty passwords. |
| `Server.Store.Purge` | serv/serv.js:42 | This is the `deleteMany` both list routes run. The new collection is the old one without the records expired at `now`. No remaining record is expired, every unexpired record is kept, and the users do not change. |
| `Server.Store.ListAll` | serv/serv.js:39-49 | The route purges, then returns every remaining record, with no query filtering. No returned record is expired, and the users do not change. |
| `Server.Store.ListByOwner` | serv/serv.js:53-72 | The route purges. It then returns exactly the old records that are unexpired and posted by exactly that email. |
| `Server.Store.Create` | serv/serv.js:75-92 | The collection grows by exactly one record at the end. That record has a fresh id, the given fields and `createdAt = now`, and existing records are unchanged. |
| `Server.Store.Delete` | serv/serv.js:95-102 | The record with that id is removed if present, and every other record is unchanged and in order. An absent id changes nothing. There is no error outcome. |
| `Server.Store.Register` | serv/serv.js:105-112 | A taken email gives `EmailExists` and no change. An empty email or password gives `ValidationFailed` and no change. Any other call appends exactly one user with the given fields. Emails stay unique. |
| `Server.Store.Login` | serv/serv.js:114-119 | Login succeeds exactly when some user matches both email and password, and returns that user. With unique emails it returns the user with that email. It modifies nothing. |
| `Server.Store.ListUsers` | serv/serv.js:121-124 | The route returns all users and modifies nothing. |

## Left out

- CalculateMatch: computes with exact integers. It does not model the floating point of `(matches / length) * 100` before `Math.round`. At exact halves the two can differ. For example, 57 known skills of 200 is exactly 28.5, which the model rounds to 29, while the floating-point product 28.499999999999996 rounds to 28.
- CalculateMatch: takes a list of strings. JavaScript would also accept non-string elements, and `includes` compares them by `SameValueZero`. That is not modelled.
- Preview: counts Dafny characters, which are Unicode scalar values. `substring` counts UTF-16 code units, so the two differ for characters outside the Basic Multilingual Plane.
- Badge: models whether the badge is shown and which number it carries. The badge text and the HTML markup are not modelled.
- `fetchOpportunities` is not modelled: the `fetch` call, the `allEvents` global, the string concatenation into `grid.innerHTML` and the empty-list and error messages. These are I/O and DOM.
- `viewDetails` and its `localStorage` write, the search click listener and `deleteAccount` are not modelled. They are UI plumbing. The route `deleteAccount` calls does not exist on the server.
- The Express, cors and mongoose setup, `mongoose.connect`, `app.listen` and console logging are not modelled. They are framework and I/O.
- Store faults are not modelled. These are the 500 responses of the try/catch blocks, the ObjectId cast error of an invalid id in the delete route, and date cast errors in create. Ids are natural numbers and deadlines are integer times.
- Register: in the source, the rejected save is an unhandled promise rejection; what the client then sees depends on the Express and Node versions, which the source does not pin. The model reports it as `ValidationFailed` and leaves the store unchanged.
- Login: does not model mongoose dropping `undefined` filter keys or operator objects in the request body. Either would widen the `findOne` query. Email and password are always strings in the model.
- Concurrency between the purge and the find, and races past the unique email index, are not modelled. Every route runs as one sequential step.
- `serv/seed.js` is a one-shot database script and is not modelled. Its sample skill lists appear as examples of the score.

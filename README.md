# Frost Warlord membership portal — a Dafny model

This project models the core of the Frost Warlord e-sport team portal. The
portal has two halves.

The serverless API (`api/*.js`) works over a PostgreSQL database of seven
tables (`drizzle/schema.js`). It covers:

- the account lifecycle: register, verify the email, log in, ask for a reset
  link, reset the password;
- the resource handlers for posts, comments, events, matches, uploads and the
  caller's own profile;
- the chat store behind the socket endpoint.

The React client holds pure logic in its pages and a session store:

- the field rules of the sign-up, sign-in, password and profile forms;
- the submit flow every form page follows;
- the match form's score parsing and result;
- the grouping of matches by month, events by day and members by role;
- the browser session store in `AuthProvider.jsx`, kept in `localStorage`.

## How it is modelled

- **The database** is the class `Store.Db`. It holds one sequence per table
  and a counter that hands out fresh row ids. `Db.Valid()` says:
  - in every table the row ids are unique and below the counter;
  - emails are unique and lower-case, and slugs are unique;
  - every foreign key names an existing row.

  `Schema` states the row types, the column defaults of an insert, and the
  cascading deletes. It proves that every operation keeps the constraints.
- **Each handler** is two members:
  - a pure `Handle` function from the old tables and the request to a `Step`
    (the new tables and the HTTP reply);
  - a `HandleOn` method that runs the same steps against a `Db` in place.
    Its postcondition is that the new database state and the reply are
    exactly what `Handle` gives for the old state.

  Lemmas state what the source promises about `Handle`: error ordering,
  single-use tokens, expiry, uniform answers, constraints kept, and what a
  later request sees.
- **External collaborators** are inputs:
  - the identity provider is a function from the bearer token to a user or a
    rejection (`ApiUtils.Provider`);
  - SHA-256 is a function from text to bytes (`ApiUtils.Sha256`);
  - the bytes `crypto.randomBytes` draws are a parameter;
  - whether the mail service accepted a mail is a `bool`;
  - the row id a new row gets comes from the counter;
  - `now` is an integer number of milliseconds.
- **Client pages**:
  - Each page is a pure `Check` of its form (the message under each field)
    plus methods `OnSubmit` and `Settle`.
  - These methods drive the shared `Submission.SubmitState` class, whose
    fields are `isSubmitting`, the error shown and the success flag.
  - The dates the pages read are inputs: a `Calendar` for year and month, a
    `DateReader` for `new Date(text)`, and a `DayLabel` for the day heading.
- **The session store** is the class `AuthProvider.Session`. Its fields are the
  `localStorage` map, the user, the error and the loading flag.
  - A server answer is an `Answer`: accepted, refused with an optional error,
    or thrown.
  - `JSON.stringify` and `JSON.parse` are parameters.

## Model

| member | source | states |
|---|---|---|
| Schema.NewUser | drizzle/schema.js:3-19 | a user inserted without the defaulted columns is unverified, not an admin, without picture or reset token, created and updated now |
| Schema.NewPost | drizzle/schema.js:21-32 | a new post is published with zero views, created and updated now |
| Schema.NewComment | drizzle/schema.js:34-41 | a new comment is created and updated now |
| Schema.NewEvent | drizzle/schema.js:43-54 | a new event is public unless `isPublic` is given as false |
| Schema.NewMessage | drizzle/schema.js:56-62 | a new message is unread and created now |
| Schema.NewUpload | drizzle/schema.js:64-74 | a new upload is created now |
| Schema.NewMatch | drizzle/schema.js:76-86 | a new match record is created now |
| Schema.SameUserKeysValid | drizzle/schema.js:4-7 | rewriting user rows in place without changing ids or emails keeps every constraint |
| Schema.SamePostKeysValid | drizzle/schema.js:22-31 | rewriting post rows without changing ids, slugs or authors keeps every constraint |
| Schema.InsertUserValid | drizzle/schema.js:4-7 | appending a user with a fresh id and an unused lower-case email keeps every constraint, email uniqueness included |
| Schema.InsertPostValid | drizzle/schema.js:22-31 | appending a post with a fresh id, an unused slug and an existing author keeps every constraint, slug uniqueness included |
| Schema.DeleteUser | drizzle/schema.js:26 | deleting a user removes every post, comment, event, message, upload and match that names them, plus the comments on their posts; every remaining row was in the old table, and every other row is kept |
| Schema.DeletePost | drizzle/schema.js:37 | deleting a post removes its comments and nothing else |
| Schema.KeptUserResolves | drizzle/schema.js:26 | a user other than the deleted one is still there |
| Schema.DeleteUserUserRefs1 | drizzle/schema.js:26 | after a user deletion the remaining posts and comments still name existing users |
| Schema.DeleteUserUserRefs2 | drizzle/schema.js:49 | after a user deletion the remaining events and messages still name existing users |
| Schema.DeleteUserUserRefs3 | drizzle/schema.js:70 | after a user deletion the remaining uploads and matches still name existing users |
| Schema.DeleteUserPostRefs | drizzle/schema.js:37-38 | after a user deletion every remaining comment's post remains too |
| Schema.DeleteUserValid | drizzle/schema.js:78-85 | a cascading user deletion leaves a database satisfying every constraint |
| Schema.DeletePostValid | drizzle/schema.js:37 | a cascading post deletion leaves a database satisfying every constraint |
| Store.Db.constructor | drizzle/schema.js:3-86 | the empty database satisfies every constraint |
| Store.FreshId | drizzle/schema.js:4-77 | the id the counter hands out is used by no row of any of the seven tables |
| Store.FindUserByEmail | api/login.js:24-32 | the first user row whose email is the given one, or none exactly when no row has it |
| Store.FindUserById | api/profile.js:15-26 | the first user row with the given id, or none exactly when no row has it |
| Store.FindPostBySlug | api/posts.js:15-21 | the first post with the given slug, or none exactly when no post has it |
| Store.FoundUserIsUnique | drizzle/schema.js:7 | with unique emails the row found is the only row with that email |
| Common.OrNull | api/matches.js:32 | `field \|\| null` on a string is null exactly when the field is absent or empty, otherwise the field |
| Common.NumberOrNull | api/matches.js:33-34 | `field \|\| null` on a number is null exactly when the field is absent or zero |
| Text.Lower | api/register.js:23 | `toLowerCase` keeps the length and lower-cases each ASCII letter |
| Text.LowerIsLowerCase | api/register.js:41 | a lower-cased email has no upper-case letter, so stored emails are lower-case |
| Text.LowerIdempotent | api/login.js:26 | lower-casing twice is lower-casing once |
| Text.Trim | api/socket.js:88 | `trim` returns a slice of the text whose cut-off ends are all white space and which itself neither starts nor ends with white space |
| Text.TrimEmptyIffBlank | api/socket.js:88 | `content.trim() === ''` exactly when the content is white space only |
| Text.Split | api/_apiUtils.js:38 | `split` gives at least one piece and no piece holds the separator |
| Text.JoinSplit | api/_apiUtils.js:38 | joining the pieces of a split gives the text back |
| Text.SplitJoin | api/_apiUtils.js:38 | splitting separator-free pieces after joining them gives the pieces back |
| Text.ParseShowInt | src/modules/dashboard/pages/MatchesPage.jsx:57-58 | `parseInt(text, 10)` reads back any integer written in decimal, whatever non-digit text follows |
| Text.ParseWithoutDigits | src/modules/dashboard/pages/MatchesPage.jsx:57-58 | text that does not start with a sign, white space or a digit parses to NaN |
| Seqs.FirstIndex | api/login.js:32 | `rows[0]`: the first position satisfying the condition, none before it; none exactly when no position does |
| Seqs.Where | api/posts.js:32-35 | a filter keeps exactly the elements satisfying the condition, each as often as in the input |
| Seqs.WhereInOrder | api/posts.js:32-35 | the kept elements sit at strictly increasing input positions, and every position satisfying the condition is among them: the filter keeps input order |
| Seqs.WhereIsSelectKey | src/modules/dashboard/pages/TeamsPage.jsx:56 | filtering by a condition is selecting the elements whose key `condition` is true |
| Seqs.SortBy | api/posts.js:35 | `ORDER BY` gives a permutation of the rows, sorted by the key |
| Seqs.SortStable | src/modules/dashboard/pages/MatchesPage.jsx:133-135 | the sort is stable: rows with equal keys keep their order |
| Seqs.SortedPrefixSmallest | api/socket.js:71-74 | `ORDER BY … LIMIT n` takes the n smallest rows; they and the rest make up the table |
| Seqs.GroupBy | src/modules/dashboard/pages/SchedulePage.jsx:93-107 | the `reduce` into a dictionary of arrays yields the keys in first-seen order and, for each key, its elements in input order |
| Seqs.SelectKeyMembers | src/modules/dashboard/pages/TeamsPage.jsx:56 | the `filter` by role keeps every element with that role and nothing else |
| Seqs.GroupMapAt | src/modules/dashboard/pages/SchedulePage.jsx:101-105 | the dictionary has exactly the keys seen, each mapped to the elements with that key in input order |
| Seqs.GroupsTotal | src/modules/dashboard/pages/MatchesPage.jsx:112-130 | the groups' lengths add up to the number of elements whose key is listed |
| Seqs.GroupSizesSum | src/modules/dashboard/pages/MatchesPage.jsx:112-130 | grouping by every key seen accounts for every element once |
| Seqs.DistinctKeysFirstOccurrence | src/modules/dashboard/pages/SchedulePage.jsx:281 | an earlier key first occurs before any element of a later key |
| ApiUtils.BearerTokenOf | api/_apiUtils.js:38 | the token passed to the provider is the second space-separated field of `scheme token` |
| ApiUtils.BearerTokenNoSpace | api/_apiUtils.js:38 | a header without a space passes no token |
| ApiUtils.Authenticate | api/_apiUtils.js:31-52 | a missing or empty header fails with 'Missing Authorization header' before the provider is asked; a provider error gives 'Invalid token'; otherwise the provider's user |
| ApiUtils.HexEncode | api/_apiUtils.js:56 | hex output has two lower-case hex digits per byte |
| ApiUtils.HexRoundTrip | api/_apiUtils.js:56 | decoding the hex of some bytes gives the bytes back |
| ApiUtils.HexDecodeEncode | api/_apiUtils.js:84 | a string that decodes is the hex of what it decodes to |
| ApiUtils.HexInjective | api/_apiUtils.js:55-57 | different random bytes give different tokens |
| ApiUtils.GenerateToken | api/_apiUtils.js:55-57 | a token is 2n lower-case hex characters for n random bytes and decodes back to them |
| ApiUtils.DefaultTokenLength | api/_apiUtils.js:55-56 | the default 32 random bytes give a non-empty token of 64 hex characters |
| ApiUtils.HashPassword | api/_apiUtils.js:83-85 | the hash is the hex of the password's digest, two characters per digest byte |
| ApiUtils.VerifyPassword | api/_apiUtils.js:87-90 | a password verifies exactly when its hash equals the stored one, equivalently when the stored hex decodes to its digest |
| ApiUtils.VerifyHashed | api/_apiUtils.js:83-90 | a stored hash accepts the password it was made from and refuses any password with another digest |
| Register.Handle | api/register.js:8-80 | in this order: non-POST is 405, a missing field is 400, an email already stored (lower-cased) is 400 'Email already registered', each without change. Otherwise exactly one user is appended: lower-cased email, hashed password, unverified, a 64-character token from 32 random bytes valid 24 hours. The reply is 201, or 500 when the mail fails, with the row kept |
| Register.HandleKeepsValid | api/register.js:37-47 | registration keeps every database constraint |
| Register.StoresHashNotPassword | api/register.js:35-42 | the stored hash is never the plaintext password, unless the plaintext is the hex of its own digest |
| Register.HandleOn | api/register.js:8-80 | the handler on the database in place ends in the state and reply `Register.Handle` gives, and keeps the constraints |
| Store.FindByToken | api/verify.js:22-29 | the first user holding the token in the given columns with `now` before its expiry; none exactly when no user does |
| Verify.MarkVerified | api/verify.js:36-42 | verifying sets `isVerified` and clears token and expiry, leaving every other column as it was |
| Verify.Handle | api/verify.js:8-46 | non-POST is 405 and a missing token 400. Success holds exactly when some user holds the unexpired token, and then only that row is marked verified; otherwise 400 and nothing changes |
| Verify.HandleKeepsValid | api/verify.js:36-42 | verification keeps every database constraint |
| Verify.ReplayRejected | api/verify.js:39-40 | a consumed verification token is refused at any later time, without change |
| Verify.ExpiredRejected | api/verify.js:27 | a token whose holders have all expired (now ≥ expiry) is refused, without change |
| Verify.HandleOn | api/verify.js:8-46 | the handler in place ends in the state and reply `Verify.Handle` gives |
| Login.Handle | api/login.js:11-74 | non-POST is 405 and a missing field 400. A 401 is always 'Invalid email or password' or the unverified message. Success needs a verified account under the lower-cased email and a matching password; it returns id, name, email, role, isAdmin and picture only, and the provider's session. Nothing is written |
| Login.UnknownEmailLikeWrongPassword | api/login.js:28-30 | an unknown email gets 401 'Invalid email or password' |
| Login.UnverifiedBeforePassword | api/login.js:35-37 | an unverified account gets the unverified message for every password, right or wrong |
| Login.SucceedsIffPassword | api/login.js:39-74 | for a verified account, login succeeds exactly when the password verifies, and otherwise fails with the same message as an unknown email |
| Login.CaseInsensitive | api/login.js:26 | two spellings of an email that lower-case alike get the same answer |
| ForgotPassword.InstallResetToken | api/forgot-password.js:37-42 | the reset token and expiry are replaced and nothing else in the row changes |
| ForgotPassword.Handle | api/forgot-password.js:8-70 | non-POST is 405 and a missing email 400. An unknown email is 200 with the standard message and no change. A known email gets a fresh 64-character reset token expiring in one hour on its row alone, then 200 with the same message, or 500 if the mail fails |
| ForgotPassword.AnswerIsUniform | api/forgot-password.js:24-27 | when the mail goes out, any two emails get the same answer, registered or not |
| ForgotPassword.HandleKeepsValid | api/forgot-password.js:37-42 | the request keeps every database constraint |
| ForgotPassword.HandleOn | api/forgot-password.js:8-70 | the handler in place ends in the state and reply `ForgotPassword.Handle` gives |
| ResetPassword.ApplyReset | api/reset-password.js:38-44 | the new hash is stored and the reset token and expiry are cleared; verification columns untouched |
| ResetPassword.Handle | api/reset-password.js:8-48 | non-POST is 405 and a missing token or password 400. Success holds exactly when some user holds the unexpired reset token, and then only that row gets the new hash; otherwise 400 and no change |
| ResetPassword.HandleKeepsValid | api/reset-password.js:38-44 | a reset keeps every database constraint |
| ResetPassword.NewPasswordVerifies | api/reset-password.js:36-44 | after a reset the new password verifies against the stored hash, and the verification state is unchanged |
| ResetPassword.ReplayRejected | api/reset-password.js:41-42 | a consumed reset token is refused afterwards, without change |
| ResetPassword.HandleOn | api/reset-password.js:8-48 | the handler in place ends in the state and reply `ResetPassword.Handle` gives |
| Accounts.NoLoginBeforeVerification | api/login.js:35-37 | right after registering, the new credentials are refused as unverified, whatever the mail service did |
| Accounts.VerifyThenLogin | api/verify.js:22-46 | registering, then verifying within 24 hours with the mailed token, succeeds; then the registered credentials log in |
| Accounts.ForgotThenReset | api/reset-password.js:22-48 | a reset token used within the hour resets the password, and a verified member then logs in with the new one |
| Accounts.SecondRequestReplacesFirst | api/forgot-password.js:37-42 | after a second reset request the first token resets nothing |
| Profile.ApplyEdit | api/profile.js:43-51 | PUT sets name, phone, role, picture (empty becomes null) and `updatedAt`, and leaves every other column, the email included |
| Profile.Handle | api/profile.js:10-71 | authentication comes first: 401 for any method. GET returns the caller's projected row, or 404. PUT with a missing field is 400. A complete PUT rewrites the caller's row alone and returns it. Any other method is 405 |
| Profile.HandleKeepsValid | api/profile.js:43-51 | a profile edit keeps every database constraint |
| Profile.EditThenShow | api/profile.js:15-61 | after a PUT, the next GET shows the edited fields and the email the account had |
| Profile.HandleOn | api/profile.js:10-71 | the handler in place ends in the state and reply `Profile.Handle` gives |
| Posts.Listing | api/posts.js:32-35 | the listing is a permutation of the published posts, newest first |
| Posts.CountView | api/posts.js:24-26 | a read adds exactly one view and changes nothing else |
| Posts.Handle | api/posts.js:8-84 | GET without slug lists. GET by slug is 404 when unknown; otherwise it returns the row as read and stores one more view. POST authenticates first (401), then needs title, content and slug (400), then a free slug (400). A complete POST with a free slug changes the tables exactly when the caller's row exists: one post by the caller is appended (201); without the row it is 500 and nothing changes. Other methods are 405 |
| Posts.DraftsReadableBySlug | api/posts.js:15-17 | a read by slug serves unpublished posts too |
| Posts.HandleKeepsValid | api/posts.js:24-26 | every request keeps the constraints, slug uniqueness included |
| Posts.HandleOn | api/posts.js:8-84 | the handler in place ends in the state and reply `Posts.Handle` gives |
| Comments.JoinAuthors | api/comments.js:29 | the inner join holds exactly the comments whose author exists, each with that author |
| Comments.Listing | api/comments.js:18-31 | the listing is a permutation of the joined comments of the given post, so it holds that post's comments only, each once, oldest first |
| Comments.ListingCount | api/comments.js:18-31 | with the foreign keys in place the listing has exactly one row per comment on the post |
| Comments.ListingSound | api/comments.js:18-31 | every listed row is the join of a comment on the post with its author |
| Comments.ListingComplete | api/comments.js:29-30 | every comment on the post whose author exists is listed |
| Comments.ListingHasEveryComment | api/comments.js:29-30 | with the foreign keys in place no comment on the post is missing |
| Comments.Handle | api/comments.js:8-80 | GET without postId is 400. POST authenticates first (401), then needs postId and content (400), then, when the post and the caller's row exist, always appends one comment by the caller and returns it with the caller's name and picture (201); a missing caller row is 500 with no change. Other methods are 405 |
| Comments.PostedCommentListed | api/comments.js:46-70 | a posted comment shows up in its post's listing |
| Comments.HandleKeepsValid | api/comments.js:46-52 | with a fresh comment id every request keeps the constraints, comment-id uniqueness included |
| Comments.HandleOn | api/comments.js:8-80 | the handler in place ends in the state and reply `Comments.Handle` gives |
| Events.Listing | api/events.js:11-15 | the listing is a permutation of the events starting at or after now, public or not, each once, soonest first |
| Events.PublicFlag | api/events.js:38 | `isPublic ?? true` is false only for an explicit false |
| Events.Handle | api/events.js:8-52 | GET lists. POST authenticates first (401), then needs title, both times and type (400), then, exactly when the caller's row exists, appends one event created by the caller, in any time order (201); otherwise 500 and no change. Other methods are 405 |
| Events.CreatedEventListed | api/events.js:30-40 | an event created with a start still ahead is in the listing until it starts |
| Events.HandleKeepsValid | api/events.js:30-40 | with a fresh event id every request keeps the constraints, event-id uniqueness included |
| Events.HandleOn | api/events.js:8-52 | the handler in place ends in the state and reply `Events.Handle` gives |
| Matches.Listing | api/matches.js:11-13 | the listing is a permutation of all matches, latest first |
| Matches.Record | api/matches.js:28-38 | the inserted row normalises falsy result, scores and notes to null and is recorded by the caller; no result is derived from the scores |
| Matches.ZeroScoreStoredAsNull | api/matches.js:33-34 | a score of 0 is stored as null, the same as no score, and an empty result as null |
| Matches.Handle | api/matches.js:8-50 | GET lists. POST authenticates first (401), then needs opponent and date (400), then, exactly when the caller's row exists, appends one record (201); otherwise 500 and no change. Other methods are 405 |
| Matches.HandleKeepsValid | api/matches.js:28-38 | with a fresh match id every request keeps the constraints, match-id uniqueness included |
| Matches.HandleOn | api/matches.js:8-50 | the handler in place ends in the state and reply `Matches.Handle` gives |
| Uploads.Listing | api/uploads.js:11-13 | the listing is a permutation of all uploads, newest first |
| Uploads.Handle | api/uploads.js:8-50 | GET lists. POST authenticates first (401), then needs title, file URL, type and a non-zero size (400), then, exactly when the caller's row exists, appends one upload by the caller (201); otherwise 500 and no change. Other methods are 405 |
| Uploads.HandleKeepsValid | api/uploads.js:28-38 | with a fresh upload id every request keeps the constraints, upload-id uniqueness included |
| Uploads.HandleOn | api/uploads.js:8-50 | the handler in place ends in the state and reply `Uploads.Handle` gives |
| Chat.HttpServer.constructor | api/socket.js:6 | a server starts without a socket server |
| Chat.HttpServer.Attach | api/socket.js:10-21 | set-up is idempotent: an existing socket server is kept, otherwise one is made on `/api/socket` |
| Chat.Handshake | api/socket.js:24-51 | no token gives 'Authentication token is missing'; a token the provider refuses gives 'Authentication failed' and one it accepts succeeds, as the provider's user for `Bearer token` |
| Chat.HandshakeAsksProvider | api/socket.js:32-40 | a token without spaces reaches the provider unchanged: the handshake succeeds exactly when the provider accepts it |
| Chat.Send | api/socket.js:84-112 | missing, non-string or blank content is dropped: no insert, no broadcast, no error. The tables change exactly when the content is sendable and the connection's user exists, and then exactly one message by that user is appended and broadcast to `main` with the stored id, content and time. A failed insert sends an error to the sender alone |
| Chat.ContentStoredUntrimmed | api/socket.js:93-98 | content is stored with its surrounding white space; white space alone is dropped |
| Chat.SendKeepsValid | api/socket.js:93-98 | with a fresh message id sending keeps every database constraint, message-id uniqueness included |
| Chat.HistoryWindow | api/socket.js:71-74 | the history is at most 50 messages, oldest first, taken from the table |
| Chat.WindowHoldsOldest | api/socket.js:71-74 | a message left out of the history is at least as new as every message in it |
| Chat.Connection.constructor | api/socket.js:53 | a new connection has no user and no rooms |
| Chat.Connection.Authenticate | api/socket.js:24-51 | the handshake sets the connection's user on success and refuses with its message otherwise |
| Chat.Connection.Connect | api/socket.js:53-66 | a connection joins `main` and gets exactly one welcome with id 'system', to itself alone |
| Chat.Connection.LoadMessages | api/socket.js:69-76 | `load_messages` sends the history window to this socket only |
| Chat.Connection.SendMessage | api/socket.js:84-112 | `send_message` changes the database and delivers exactly what `Chat.Send` gives |
| FormRules.MatchesEmail | src/modules/auth/pages/RegisterPage.jsx:116-122 | the matcher accepts exactly the addresses of the pattern's language: a local part over letters, digits and `._%+-`, '@', a domain over letters, digits, `.` and `-`, '.', and at least two letters |
| FormRules.EmailMatcherSound | src/modules/auth/pages/RegisterPage.jsx:119 | with the first '@' and the last '.' after it, the matcher's test is the existence of a split |
| FormRules.EmailNeedsDot | src/modules/auth/pages/RegisterPage.jsx:119 | an address with no '.' after its '@' is refused |
| FormRules.AtIsFirst | src/modules/auth/pages/RegisterPage.jsx:119 | in an accepted address the '@' is the first one |
| FormRules.PhoneDigits | src/modules/auth/pages/RegisterPage.jsx:102 | the digits after one of the prefixes '+62', '62', '0' |
| FormRules.MatchesPhone | src/modules/auth/pages/RegisterPage.jsx:99-105 | accepted exactly when a prefix '+62', '62' or '0' is followed by 8 to 15 ASCII digits and nothing else |
| FormRules.NameError | src/modules/auth/pages/RegisterPage.jsx:85-88 | no message exactly when the name has at least 3 characters |
| FormRules.PhoneError | src/modules/auth/pages/RegisterPage.jsx:99-105 | no message exactly when the phone has the pattern's shape; empty gives the required message |
| FormRules.EmailError | src/modules/auth/pages/RegisterPage.jsx:116-122 | no message exactly when the email has the pattern's shape; empty gives the required message |
| FormRules.NewPasswordError | src/modules/auth/pages/RegisterPage.jsx:133-140 | no message exactly when the password has 8 characters including a lower-case letter, an upper-case letter and a digit; a short one gets the length message |
| FormRules.PasswordPresentError | src/modules/auth/pages/LoginPage.jsx:94-96 | no message exactly when a password is given |
| FormRules.ConfirmError | src/modules/auth/pages/RegisterPage.jsx:151-154 | no message exactly when the confirmation is given and equals the password |
| FormRules.RoleError | src/modules/auth/pages/RegisterPage.jsx:164 | no message exactly when a role is chosen |
| FormRules.AcceptedFieldsPresent | src/modules/auth/pages/RegisterPage.jsx:99-122 | an accepted phone has at least 9 characters and an accepted email at least 6 |
| FormRules.PhoneLengthEdge | src/modules/auth/pages/RegisterPage.jsx:102 | '0' and 8 digits is accepted and '0' and 7 digits is not |
| FormRules.PhoneSeparatorRejected | src/modules/auth/pages/RegisterPage.jsx:102 | a separator after the country code is refused |
| FormRules.EmailExamples | src/modules/auth/pages/RegisterPage.jsx:119 | 'a@b.co' is accepted; a one-letter top-level part and an empty local part are not |
| FormRules.PasswordExamples | src/modules/auth/pages/RegisterPage.jsx:137 | 'Passw0rd' is strong and 'password1' is not |
| RegisterPage.AcceptedExactly | src/modules/auth/pages/RegisterPage.jsx:85-164 | the sign-up form is sent exactly when name, phone, email, password strength, confirmation and role all pass |
| RegisterPage.AcceptedFormComplete | src/modules/auth/pages/RegisterPage.jsx:32 | a form the page sends never meets the server's missing-field refusal |
| RegisterPage.OnSubmit | src/modules/auth/pages/RegisterPage.jsx:25-32 | a form with a failing rule, or a submit while one is in flight, sends nothing and changes nothing; otherwise the request carries the form's fields and the page is submitting with no error |
| RegisterPage.Settle | src/modules/auth/pages/RegisterPage.jsx:33-43 | success shows the success view and leads to `/login` with `fromRegister`; failure shows the thrown message |
| RegisterPage.SignUpLeadsToNotice | src/modules/auth/pages/LoginPage.jsx:16-22 | the sign-in page reached after signing up shows the notice and later sends on to `/dashboard` |
| LoginPage.Target | src/modules/auth/pages/LoginPage.jsx:16 | the target is the path the member came from when there is one, otherwise `/dashboard` |
| LoginPage.Notice | src/modules/auth/pages/LoginPage.jsx:18-23 | the registration notice shows exactly when the state says `fromRegister` |
| LoginPage.EntryRedirect | src/modules/auth/pages/LoginPage.jsx:25-30 | a signed-in member is sent to the target at once, and only then |
| LoginPage.Check | src/modules/auth/pages/LoginPage.jsx:72-96 | the email must have the address shape and the password only has to be given |
| LoginPage.WeakPasswordAccepted | src/modules/auth/pages/LoginPage.jsx:94-96 | a weak password does not stop a sign-in |
| LoginPage.OnSubmit | src/modules/auth/pages/LoginPage.jsx:32-39 | an invalid form, or a submit while one is in flight, sends nothing and changes nothing; otherwise the credentials are sent with the error cleared |
| LoginPage.Settle | src/modules/auth/pages/LoginPage.jsx:38-46 | success navigates to the target; failure shows the thrown message and stays |
| ForgotPasswordPage.Check | src/modules/auth/pages/ForgotPasswordPage.jsx:73-79 | no message exactly when the email has the address shape; empty gives the required message |
| ForgotPasswordPage.OnSubmit | src/modules/auth/pages/ForgotPasswordPage.jsx:14-21 | a malformed email, or a submit while one is in flight, sends nothing and changes nothing; otherwise the email is sent |
| ForgotPasswordPage.Settle | src/modules/auth/pages/ForgotPasswordPage.jsx:20-27 | success only once the call resolves; a failure shows the thrown message and success stays as it was |
| ResetPasswordPage.Check | src/modules/auth/pages/ResetPasswordPage.jsx:102-123 | the new password has the sign-up strength rule, and the confirmation must be given and equal it |
| ResetPasswordPage.OnSubmit | src/modules/auth/pages/ResetPasswordPage.jsx:19-31 | an invalid form or a submit in flight does nothing; without a token the page shows 'Token reset password tidak ditemukan' and sends nothing; otherwise the token and password are sent |
| ResetPasswordPage.SentRequestComplete | src/modules/auth/pages/ResetPasswordPage.jsx:31 | a sent request never meets the server's missing-field refusal |
| ResetPasswordPage.Settle | src/modules/auth/pages/ResetPasswordPage.jsx:30-40 | success only once the call resolves, then on to `/login`; a failure shows the thrown message |
| ProfilePage.FieldText | src/modules/dashboard/pages/ProfilePage.jsx:21-26 | an input shows the field's text, or nothing when the field is missing |
| ProfilePage.Prefill | src/modules/dashboard/pages/ProfilePage.jsx:20-27 | the form is filled from the user's name, phone, role and picture, a missing picture as '' |
| ProfilePage.Check | src/modules/dashboard/pages/ProfilePage.jsx:89-131 | name needs 3 characters, phone the +62/62/0 pattern, role a value |
| ProfilePage.SignInUserHasNoPhone | src/modules/dashboard/pages/ProfilePage.jsx:23 | a user record from a sign-in has no phone, so the prefilled form fails the phone rule |
| ProfilePage.UpdatedUserHasPhone | src/modules/dashboard/pages/ProfilePage.jsx:23 | after a profile update is merged into the session the phone is prefilled |
| ProfilePage.AcceptedFormSaved | src/modules/dashboard/pages/ProfilePage.jsx:117-121 | an accepted form passes the server's field check, keeps the stored email, and an empty picture is stored as null |
| ProfilePage.OnSubmit | src/modules/dashboard/pages/ProfilePage.jsx:29-36 | an invalid form or a submit in flight does nothing; otherwise name, phone, role and picture are sent, never the email |
| ProfilePage.FailureText | src/modules/dashboard/pages/ProfilePage.jsx:47 | a failure shows the thrown message, or the page's own when that is empty |
| ProfilePage.Settle | src/modules/dashboard/pages/ProfilePage.jsx:36-52 | success shows the success message; a failure shows the failure text |
| ProfilePage.RefusalShowsItsOwnMessage | src/modules/dashboard/pages/ProfilePage.jsx:47 | after a refused update the page shows the session's message, never its own fallback |
| MatchesPage.DerivedResult | src/modules/dashboard/pages/MatchesPage.jsx:62-70 | win exactly when both scores are numbers and ours is greater, loss exactly when smaller, draw otherwise (a NaN score included) |
| MatchesPage.Check | src/modules/dashboard/pages/MatchesPage.jsx:190-205 | opponent and match date are required, each with its own message; no message exactly when the field is filled |
| MatchesPage.SentMatchComplete | src/modules/dashboard/pages/MatchesPage.jsx:52-70 | a form that passes the rules yields a payload the server's field check accepts |
| MatchesPage.Prepare | src/modules/dashboard/pages/MatchesPage.jsx:52-70 | the chosen date is sent; an empty score is null and a typed one parsed; a result is derived exactly when both scores were typed |
| MatchesPage.JsonNumber | src/modules/dashboard/pages/MatchesPage.jsx:78 | `JSON.stringify` sends a NaN score as null |
| MatchesPage.ScoreRoundTrip | src/modules/dashboard/pages/MatchesPage.jsx:57-58 | a score typed as a number is read back as that number |
| MatchesPage.ScoresDecideResult | src/modules/dashboard/pages/MatchesPage.jsx:62-70 | two typed scores give win, loss or draw as their comparison says |
| MatchesPage.GoallessDrawStoredWithoutScores | src/modules/dashboard/pages/MatchesPage.jsx:57-70 | a 0–0 match is sent as a draw and stored with both scores null |
| MatchesPage.UnreadableScoreIsDraw | src/modules/dashboard/pages/MatchesPage.jsx:57-70 | a score that is not a number is sent as null and the result is a draw |
| MatchesPage.OnSubmit | src/modules/dashboard/pages/MatchesPage.jsx:40-59 | a form failing a required rule, or a submit in flight, does nothing; a missing token shows the failure and sends nothing; otherwise the prepared match is sent |
| MatchesPage.Settle | src/modules/dashboard/pages/MatchesPage.jsx:81-95 | success closes the form; any failure shows the generic failure message |
| MatchesPage.YearsDecrease | src/modules/dashboard/pages/MatchesPage.jsx:107-109 | the years strictly decrease: latest first, none twice |
| MatchesPage.YearsListed | src/modules/dashboard/pages/MatchesPage.jsx:107-108 | a year is listed exactly when some match falls in it |
| MatchesPage.GroupsForAt | src/modules/dashboard/pages/MatchesPage.jsx:112-135 | the i-th group built is the group of the i-th month |
| MatchesPage.ListedGroup | src/modules/dashboard/pages/MatchesPage.jsx:112-141 | each listed group is the group of a month that has matches |
| MatchesPage.GroupMonthsDistinct | src/modules/dashboard/pages/MatchesPage.jsx:117-126 | no two groups are for the same month |
| MatchesPage.GroupsLatestFirst | src/modules/dashboard/pages/MatchesPage.jsx:138-141 | groups run by year descending, then month descending |
| MatchesPage.EveryMatchInItsGroup | src/modules/dashboard/pages/MatchesPage.jsx:112-130 | every match is in the group of its own month and in no other |
| MatchesPage.GroupMatchesLatestFirst | src/modules/dashboard/pages/MatchesPage.jsx:133-135 | a group holds exactly its month's matches, latest first |
| MatchesPage.GroupSizesAddUp | src/modules/dashboard/pages/MatchesPage.jsx:112-130 | the group sizes add up to the number of matches |
| MatchesPage.GroupByMonth | src/modules/dashboard/pages/MatchesPage.jsx:112-141 | the `reduce`, the in-group sort and the group sort together give the sorted groups |
| SchedulePage.Check | src/modules/dashboard/pages/SchedulePage.jsx:156-216 | title, type, date, start and end time are required, each with its own message; no message exactly when the field is filled |
| SchedulePage.SentEventComplete | src/modules/dashboard/pages/SchedulePage.jsx:52-65 | a form that passes the rules and whose times read as dates yields a payload the server's field check accepts |
| SchedulePage.Prepare | src/modules/dashboard/pages/SchedulePage.jsx:52-56 | both instants come from the one date with each time field; the payload exists exactly when both texts are dates |
| SchedulePage.WireAccepted | src/modules/dashboard/pages/SchedulePage.jsx:52-65 | the server takes the event exactly when title and type are given, and keeps the checkbox, unticked included |
| SchedulePage.SameTimesSameInstant | src/modules/dashboard/pages/SchedulePage.jsx:54-55 | the same time typed twice gives an event that ends as it starts |
| SchedulePage.OnSubmit | src/modules/dashboard/pages/SchedulePage.jsx:40-56 | a form failing a required rule, or a submit in flight, does nothing; a missing token or an invalid date shows the failure and sends nothing; otherwise the prepared event is sent |
| SchedulePage.Settle | src/modules/dashboard/pages/SchedulePage.jsx:67-81 | success closes the form; any failure shows the generic failure message |
| SchedulePage.EventsByDate | src/modules/dashboard/pages/SchedulePage.jsx:93-107 | the `reduce` and `Object.entries` give one group per day in first-seen order |
| SchedulePage.EveryEventUnderItsDay | src/modules/dashboard/pages/SchedulePage.jsx:93-107 | every event is under its own start day and under no other |
| SchedulePage.DaysDistinct | src/modules/dashboard/pages/SchedulePage.jsx:101-103 | no day heading appears twice |
| SchedulePage.DayKeepsInputOrder | src/modules/dashboard/pages/SchedulePage.jsx:101-106 | a day's events are that day's events in input order |
| SchedulePage.DaysInFirstOccurrenceOrder | src/modules/dashboard/pages/SchedulePage.jsx:281 | an event of an earlier day comes before every event of a later day |
| SchedulePage.DayGroupsAddUp | src/modules/dashboard/pages/SchedulePage.jsx:93-107 | the day groups hold every event once |
| SchedulePage.TypeLabel | src/modules/dashboard/pages/SchedulePage.jsx:312-315 | training is Latihan, tournament Turnamen, meeting Rapat, anything else Lainnya, each an if-and-only-if |
| TeamsPage.RolesDistinct | src/modules/dashboard/pages/TeamsPage.jsx:12 | the five roles are distinct |
| TeamsPage.GroupsByRole | src/modules/dashboard/pages/TeamsPage.jsx:54-57 | five groups, in the order Tank, Marksman, Mage, Assassin, Support, each holding exactly the members with its role |
| TeamsPage.RoleKeepsInputOrder | src/modules/dashboard/pages/TeamsPage.jsx:56 | within a role the members keep their order in the list |
| TeamsPage.EachMemberPlacedOnce | src/modules/dashboard/pages/TeamsPage.jsx:54-57 | a member with one of the five roles is in that group only; one with another role is in none |
| TeamsPage.CountsAddUp | src/modules/dashboard/pages/TeamsPage.jsx:79 | the counts shown add up to the number of members with one of the five roles |
| AuthProvider.Get | src/modules/auth/AuthProvider.jsx:17-18 | `getItem` is the stored text, or none exactly when the key is absent |
| AuthProvider.Message | src/modules/auth/AuthProvider.jsx:47-49 | a refusal throws the server's error when it has one, otherwise the fallback; a thrown error is rethrown as it is |
| AuthProvider.RestoreFrom | src/modules/auth/AuthProvider.jsx:15-32 | a user is restored exactly when both keys hold text that parses; text that does not parse removes both keys |
| AuthProvider.StoreSignIn | src/modules/auth/AuthProvider.jsx:52-53 | a sign-in stores the user and the token and leaves every other key |
| AuthProvider.Merge | src/modules/auth/AuthProvider.jsx:199 | the merged user has every field of the answer, and the current user's other fields |
| AuthProvider.Session.constructor | src/modules/auth/AuthProvider.jsx:11-13 | a session starts with no user and no error, loading |
| AuthProvider.Session.Token | src/modules/auth/AuthProvider.jsx:95-97 | `getToken` is exactly the stored token |
| AuthProvider.Session.Restore | src/modules/auth/AuthProvider.jsx:15-32 | start-up sets the user and storage as `RestoreFrom` says and stops loading |
| AuthProvider.Session.Login | src/modules/auth/AuthProvider.jsx:34-62 | success stores user and token and sets the user; a failure throws its message, records it as the error and leaves storage and user |
| AuthProvider.Session.Relay | src/modules/auth/AuthProvider.jsx:64-87 | a call that only relays succeeds with the error cleared, or throws its message and records it; storage and user are untouched |
| AuthProvider.Session.Register | src/modules/auth/AuthProvider.jsx:64-87 | sign-up succeeds exactly when the server accepts, otherwise throws its message or 'Registration failed' |
| AuthProvider.Session.VerifyEmail | src/modules/auth/AuthProvider.jsx:99-122 | verification succeeds exactly when the server accepts, otherwise throws its message or 'Verification failed' |
| AuthProvider.Session.ForgotPassword | src/modules/auth/AuthProvider.jsx:124-147 | the request succeeds exactly when the server accepts, otherwise throws its message or 'Failed to process request' |
| AuthProvider.Session.ResetPassword | src/modules/auth/AuthProvider.jsx:149-172 | the reset succeeds exactly when the server accepts, otherwise throws its message or 'Password reset failed' |
| AuthProvider.Session.Logout | src/modules/auth/AuthProvider.jsx:89-93 | logout removes both keys and clears the user |
| AuthProvider.Session.UpdateProfile | src/modules/auth/AuthProvider.jsx:174-209 | without a token 'Not authenticated' is thrown before any request; on success the merged user is stored and set; a failure throws its message |
| AuthProvider.LoginThenRestore | src/modules/auth/AuthProvider.jsx:15-55 | a signed-in session survives a reload |
| AuthProvider.LogoutThenRestore | src/modules/auth/AuthProvider.jsx:15-32 | after logout the next start-up restores nobody |
| AuthProvider.UserWithoutTokenNotRestored | src/modules/auth/AuthProvider.jsx:20 | a stored user without a token is not restored and stays stored |
| AuthProvider.RefusalMessagesNonEmpty | src/modules/auth/AuthProvider.jsx:48 | every message a refusal throws is non-empty |

## Left out

- The identity provider, SHA-256, `crypto.randomBytes`, the mail service and
  the login-recording call are inputs. Their own behaviour is not modelled.
- The mail HTML, the origin in the links, Sentry reporting and console
  logging have no effect on the state and are left out.
- Ids are handed out by a counter, not drawn as random UUIDs. The handlers
  only rely on new ids being fresh.
- Times are integer milliseconds, and 24 hours and one hour are fixed
  millisecond amounts. Time zones and daylight saving are ignored.
- Real date parsing and formatting are not modelled: `new Date(text)`,
  `toISOString`, `getFullYear`/`getMonth` and `toLocaleDateString` are inputs
  (`DateReader`, `Calendar`, `DayLabel`). The Indonesian month names and day
  headings are therefore not modelled.
- `Object.entries` is taken to list keys in insertion order. This holds
  because the day headings are not integer-like.
- `toLowerCase` is modelled on ASCII letters only.
- Register.Handle, Login.Handle, ForgotPassword.Handle, ResetPassword.Handle, Comments.Handle: request fields arrive typed as text or as an id, so the model cannot express a JSON value on which the source throws and answers 500. Examples are a numeric `email`, on which `toLowerCase` throws; a numeric password, on which the SHA-256 `update` throws; and a `postId` that is not a UUID, which PostgreSQL refuses in the comment listing.
- Events.Handle, Matches.Handle: `startTime`, `endTime` and `matchDate` arrive already read as timestamps. A non-empty date string that does not parse passes the source's 400 check, then `new Date` gives an invalid date, the insert throws, and the reply is a 500. The model cannot express that input.
- Posts.CountView, Matches.Record, Matches.Handle, Uploads.Handle: counts, scores and sizes are unbounded integers. `view_count`, `our_score` and `opponent_score` are 32-bit `integer` columns and `size_bytes` a `bigint` read as a JavaScript number. So the model never meets the database's refusal, and the resulting 500, of a view count past 2147483647, of a score outside the 32-bit range or not a whole number, or of an out-of-range size.
- FormRules.NameError, FormRules.NewPasswordError: lengths are counted in characters, whereas the browser's `minLength` counts UTF-16 code units, so a character outside the Basic Multilingual Plane counts once here and twice in the source. The same holds for the profile form's name rule.
- The form patterns are read as languages over text without line breaks.
- A database error other than a broken foreign key, for example a lost
  connection, is not modelled. Such an error would give a 500.
- The race on the post view counter between concurrent reads is left out.
  The model increments once per read.
- Ties in `ORDER BY` come out in table order. PostgreSQL leaves their order
  unspecified.
- The socket.io runtime is the socket library's business and is not modelled:
  - which clients a room broadcast reaches;
  - disconnects;
  - the transport.

  The chat page that uses the socket is left out with it.
- `JSON.stringify` and `JSON.parse` of a user record are parameters.
- A user-record field that is not text counts as empty in the profile form.
- The pages' list fetching and refreshing effects are left out, together with
  the loading spinners.
- The following are left out:
  - `setTimeout` delays before navigating;
  - `window.scrollTo`;
  - `reset()` of a form after success;
  - the toggling of the create forms.
- The team page's mock member list and its simulated 800 ms delay are left
  out. Only the grouping over a given list is modelled.
- The purely presentational pages and components, and the routing, are not
  part of this model. This includes the home, dashboard, blog, chat and
  verify pages, the header and layouts, and the protected route.
- Submission.SubmitState.Begin: also clears the success flag. The pages' success views hide the form, so no second submit can follow a success, and the source's behaviour there is not observable.

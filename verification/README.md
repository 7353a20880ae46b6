# Catface backend: post matching, image numbering and reward redemption

This project models three parts of the Catface backend (an Express server for a
lost-and-found cat app):

- **The post-matching workflow `identifyAndMatch`.** It runs after a lost or found
  post is created. It takes the post's first image and asks the identify service for
  candidates. Each candidate whose id is of the *other* post type becomes a
  `matchpost` row, and the owner of the candidate's post gets a push message
  carrying the new post's id.
- **Image-id numbering.** A post's or a cat's k-th image gets the id `${id}${pad2(k)}`.
  `currentImageIndex` reads the last two digits of a cat's largest image id back, so
  that updated images continue the numbering.
- **`/redeem-reward`.** A fixed cost table, a check for too few points, and the
  deduction from the user's `point`.

Modules:

- `Wrappers` (wrappers.dfy): `Option` and its zero- or one-element sequence.
- `JsText` (js_text.dfy): the JavaScript built-ins the code relies on, written out.
  These are `parseInt` with and without radix 10 (white space, sign, `0x`, NaN),
  `String(n)`, `startsWith` and `padStart`.
- `Matching` (matching.dfy): the workflow.
  - `Workflow`, `Run`, `Handle` and `Fold` define one run on a snapshot of the
    database.
  - The class `Backend` holds the tables, the append-only `matches` table and the
    `outbox` of delivered messages.
  - `Backend.IdentifyAndMatch` is the imperative loop, proved to append exactly what
    `Workflow` says.
  - Database and messaging failures come from an oracle `fails: Query -> bool`. It
    names each call by the candidate position it belongs to.
- `ImageIds` (image_ids.dfy): the id text, cat image ids, `currentImageIndex`, and a
  `CatImageTable` class for the register and update loops.
  Cat image ids and `currentImageIndex` are defined on numbers. `CatImageIdParses`
  and `CurrentImageIndexParses` prove that they equal what `parseInt` gives for the
  texts the code builds.
- `Rewards` (rewards.dfy): the cost table, the handler's answer as a function, and a
  `PointLedger` class whose `Redeem` method updates `point`.

## Model

| member | source | states |
|---|---|---|
| `Matching.Workflow` | backend/server.js:112-273 | One run on a snapshot of the database: the image query, the identify call, the empty-result exit, then the candidate loop, with every exception ending the run Aborted. |
| `Matching.FirstImage` | backend/server.js:117-127 | The first image row of the post, from the table of its type; None when it has none. |
| `Matching.Handle` | backend/server.js:148-268 | One loop body: parse the label, apply the cross-type filter, and run the branch of the trigger's type. |
| `Matching.Accepts` | backend/server.js:152 | The filter `String(parseInt(label)).startsWith(d)`, with d "1" for a found trigger and "2" for a lost one (line 220). |
| `Matching.FoundMatch` | backend/server.js:152-217 | The found-trigger branch: insert, then the lost-post lookup, then `NotifyLostOwner` when the post exists. |
| `Matching.NotifyLostOwner` | backend/server.js:165-210 | The cat-name, location and token lookups, the default cat name, and the send with the `foundPostId` payload. |
| `Matching.LostMatch` | backend/server.js:220-265 | The lost-trigger branch: insert, then the found-post lookup, then `NotifyFoundOwner` when the post exists. |
| `Matching.NotifyFoundOwner` | backend/server.js:234-259 | The token lookup and the send with the `lostPostId` payload. |
| `Matching.Escapes` | backend/server.js:152-262 | The failures that throw out of one candidate's handling: insert, post lookup, and the lookups reached after the post is found. |
| `Matching.Backend.IdentifyAndMatch` | backend/server.js:112-273 | The tables read are unchanged. Exactly the rows and messages of `Workflow` are appended, in order, and the ending is `Workflow`'s. |
| `Matching.Backend.RunCandidates` | backend/server.js:147-269 | The candidate loop appends the rows and messages of `Run` in candidate order, and ends Aborted at the first candidate whose exception escapes. |
| `Matching.Backend.HandleCandidate` | backend/server.js:148-268 | One candidate appends the row and message of `Handle` and reports whether an exception escaped. |
| `Matching.Backend.MatchFound` | backend/server.js:152-217 | The found-trigger branch appends the row and message of `FoundMatch`, reports its exception, and leaves the tables it reads unchanged. |
| `Matching.Backend.NotifyLostOwnerStep` | backend/server.js:165-210 | Once the lost post is found, the cat-name, location and token lookups and the send append the message of `NotifyLostOwner` and report its exception. |
| `Matching.Backend.MatchLost` | backend/server.js:220-265 | The lost-trigger branch appends the row and message of `LostMatch`, reports its exception, and leaves the tables it reads unchanged. |
| `Matching.Backend.NotifyFoundOwnerStep` | backend/server.js:234-259 | Once the found post is found, the token lookup and the send append the message of `NotifyFoundOwner` and report its exception. |
| `Matching.Backend.SendIfToken` | backend/server.js:191-211 | A message is appended only with a truthy token and a send that does not throw. |
| `Matching.Run` | backend/server.js:147-269 | The `for` loop over the candidate list: the effects of the loop body at each position, folded in order. |
| `Matching.CounterpartPrefix` | backend/server.js:152 | The prefix the filter tests: "1" for a found trigger, "2" for a lost one (line 220). |
| `Matching.RowFor` | backend/server.js:154-157 | The insert's parameters by trigger type: (counterpart, new post) for a found trigger, (new post, counterpart) for a lost one (lines 222-225). |
| `Matching.Payload` | backend/server.js:201-204 | The data payload: the new post's id under `foundPostId`, or under `lostPostId` for a lost trigger (lines 250-252). |
| `Matching.HasToken` | backend/server.js:191 | A token is used only when present and truthy (also line 240). |
| `Matching.CatNameOf` | backend/server.js:169-176 | The cat's name, or 'แมวของคุณ' when the cat row is missing. |
| `Matching.Recipient` | backend/server.js:161-166 | The owner of the counterpart post, when the post exists (lines 229-234 for a lost trigger). |
| `Matching.Notify` | backend/server.js:191-211 | With a truthy token, the message is built and sent; a throwing send is caught and only the message is lost (lines 240-259). |
| `Matching.Fold` | backend/server.js:147-272 | A candidate loop ends either Completed or Aborted. |
| `Matching.AcceptsOnlyNumbers` | backend/server.js:152 | A label passes the cross-type filter only if it parses to a positive integer. NaN and negative parses never pass. |
| `Matching.CounterpartId` | backend/server.js:148-152 | The id an accepted candidate names is positive. |
| `Matching.HandleRow` | backend/server.js:152-262 | A candidate gets a row exactly when it is accepted and its insert succeeds. The row has the roles set by the trigger's type. An exception escapes exactly when an accepted candidate's insert, or a lookup it reaches, fails (`Escapes`); never from the send. A message is sent only after its row. |
| `Matching.FoundMatchRow` | backend/server.js:152-217 | The found-trigger branch inserts the row (lost post, new post) unless the insert throws. A failing insert ends it with an exception and nothing done. A failing lost-post lookup ends it with the row in and no message. Once the lost post is found, a failing cat-name, location or token lookup ends it too. No other failure escapes. A message comes only after the row. |
| `Matching.LostMatchRow` | backend/server.js:220-265 | The lost-trigger branch inserts the row (new post, found post) unless the insert throws. A failing insert or found-post lookup ends it with an exception, and so does a failing token lookup once the found post is found. No other failure escapes. |
| `Matching.QuietCandidate` | backend/server.js:147-268 | A candidate for which only the send may fail does not abort, and inserts its row exactly when it is accepted. |
| `Matching.SkippedCandidate` | backend/server.js:266-268 | A rejected candidate (same type, other digit, NaN, negative) has no effect: no row, no message, no exception, whatever fails. |
| `Matching.HandleMessage` | backend/server.js:161-262 | A message goes only to the owner of the counterpart post, only with a truthy token, and only if the send succeeded. Its payload is the new post's id under `foundPostId`/`lostPostId`. The found-trigger title names the lost cat, or 'แมวของคุณ' when the cat row is missing. |
| `Matching.HandleDelivers` | backend/server.js:165-262 | With no failing insert or lookup, an accepted candidate's row is inserted. Its recipient is messaged exactly when the counterpart post exists, the token is truthy and the send succeeds. |
| `Matching.RunRows` | backend/server.js:147-225 | The rows of a loop are a prefix of the accepted rows (one per accepted candidate, in order). All of them are present when the loop completes, and it completes when only sends fail. |
| `Matching.AcceptedIsCrossType` | backend/server.js:152-157 | An accepted candidate's row links the new post, in its own role, with an id of the other type. That id is positive and starts with 1 for a found trigger, 2 for a lost one. |
| `Matching.AcceptedRowsCrossType` | backend/server.js:152-225 | Every accepted row is cross-type. |
| `Matching.RunRowsCrossType` | backend/server.js:152-225 | Every row a loop inserts is cross-type. |
| `Matching.DuplicateCandidateTwoRows` | backend/server.js:147-157 | Rows are not deduplicated: an accepted candidate listed twice gives two identical rows. |
| `Matching.RunMessages` | backend/server.js:161-265 | A loop sends no more messages than it inserts rows. Each message went to the recipient of one of the inserted rows, with that recipient's token and the new post's id. |
| `Matching.ExpectedMessage` | backend/server.js:191-211 | The message of each branch: the found-trigger title naming the lost cat and `FoundBody` with `foundPostId`, or the fixed lost-trigger title and body with `lostPostId` (lines 240-259); the token and payload are stated. |
| `Matching.DeliveredMessage` | backend/server.js:152-265 | Reference for one candidate's message: exactly one when it is accepted, the counterpart post exists, its owner's token is truthy and the send succeeds. |
| `Matching.CandidateMessage` | backend/server.js:152-265 | A candidate that does not abort sends exactly its reference message; one that aborts sends nothing. |
| `Matching.FoundMessage` | backend/server.js:161-217 | A found-trigger candidate that does not abort sends the expected message exactly when the lost post exists, its owner's token is truthy and the send succeeds. |
| `Matching.LostMessage` | backend/server.js:229-265 | A lost-trigger candidate that does not abort sends the expected message exactly when the found post exists, its owner's token is truthy and the send succeeds. |
| `Matching.FoldSent` | backend/server.js:147-272 | The loop's messages from a position on are a prefix of the reference messages, and all of them when the loop completes. |
| `Matching.RunSent` | backend/server.js:147-272 | A run's messages are a prefix of the reference messages: one per accepted candidate whose post, owner and truthy token exist and whose send succeeds, in candidate order. All of them are sent when the run completes, in particular when no insert or lookup throws. |
| `Matching.AbortIgnoresLaterCandidates` | backend/server.js:270-272 | After a candidate's exception, later candidates are never looked at. |
| `Matching.EscapeAbortsRun` | backend/server.js:147-272 | Take an accepted candidate k, reached with no earlier insert or lookup failing, one of whose escaping calls fails. The run then ends Aborted. Its rows are the earlier accepted rows, plus k's own row exactly when k's insert succeeded. |
| `Matching.AbortKeepsEarlierRows` | backend/server.js:113-272 | When candidate k is the first to throw, the rows of the accepted candidates before it stay. So does k's own row if its insert went through before a lookup failed. |
| `Matching.AbortKeepsEarlierMessages` | backend/server.js:191-272 | When candidate k is the first to throw, the messages already sent stay sent: exactly the reference messages of the candidates before k, in order. Candidate k and the candidates after it send nothing. |
| `Matching.EarlyEndings` | backend/server.js:117-142 | Each early exit inserts no row and sends no message. A failing image query or identify call ends Aborted. A post with no image row ends NoImage. An absent or empty `result` ends NoMatch. |
| `Matching.FoundCandidateEffect` | backend/server.js:220-262 | Worked example, candidate "200005" of lost post 100027: one row (100027, 200005), and the found post's owner gets `{lostPostId: "100027"}`. |
| `Matching.LostCandidateEffect` | backend/server.js:266-268 | Worked example, candidate "100099" of lost post 100027: skipped. |
| `Matching.ScenarioEffects` | backend/server.js:147-268 | Worked example: the loop bodies for the two candidates give a row plus a message, then nothing. |
| `Matching.DeliverThenSkip` | backend/server.js:147-272 | A delivered candidate followed by a skipped one: one row, one message, Completed. |
| `Matching.LostPostScenario` | backend/server.js:112-273 | Worked example of a whole run with candidates "200005" and "100099": one row, one message, Completed. |
| `JsText.ParseIntWith` | backend/server.js:148 | `parseInt`: leading white space, one sign, an optional `0x` prefix when no radix is given, the longest digit run, NaN for none. |
| `JsText.ParseInt` | backend/server.js:148 | `parseInt(s)` without a radix. |
| `JsText.ParseInt10` | backend/server.js:310 | `parseInt(s, 10)`, also used at line 1358. |
| `JsText.IsWhiteSpace` | backend/server.js:148 | ECMAScript's StrWhiteSpaceChar set that `parseInt` skips: TAB, VT, FF, ZWNBSP, the Unicode space separators and the line terminators. |
| `JsText.HexRun` | backend/server.js:148 | The longest run of hexadecimal digits, read after a `0x` prefix when no radix is given. |
| `JsText.TrimStart` | backend/server.js:148 | The white-space skip at the start of `parseInt`. |
| `JsText.IntToString` | backend/server.js:152 | `String(n)` for an integer: a minus sign for negatives, then the digits. |
| `JsText.NumberToString` | backend/server.js:152 | `String(x)` of a `parseInt` result: "NaN" or the integer's text. |
| `JsText.StartsWith` | backend/server.js:152 | `s.startsWith(p)`. |
| `JsText.TrimStartShape` | backend/server.js:148 | `parseInt` skips exactly the leading ECMAScript white space. |
| `JsText.DigitRun` | backend/server.js:148 | `parseInt` reads the longest run of digits. |
| `JsText.ParseIntOfDigits` | backend/server.js:1358 | Both `parseInt` forms read a non-empty digit string as its decimal value. |
| `JsText.ParseIntOfIntToString` | backend/server.js:148-152 | `parseInt(String(n)) === n` for every integer, with and without radix 10. |
| `JsText.NatToString` | backend/server.js:152 | `String(n)` is a non-empty digit string with a leading zero only for 0. |
| `JsText.NatToStringHead` | backend/server.js:152 | The first character of `String(n)` is n's leading digit. |
| `JsText.StartsWithDigitIff` | backend/server.js:152 | `String(x).startsWith(d)` holds exactly when x is a positive integer with leading digit d. |
| `JsText.PadStart` | backend/server.js:309 | `padStart` gives the requested width, keeps the string as its suffix, and fills the front with the fill character. |
| `JsText.DigitsValueOfNatToString` | backend/server.js:310 | The digits of `String(n)` are worth n. |
| `ImageIds.Slot` | backend/server.js:309 | `String(k).padStart(2, '0')`, also at lines 526 and 613. |
| `ImageIds.LastTwo` | backend/server.js:1357 | `slice(-2)`: the last two characters, or the whole text when shorter. |
| `ImageIds.ImageIdText` | backend/server.js:526 | The id text is all digits and starts with the owner's id. For k up to 99 it is two characters longer than the owner's id. |
| `ImageIds.CatImageId` | backend/server.js:309-310 | A cat image id is `catId*100 + k` for k up to 99 and `catId*1000 + k` for k from 100 to 999. |
| `ImageIds.CatImageIdValue` | backend/server.js:309-310 | The decimal value of the id text is the cat image id. |
| `ImageIds.CatImageIdParses` | backend/server.js:310 | The id is what `parseInt(text, 10)` gives for the id text. |
| `ImageIds.LastTwoDigits` | backend/server.js:1357 | The last two characters of `String(m)` are digits worth `m % 100`. |
| `ImageIds.CurrentImageIndexParses` | backend/server.js:1355-1358 | For a non-zero maximum, the index is `parseInt(String(max).slice(-2), 10)`. |
| `ImageIds.CurrentImageIndex` | backend/server.js:1353-1361 | The index is at most 99. |
| `ImageIds.IndexOfWellNumbered` | backend/server.js:1353-1361 | For a cat whose ids all have the `{catId}{pad2(k)}` form, the index is the number of its largest image, or 0 without images. |
| `ImageIds.IndexRoundTrip` | backend/server.js:1326-1330 | For k up to 99, the index read back from image k's id is k. |
| `ImageIds.NumberingWrapsAtHundred` | backend/server.js:1326-1330 | The hundredth image's id reads back as 0, so the next image gets the first image's id again. |
| `ImageIds.PostImageIds` | backend/server.js:523-526 | The loop yields the ids of images 1..count in upload order. |
| `ImageIds.PostImageIdsShape` | backend/server.js:612-613 | With at most 99 images, each id starts with the post id and is two characters longer. The ids are pairwise distinct. |
| `ImageIds.DistinctIdTexts` | backend/server.js:526 | Different image numbers give different id texts for the same owner. |
| `ImageIds.MaxImageId` | backend/server.js:1354 | `MAX(image_id)` is None exactly when the cat has no image. Otherwise it is an id of the cat and no id of the cat exceeds it. |
| `ImageIds.UploadsDone` | backend/server.js:307-334 | The number of uploads before the first one whose rename or `INSERT` throws, or all of them: none of those before it throws, and it does. |
| `ImageIds.NumberedRows` | backend/server.js:307-328 | The reference rows of the register and update loops: images `first..first+count-1` of a cat in order, with their ids (lines 1327-1341). |
| `ImageIds.CatImageTable.RegisterImages` | backend/server.js:307-334 | Registering appends the rows for images 1..count, in order, up to the first upload whose rename or `INSERT` throws. It answers success exactly when no upload throws. |
| `ImageIds.CatImageTable.UpdateImages` | backend/server.js:1324-1349 | With files, a throwing `MAX` query appends nothing and answers failure. Otherwise the rows appended continue from `currentImageIndex + 1`, up to the first upload that throws, and the answer is success exactly when none throws. Without files, nothing is appended. |
| `ImageIds.CatImageTable.AppendAfter` | backend/server.js:1327-1341 | The update loop advances the index before each image and appends its row, up to the first upload whose rename or `INSERT` throws. |
| `ImageIds.RegisterThenIndex` | backend/server.js:307-330 | After registering count ≤ 99 images of a new cat, every id of the cat has the `{catId}{pad2(k)}` form and `currentImageIndex` reads back count. |
| `ImageIds.NumberedRowsIds` | backend/server.js:1326-1330 | Within 99, the row for image `first + j` has the id `catId*100 + first + j`. |
| `ImageIds.UpdateContinuesAboveMax` | backend/server.js:1324-1330 | Take a cat whose ids are all of the `{catId}{pad2(k)}` form with k ≤ 99. While the numbering stays within 99, every new id exceeds every existing one. |
| `ImageIds.NewRowsIncrease` | backend/server.js:1326-1330 | Within 99, the ids of consecutively numbered images increase. |
| `ImageIds.NewRowsWellNumbered` | backend/server.js:1326-1330 | Appending images numbered from 1 or more, up to 99, keeps every id of the cat in the `{catId}{pad2(k)}` form. |
| `Rewards.RewardCost` | backend/server.js:966-985 | Only R001 to R005 have a cost, and every cost is between 10 and 25. |
| `Rewards.CostTable` | backend/server.js:966-985 | R001 and R002 cost 15, R003 costs 10, R004 20, R005 25. |
| `Rewards.RedeemResult` | backend/server.js:947-1008 | The handler's answer: the truthiness check, the user lookup, the cost switch, the points check and the `UPDATE`, each exception a 500. |
| `Rewards.Present` | backend/server.js:950 | `user_id && reward_id`: both fields truthy. |
| `Rewards.UserKey` | backend/server.js:955-958 | The key `WHERE user_id = $1` compares with: a number itself, a text through the database's conversion, None when that throws. |
| `Rewards.Truthy` | backend/server.js:951 | JavaScript truthiness of a body field: `0` and `""` are falsy, the text "0" is not. |
| `Rewards.FieldCost` | backend/server.js:966-985 | Only a text field can match a case of the `switch`, which compares with `===`. |
| `Rewards.RedeemDeductsCost` | backend/server.js:987-1002 | A redemption succeeds exactly when both fields are truthy, the user key is well formed and exists, the reward is known, the points cover the cost and no query throws. The new balance is the old one less exactly the cost, and is never negative. |
| `Rewards.RejectionReasons` | backend/server.js:950-1007 | Each rejection names the first failing check, in the handler's order. A 500 comes exactly from a failing query, including a malformed text key. |
| `Rewards.ZeroUserId` | backend/server.js:951-960 | A numeric `user_id` 0 is rejected as missing. The text "0" is looked up and answered 404 when no such user exists. A numeric `reward_id` matches no case of the table. |
| `Rewards.RedeemLowersBalance` | backend/server.js:992-996 | A redemption lowers the requester's balance by at least 10 points. |
| `Rewards.PointLedger.Redeem` | backend/server.js:947-1008 | The handler answers `RedeemResult`. Only a successful redemption writes. It lowers the requesting user's balance and keeps every other user's balance and the set of users. |

## Left out

- The HTTP layer (Express routing, CORS, body parsing, status codes, JSON shaping) and logging.
- The identify service call (axios, the form upload and its file stream) is a function from the image path to a reply; any exception it throws is `Unreachable`.
- `admin.messaging().send` is an append to the outbox that may fail. The `notification` object is reduced to its title and body.
- The database is maps and sequences. `LIMIT 1` without `ORDER BY` is the first row of a sequence. SQL engine behaviour (`json_agg`, time zones, ordering by distance) is not modelled.
- `parseFloat` of the distance: the distance is an opaque value passed through unchanged.
- `parseInt` results beyond 2^53 are exact integers in the model; JavaScript rounds them to the nearest double, and `String(n)` switches to exponent notation from 10^21. For labels whose value exceeds 2^53 the model's filter decision and the stored id may differ from JavaScript's (`parseInt("19999999999999999")` is 20000000000000000 there, whose text starts with "2").
- `parseInt("-0")` gives -0 in JavaScript; the model folds it into 0. Neither passes the filter.
- Labels are strings. A label of another JSON type would first be converted with `String()`, and that conversion is not modelled.
- A `result` that is truthy but not an array is not modelled. An absent, null or empty `result` is.
- The location lookup of the found branch: only its failure matters (the value is read but unused in the message).
- A NULL `cat_name` would put "null" into the title; the model's cat names are strings.
- A missing key in `tokens` stands for both a missing user and a NULL token.
- The fire-and-forget scheduling of `identifyAndMatch` after post creation, and concurrent runs interleaving their inserts.
- File-system work (multer storage, mkdir, copy, rename, unlink) and the image paths and file extensions stored with image rows. Only a throwing rename is kept, as the upload at which an image loop stops.
- `cat_id` in `/update-cat-info` comes from the URL as text. The model takes it to be a number's decimal text without leading zeros.
- Image ids are non-negative in the model (`MAX(image_id)` is an `Option<nat>`), and cat image ids beyond 2^53 are exact.
- Rewards: a NULL `point` is not modelled. Body fields are missing, a number or a text; booleans, arrays, objects and fractional numbers are not modelled. The database's conversion of a text `user_id` to the integer column is a parameter (`cast`), not written out. The read of `point` and the later `UPDATE` are not atomic: concurrent redemptions can both pass the check, and this race is not modelled.
- The points awarded elsewhere (the `point + 10` update when a found post is created) are outside this model.
- Plain CRUD endpoints (sign-up, sign-in, profile and post updates, cat state updates).

# Instrument inventory: accounts, tokens and photo normalisation

A model of the logic in a small Flask inventory application, where users register instruments with a photo. Two pieces are modelled, plus the audit logger.

- **The account lifecycle over the `users` table.** Each row has a password hash, a `confirmed` flag and one nullable `confirmation_token` column. Email confirmation and password reset share that column. The modelled operations are registration (`User.create`), the login decision, confirming by token, requesting a reset (which overwrites the token), and resetting by token (which replaces the hash and clears the token). Both tables are in memory: `Models.UsersTable` holds the rows as a sequence, and the handlers are methods that update it in place. Each handler is proved equal to a pure function of the old rows. The lifecycle properties are lemmas about those functions: single use, nothing else changes, a reset retires the earlier token, and a reset token also confirms.
- **The photo normaliser that `upload` and `edit` both run.** First an integer dimension step: if width + height > 600, both sides are scaled by 600/(width+height). Then a recompression loop that steps the JPEG quality down by 5, starting at 85. The imaging library is a `Codec`: two uninterpreted functions, one for resampling and one for encoding. `Normaliser.Recompress` keeps the source's loop, and `Normaliser.Normalize` runs the resize and then that loop. It is proved against `FirstFit`, an independent definition: "the first quality on the ladder 85, 80, …, 15 whose encoding fits in 50 KiB, else 15". `Routes.Upload` and `Routes.Edit` both call `Normalize`.
- **The audit logger `save_user_cookies`.** It appends one `user_cookies` row per cookie to an append-only log (`Models.CookieLog`).

Modules: `Wrappers` (Option, Result), `Models` (app/models.py), `Normaliser` and `Routes` (app/routes.py).

Assumptions about the database schema, which is not part of this model:
- `users.id` and `instruments.id` come from sequences starting at 1, and a refused insert still uses up an id.
- `users.email` has a uniqueness constraint, so a duplicate registration fails with `DuplicateEmail`.
- `confirmed` defaults to false and `roles` defaults to NULL.
- `SELECT * FROM users` returns the columns in the order of `User.__init__`'s parameters: id, username, email, password_hash, confirmed, confirmation_token, roles. `Columns` and `ColumnsRoundTrip` rely on this.
- The table invariant `UniqueKeys` says that ids, emails and non-null tokens are pairwise distinct. So each lookup by `WHERE` plus `fetchone()` finds the only matching row.

Password hashing is a `Hasher` with `generate(salt, password)` and `check(hash, password)`. Where a lemma needs "the hash verifies exactly its own password", it requires `Sound(h)`. The random token is a fresh value supplied by the caller (`TokenFresh`). The salt, the clock readings (`clock(k)` is the k-th `datetime.now()`), the request's cookies, address and user agent, and the user-agent parser's output are also parameters.

`User` is a datatype. It is a value snapshot of a row. The only field assignments the source makes to a `User` object are in `confirm_email`, on a local copy that is written back by id straight away. `Routes.ConfirmEmail` performs the same two assignments and the same write-back.

Two behaviours of the code that are easy to misread:
- The recompression loop stores the last encoding it made, not the smallest. Its first pass re-encodes at 85, and the lowest quality it ever encodes at is 15, not 10. The model states all of this (`Recompress`, `TraceStepsDown`, `LastEncodingNotSmallest`).
- `User.create` does not return the account: it raises after committing the row (see Findings).

## Model

| member | source | states |
|---|---|---|
| Models.UserOf | app/models.py:32-39 | The k-th positional argument becomes, in order, id, username, email, password_hash, confirmed, confirmation_token, roles (`Columns(r) == args`). Any number of arguments other than seven fails with `WrongArity`, as Python's TypeError does. |
| Models.ColumnsRoundTrip | app/models.py:32-39 | Building the record from the row `SELECT *` returns gives back exactly the stored row. |
| Models.Find | app/models.py:43-44 | A `WHERE` lookup with `fetchone()`: it returns the first matching row, and it returns None exactly when no row matches. |
| Models.FindUnique | app/models.py:50-55 | Under the table invariant, a matching row is the only one that matches, and it is the row the lookup returns. |
| Models.Fetch | app/models.py:43-46 | Lookup followed by `User(*data)`: the record found is exactly the matching row, and None when nothing matches. |
| Models.Get | app/models.py:42-47 | `User.get` returns a row whose id matches, and it returns None exactly when no row has that id. |
| Models.GetByEmail | app/models.py:50-55 | `User.get_by_email` returns a row whose email matches, and it returns None exactly when no row has that email. |
| Models.UsersTable.Insert | app/models.py:61-66 | The insert uses up one id. A taken email fails with `DuplicateEmail` and adds nothing. Otherwise exactly one row is appended: the given username, email and hash, the token, `confirmed` false and `roles` NULL. The table invariant is kept. |
| Models.UsersTable.Create | app/models.py:57-67 | Corrected `create`. The stored hash is `generate(salt, password)`, never the plain password. The stored token is the fresh one. The returned record is the committed row, with `confirmed` false and the same token. A duplicate email leaves the table unchanged. |
| Models.UsersTable.CreateAsWritten | app/models.py:57-67 | `create` as written: with a new email the row is committed, and the call still ends in an error (`WrongArity(6)`). With a taken email the insert fails with `DuplicateEmail` before the commit, and no row is stored. |
| Models.CreateRecordAsWrittenFails | app/models.py:67 | The six-argument record cannot be built: the constructor reports `WrongArity(6)`. |
| Models.DeviceStringSplits | app/models.py:9-12 | `get_device_info` joins family, brand and model with single spaces, and a missing brand or model prints as "None". When no part contains a space, splitting the string on spaces gives back exactly the three parts. |
| Models.AuditRows | app/models.py:24-28 | Exactly one row per cookie, in cookie order. Each row carries that cookie's name and value, the same user id, address, user agent and device string, the country "ХЗ", and the clock reading taken for it. |
| Models.SaveUserCookies | app/models.py:16-29 | The log becomes the old log followed by `AuditRows`. So the old rows are a prefix (append-only: nothing is modified or removed), the log grows by exactly the number of cookies, and nothing is added when there are no cookies. |
| Normaliser.ScaledSize | app/routes.py:157-163 | Within the budget (width + height ≤ 600), the dimensions are unchanged. Over it, the new width + height is 599 or 600, so at most 600, and neither side grows. |
| Normaliser.ScaledSizeExample | app/routes.py:157-162 | A 2000×1000 picture becomes 400×200. |
| Normaliser.Downscale | app/routes.py:155-163 | A picture within the budget is left exactly as it is. Every result has width + height ≤ 600, and no side longer than before. |
| Normaliser.FirstFit | app/routes.py:165-176 | The chosen quality is on the ladder: a multiple of 5 between 15 and the start. Either its encoding fits in 50 KiB or it is 15. |
| Normaliser.AboveFirstFitOverBudget | app/routes.py:169-176 | Every quality on the ladder above the chosen one gave an encoding over 50 KiB, so the choice is the first that fits. |
| Normaliser.FirstFitStep | app/routes.py:169-173 | An over-budget encoding above the last rung defers the choice to the next quality down. |
| Normaliser.TraceStepsDown | app/routes.py:165-176 | Every quality in the trace is a multiple of 5 between 15 and 85. After the repeated first encoding at 85, each quality is 5 below the one before. |
| Normaliser.Recompress | app/routes.py:165-176 | The loop terminates. The stored bytes are the encoding at `FirstFit(…, 85)`. On exit the encoding is ≤ 50 KiB, or else it is the one at quality 15. The qualities encoded are exactly `Trace`: 85; then, if that encoding is over budget, 85 again and every rung 80, 75, … down to the chosen one. The stored bytes are the last encoding made. |
| Normaliser.Normalize | app/routes.py:154-176 | Resizes, then runs `Recompress`. The stored bytes are `Normalized(photo)`: the encoding at the first fit of the downscaled picture. They fit in 50 KiB or are the encoding at 15. The qualities encoded are `Trace` of the downscaled picture. |
| Normaliser.LastEncodingNotSmallest | app/routes.py:169-176 | There is an encoder and a quality in the loop's trace whose encoding is smaller than the stored bytes. So the result is the last encoding, not the smallest. |
| Routes.Login | app/routes.py:37-52 | The POST branch of `login`. The outcome is success exactly when a row with that email exists, the password verifies against its hash, and the row is confirmed. A right password on an unconfirmed row gives "confirm your email". Every other case gives "wrong login". |
| Routes.ConfirmRows | app/routes.py:62-76 | The row holding the token gets `confirmed` true and loses its token. Every other row is unchanged. Afterwards no row holds the token. An unmatched token changes nothing. |
| Routes.ConfirmEmail | app/routes.py:60-76 | `confirm_email` succeeds exactly when some row holds the token, and it leaves the table as `ConfirmRows` says. |
| Routes.ConfirmSingleUse | app/routes.py:63-70 | Confirming twice with the same token is the same as confirming once. The second attempt finds no account. |
| Routes.RequestResetRows | app/routes.py:83-98 | The row with that email gets the new token, overwriting the old one. Every other row is unchanged. An unknown email changes no row. The invariant is kept. |
| Routes.ResetRequestRetiresEarlierToken | app/routes.py:85-88 | After a reset request, the account's earlier token, whether a confirmation token or a reset token, matches no row. The new token matches, and only that account's row. |
| Routes.ResetTokenConfirms | app/routes.py:60-88 | Because the column is shared, visiting `/confirm/<reset token>` confirms the account the reset was issued for. |
| Routes.ResetPasswordRequest | app/routes.py:79-100 | GET changes nothing. POST mails the reset link to the account exactly when the email is known, reports an unknown email otherwise, and updates the table as `RequestResetRows` says. |
| Routes.ResetPasswordRows | app/routes.py:104-116 | The row holding the token gets the new hash and loses its token, and its `confirmed` flag is untouched. Every other row is unchanged. Afterwards no row holds the token. |
| Routes.ResetPassword | app/routes.py:102-119 | An unknown token is refused and changes nothing. A GET with a known token changes nothing. A POST with a known token stores `generate(salt, new password)` as `ResetPasswordRows` says. |
| Routes.ResetThenLogin | app/routes.py:104-116 | After a reset, the account logs in with the new password and with no other, as long as it was confirmed. The reset does not change `confirmed`. |
| Routes.RegisterAndConfirm | app/routes.py:21-76 | Register alice, then use her confirmation link twice. Before confirming, the right password gets "confirm your email". The first confirmation succeeds and the second is refused. After confirming, she logs in. |
| Routes.Upload | app/routes.py:144-186 | A new instrument row under a fresh id, and no other row changes. Its photo is the normalised upload, or NULL when no file was sent. |
| Routes.Edit | app/routes.py:195-237 | An uploaded photo replaces the stored one through the same normaliser. With no upload, the previously stored photo is kept. The owner is never changed. With no upload and an unknown id, the request fails and nothing changes. With an upload and an unknown id, no row is updated. |

## Left out

- Flask routing, templates, `flash`, `redirect`/`url_for`, `login_user`/`logout_user` and `load_user`: presentation glue. `load_user` is `Models.Get`. The `before_request` hook only logs when `g.user_id` is set, which no code shown sets.
- The `register` route beyond `User.create`: it renders the confirmation mail and sends it, which is I/O.
- Mail delivery (app/email.py) and the debug `print` in `reset_password_request`: I/O. `ResetMailSent` records the recipient.
- psycopg2 connections, cursors, commits and the single shared connection (app/__init__.py:22-27). Also left out: a failed statement aborting the shared transaction, and concurrency. Each handler is one atomic step on the in-memory tables.
- PIL decoding, LANCZOS resampling and JPEG encoding are foreign calls, modelled as the uninterpreted functions of `Codec`. Failures to decode a corrupt file are left out, and so are encoder failures: PIL refuses to save as JPEG a picture whose mode JPEG cannot hold (RGBA, P), so a transparent PNG upload raises at app/routes.py:166 or :172 in `upload`, and at :215 or :221 in `edit`. `encodeJpeg` always returns bytes. A resize to a zero side, which a very thin picture can ask for, is handed to `resample` unchanged.
- Normaliser.ScaledSize: computes `floor(side * 600 / (width + height))` exactly in integers. The source multiplies by a floating-point ratio and truncates, which can differ from this by one where the exact value is a whole number.
- werkzeug hashing and `secrets.token_urlsafe` are abstract. The hash is a `Hasher`, and the token a fresh value supplied by the caller. Models.UsersTable.Create, Routes.ResetPasswordRequest and Routes.RequestResetRows require that value to be fresh; a random token colliding with a stored one is not modelled.
- The `user_agents` parser: its reading of the user agent is the `ParsedDevice` parameter. A request without a User-Agent header is not modelled.
- Whether `request.files['photo']` is truthy (a file part with a file name) is the `Option<Image>` upload parameter. A form without the field is not modelled.
- The base64 display encoding in `index` and the GET branch of `edit`, the instrument listing, instrument delete and the storage-location CRUD: thin SQL with no logic.
- Authorisation: `upload`, `edit` and the delete routes check neither login nor ownership. The model, like the source, does not check either.

## Findings

| source | as written | input that shows it | evidently intended | confidence | as-written member | corrected member |
|---|---|---|---|---|---|---|
| app/models.py:67 | `User.create` builds its result with six positional arguments. The constructor at app/models.py:32 takes seven, so it raises a TypeError after the row was committed at app/models.py:66. | Any registration with an email not yet taken. | Return the record of the committed row, with `roles` NULL. | not executed; high | Models.UsersTable.CreateAsWritten | Models.UsersTable.Create |

As written, `register` fails before it sends the confirmation mail. The account is stored unconfirmed, with a token nobody received (`Models.CreateRecordAsWrittenFails`, `Models.UsersTable.CreateAsWritten`). Only a reset request can then issue a usable token. That token confirms the account only if it is visited at `/confirm/<token>` (`Routes.ResetTokenConfirms`). Following the reset link clears the token and leaves the account unconfirmed (`Routes.ResetPasswordRows`). The rest of the model, including `Routes.RegisterAndConfirm`, uses the corrected `Models.UsersTable.Create`.

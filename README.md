# Account lifecycle of a Next.js site, in Dafny

The site lets people sign up with an e-mail and a password and confirm the e-mail through a mailed
link. It also offers sign-in, re-sending the confirmation link, and resetting a forgotten password
through a second mailed link. A NextAuth Credentials provider applies the same credential checks.
The site also has a photo-gallery lightbox and carousel, and a helper that turns a contact form
into a WhatsApp link. This project models all of these and proves what each promises.

Layout:

- `tokens.dfy`: hex token generation, expiry constants and `addMinutesToNow`.
- `strings.dfy`: `toLowerCase` and `trim`.
- `bcrypt.dfy`: the UTF-8 encoding of a password and the 72-byte key bcrypt derives from it.
- `email.dfy`: base-URL fallback, the two mailed links and the send/rethrow policy.
- `store.dfy`: users and the three token tables, the Prisma operations the routes use (`findUnique`, `update`, `deleteMany`, `create` on a unique index), the request-body types, and the store invariant.
- One module per route, each a function from the store before the request to its `Outcome` (store after, reply, e-mail handed to the mailer):
  - `signup.dfy`
  - `signin.dfy`
  - `verify_email.dfy`
  - `resend_verification.dfy`
  - `forgot_password.dfy`
  - `reset_password.dfy`
- `auth_options.dfy`: `authorize`, the session callback and the `linkAccount` event.
- `lifecycle.dfy`: every request as one transition, the invariant over whole runs, and the end-to-end journeys.
- `server.dfy`: class `AuthServer`. Its fields hold the four collections, and its handlers update them one Prisma call at a time. Each handler is proved equal to its route function and to keep the invariant.
- `gallery.dfy`: classes `PhotoGallery` and `PhotoCarousel`.
- `whatsapp.dfy`: the WhatsApp message and its URL.

Inputs the code takes from its environment are parameters:

- the clock (`now`);
- `crypto.randomBytes` (the token bytes);
- the new user's database id;
- bcrypt's salt;
- the environment variables;
- whether the mail provider throws.

`Platform` holds the opaque library functions: zod's `.email()`, SHA-256 `hashToken`, `bcrypt.hash` and `bcrypt.compare`. Two ghost predicates state what is assumed of bcrypt. `BcryptSound`: a password matches its own hash. `BcryptKeyed`: a hash matches exactly the passwords with the same 72-byte key as the hashed one. bcryptjs derives that key (`Bcrypt.Key`) from the password's UTF-8 bytes followed by a NUL byte, read cyclically until 72 bytes are taken.

The model follows the code as written, including where a reader might expect otherwise:

- A signup name made only of spaces is refused with 400, not stored as null. zod trims before the `min(2)` check, and the literal `""` alternative does not match `"   "`.
- Sign-in for a user without a password hash answers 500, not 401, because `bcrypt.compare` rejects `null`.
- verify-email has no `try/catch`. A malformed body, or a token whose owner is gone, escapes as an unhandled error, modelled as `UncaughtError`.
- Resend issues into the `verificationToken` table, which verify-email never reads.
- An environment variable set to the empty string wins over the fallback in `??`.
- Passwords are limited to 72 characters, but bcrypt's key is 72 bytes, and a password may contain U+0000. Different passwords can therefore be the same password to bcrypt:
  - 36 × "é" followed by "a", and the same followed by "b" (`Bcrypt.MultibyteKeysCollide`);
  - "abcdefgh", and "abcdefgh" then U+0000 then "abcdefgh", because of the appended NUL and the cyclic reading (`Bcrypt.NulKeysCollide`).

  After a reset, an old password with the new one's key still signs in. For NUL-free ASCII passwords the key determines the password (`Bcrypt.AsciiKeyInjective`).

## Model

| member | source | states |
|---|---|---|
| Tokens.HexEncode | src/lib/tokens.ts:10-12 | the hex text of n bytes has length 2n and only lowercase hex digits |
| Tokens.HexRoundTrip | src/lib/tokens.ts:10-12 | strict hex decoding inverts the encoding |
| Tokens.GenerateToken | src/lib/tokens.ts:10-12 | the token decodes back to exactly the random bytes it was made from |
| Tokens.GeneratedTokenShape | src/lib/tokens.ts:3-12 | a token from 32 bytes has 64 lowercase hex characters |
| Tokens.GenerateTokenInjective | src/lib/tokens.ts:10-12 | different random bytes give different tokens |
| Tokens.AddMinutesToNow | src/lib/tokens.ts:18-20 | a non-negative offset never lands before now |
| Tokens.AddMinutesMonotone | src/lib/tokens.ts:18-20 | more minutes give a strictly later instant |
| Tokens.ExpiryOffsets | src/lib/tokens.ts:5-20 | verification expiry is now + 86 400 000 ms and reset expiry now + 3 600 000 ms, so a reset token expires first |
| Strings.ToLower | src/app/api/auth/signup/route.ts:41 | same length, no upper-case letter left, other characters kept, A-Z shifted by 32 |
| Strings.ToLowerIdempotent | src/app/api/auth/signup/route.ts:41 | lower-casing twice is lower-casing once |
| Strings.CaseVariantsLowerAlike | src/app/api/auth/signup/route.ts:41-44 | e-mails differing only in letter case lower-case to the same key |
| Strings.Trim | src/app/api/auth/signup/route.ts:15-19 | the result is the slice of the input that follows the leading whitespace; everything cut off before and after it is whitespace, and neither end of the result is whitespace |
| Strings.TrimStartDropsWhitespace | src/app/api/auth/signup/route.ts:15-19 | trimStart removes a whitespace-only prefix and keeps the rest |
| Strings.TrimEndDropsWhitespace | src/app/api/auth/signup/route.ts:15-19 | trimEnd removes only whitespace |
| Strings.TrimIdempotent | src/app/api/auth/signup/route.ts:15-19 | trimming a trimmed name changes nothing |
| Bcrypt.Utf8Char | src/app/api/auth/reset-password/route.ts:37 | one byte exactly for code points below U+0080, that byte being the code point; two bytes for U+0080..U+07FF; never more than four |
| Bcrypt.Cycle | src/app/api/auth/reset-password/route.ts:37 | n bytes read round and round: n bytes long, a prefix when n fits, the whole sequence first otherwise |
| Bcrypt.Key | src/app/api/auth/reset-password/route.ts:37 | the 72 key bytes bcrypt hashes: the first 72 UTF-8 bytes of a long password; the whole encoding then a NUL for a short one |
| Bcrypt.CycleTwice | src/app/api/auth/reset-password/route.ts:37 | reading a doubled sequence cyclically gives the same bytes as reading it once |
| Bcrypt.Utf8Append | src/app/api/auth/reset-password/route.ts:37 | the encoding of a concatenation is the concatenation of the encodings |
| Bcrypt.AsciiUtf8 | src/app/api/auth/reset-password/route.ts:37 | ASCII text encodes to itself, one byte per character |
| Bcrypt.AsciiKey | src/app/api/auth/signup/route.ts:26 | a NUL-free ASCII password of at most 72 characters starts its key with its own characters, none of them zero, then a NUL when there is room |
| Bcrypt.AsciiKeyInjective | src/app/api/auth/signup/route.ts:26 | NUL-free ASCII passwords of at most 72 characters have equal keys exactly when they are equal |
| Bcrypt.MultibyteKeysCollide | src/app/api/auth/signup/route.ts:26 | two different 37-character passwords, 36 × "é" then "a" or "b", have the same 72-byte key |
| Bcrypt.NulKeysCollide | src/app/api/auth/signup/route.ts:26 | "abcdefgh" (8 characters) and "abcdefgh", U+0000, "abcdefgh" (17 characters) differ but have the same key |
| Email.AppBaseUrl | src/lib/email.ts:8-14 | APP_BASE_URL if set, else NEXT_PUBLIC_APP_URL, else http://localhost:3000 |
| Email.Sender | src/lib/email.ts:4 | EMAIL_FROM if set, else the product-team default sender |
| Email.ProviderConfigured | src/lib/email.ts:3-6 | a Resend client exists only for a non-empty API key; SendEmail's contract is stated in its terms |
| Email.VerificationUrl | src/lib/email.ts:48 | the verification link; stated by VerificationUrlInjective and LinksDistinct |
| Email.ResetUrl | src/lib/email.ts:63 | the reset link; stated by ResetUrlInjective and LinksDistinct |
| Email.VerificationUrlInjective | src/lib/email.ts:48 | base + "/verify-email?token=" + token: equal links carry equal tokens |
| Email.ResetUrlInjective | src/lib/email.ts:63 | base + "/reset-password?token=" + token: equal links carry equal tokens |
| Email.LinksDistinct | src/lib/email.ts:48-63 | a verification link is never a reset link |
| Email.VerificationEmail | src/lib/email.ts:47-60 | addressed to the user, subject "Verify your email address", body contains the link |
| Email.ResetEmail | src/lib/email.ts:62-75 | addressed to the user, subject "Reset your password", body contains the link |
| Email.SendEmail | src/lib/email.ts:6-45 | only logged exactly when no API key is set; rethrown exactly when the provider fails; otherwise sent from the configured sender |
| CredentialStore.FindUser | src/app/api/auth/signup/route.ts:44 | `findUnique` by e-mail finds a user exactly when the e-mail is a key, and returns that user |
| CredentialStore.UpdateUser | src/app/api/auth/verify-email/route.ts:29-32 | `user.update` by id patches the users with that id and no other user |
| CredentialStore.DeleteMany | src/app/api/auth/signup/route.ts:63 | `deleteMany({userId})` leaves no row of that user and every other row as it was |
| CredentialStore.Create | src/app/api/auth/signup/route.ts:68-74 | `create` on the unique `tokenHash` index fails exactly on a duplicate, otherwise adds just that row |
| CredentialStore.ReissueFacts | src/app/api/auth/signup/route.ts:63-74 | deleteMany then create leaves exactly one row for the user, the new one, and other users' rows unchanged |
| CredentialStore.ReissueKeepsInvariant | src/app/api/auth/forgot-password/route.ts:39-50 | clearing and reissuing a token keeps every token owned by an existing user, one per user per table |
| CredentialStore.UpdateUserKeepsInvariant | src/app/api/auth/reset-password/route.ts:39-45 | updating a user keeps keys lower-case and ids unique, and users only move forward |
| SignupRoute.NameField | src/app/api/auth/signup/route.ts:14-21 | zod's `nameField`: its cases are stated by NameFieldCases |
| SignupRoute.Signup | src/app/api/auth/signup/route.ts:29-92 | the handler as a function from the store to its outcome; its behaviour is stated by InvalidSignupLeavesStore, SignupCaseInsensitiveConflict, SignupWrites and SignupKeepsInvariant |
| SignupRoute.NameFieldCases | src/app/api/auth/signup/route.ts:14-42 | a missing or "" name is stored as null, a 2..60 name (after trimming) is stored trimmed, anything else is refused |
| SignupRoute.ParseSignup | src/app/api/auth/signup/route.ts:23-27 | the body parses exactly when name, e-mail and password (8..72) all pass |
| SignupRoute.InvalidSignupLeavesStore | src/app/api/auth/signup/route.ts:32-39 | a refused body gives 400, no write and no mail |
| SignupRoute.SignupCaseInsensitiveConflict | src/app/api/auth/signup/route.ts:41-51 | after a signup, a second one whose e-mail differs only in case gives 409 and changes nothing |
| SignupRoute.SignupWrites | src/app/api/auth/signup/route.ts:41-84 | the new user is stored under the lower-cased e-mail, unverified, with the bcrypt hash; exactly one verification token is stored, under its hash, expiring in 1440 min; the raw token appears only in the mailed link; the reply is 201, or 500 with the writes kept if sending throws |
| SignupRoute.SignupKeepsInvariant | src/app/api/auth/signup/route.ts:29-92 | every signup keeps the store invariant and moves users forward |
| SigninRoute.Signin | src/app/api/auth/signin/route.ts:12-66 | the handler; its replies are stated by SigninDecision, SignedInOnlyWhenVerified and PasswordBeforeVerification |
| SigninRoute.SigninDecision | src/app/api/auth/signin/route.ts:24-58 | unknown e-mail and wrong password both give the same 401; 403 exactly for the right password of an unverified user; 200 exactly for the right password of a verified user |
| SigninRoute.SignedInOnlyWhenVerified | src/app/api/auth/signin/route.ts:34-58 | a 200 implies a verified account and a matching password; every 401 is the same reply |
| SigninRoute.PasswordBeforeVerification | src/app/api/auth/signin/route.ts:34-51 | an unverified user with a wrong password gets 401, not 403 |
| AuthOptions.Authorize | src/lib/auth.ts:33-63 | `authorize`; its results are stated by AuthorizeSucceedsExactly, AuthorizeRejections, AuthorizeNeedsBoth and AuthorizeIgnoresCase |
| AuthOptions.LinkAccount | src/lib/auth.ts:84-91 | the `linkAccount` event; its effect is stated by LinkAccountEffect, LinkAccountIdempotent and LinkAccountKeepsInvariant |
| AuthOptions.AuthorizeSucceedsExactly | src/lib/auth.ts:38-62 | authorize returns the user's id, e-mail and name exactly when the user exists, has a matching hash and is verified |
| AuthOptions.AuthorizeRejections | src/lib/auth.ts:41-56 | missing user, missing hash and wrong password all give "Incorrect email or password."; a right password on an unverified user gives the verify-first message |
| AuthOptions.AuthorizeNeedsBoth | src/lib/auth.ts:34-36 | missing or empty e-mail or password is refused before any lookup |
| AuthOptions.AuthorizeIgnoresCase | src/lib/auth.ts:38-39 | authorize gives the same answer for e-mails that lower-case alike |
| AuthOptions.SessionCallback | src/lib/auth.ts:76-82 | the session's user id becomes `token.sub` only when both exist; nothing else changes |
| AuthOptions.LinkAccountEffect | src/lib/auth.ts:84-91 | the linked user is stamped verified only if unverified; a set timestamp and every other user are untouched |
| AuthOptions.LinkAccountIdempotent | src/lib/auth.ts:84-91 | two linkAccount events have the effect of one |
| AuthOptions.LinkAccountKeepsInvariant | src/lib/auth.ts:84-91 | linkAccount keeps the store invariant and moves users forward |
| VerifyEmailRoute.HandleVerification | src/app/api/auth/verify-email/route.ts:11-40 | `handleVerification`; its outcomes are stated by VerifyFailureLeavesStore, VerifyAcceptsLiveToken, UnknownTokenRefused, ExpiredTokenRefused, VerifyTokenSingleUse and VerifyKeepsInvariant |
| VerifyEmailRoute.VerifyGet | src/app/api/auth/verify-email/route.ts:42-46 | GET passes the `token` query parameter, or null, to handleVerification |
| VerifyEmailRoute.VerifyPost | src/app/api/auth/verify-email/route.ts:48-60 | POST checks the body first; stated by ShortTokenRefused and GeneratedTokenAccepted |
| VerifyEmailRoute.VerifyFailureLeavesStore | src/app/api/auth/verify-email/route.ts:12-26 | a null or empty token gives "Missing token"; every non-success leaves the store unchanged, an expired record included |
| VerifyEmailRoute.GeneratedTokenAccepted | src/lib/tokens.ts:10-12 | a generated token passes POST's min(10) check, so POST then acts as GET |
| VerifyEmailRoute.ShortTokenRefused | src/app/api/auth/verify-email/route.ts:7-57 | a POST token shorter than 10 gives 400 before any lookup |
| VerifyEmailRoute.VerifyAcceptsLiveToken | src/app/api/auth/verify-email/route.ts:16-39 | a stored token is accepted exactly when `expiresAt >= now`; then the owner becomes verified at now, that row is deleted, and no other user or row changes |
| VerifyEmailRoute.UnknownTokenRefused | src/app/api/auth/verify-email/route.ts:16-26 | a token whose hash is not stored gives 400 and changes nothing |
| VerifyEmailRoute.ExpiredTokenRefused | src/app/api/auth/verify-email/route.ts:16-26 | a stored but expired token gets the same 400 "invalid or expired" reply as an unknown one, and its record stays stored |
| VerifyEmailRoute.VerifyTokenSingleUse | src/app/api/auth/verify-email/route.ts:21-34 | after a success the same token gives 400 |
| VerifyEmailRoute.VerifyKeepsInvariant | src/app/api/auth/verify-email/route.ts:11-40 | verification keeps the invariant and moves users forward |
| ResendVerificationRoute.Resend | src/app/api/auth/resend-verification/route.ts:17-72 | the handler; stated by ResendNoOpCases, ResendRevealsAccount, ResendReissues, ResendKeepsVerificationTable, ResentTokenRefused and ResendKeepsInvariant |
| ResendVerificationRoute.ResendNoOpCases | src/app/api/auth/resend-verification/route.ts:20-44 | an invalid body (400), an unknown e-mail and a verified account (both 200) write and send nothing |
| ResendVerificationRoute.ResendRevealsAccount | src/app/api/auth/resend-verification/route.ts:32-64 | a "resent" reply implies the account exists, and differs from the unknown-account reply |
| ResendVerificationRoute.ResendReissues | src/app/api/auth/resend-verification/route.ts:46-64 | an unverified user ends with exactly one `verificationToken`, under the mailed token's hash, expiring in 1440 min; every row of another user stays stored with the same value; the users and the other tables are untouched; the reply is 200, or 500 with the writes kept if sending throws |
| ResendVerificationRoute.ResendKeepsVerificationTable | src/app/api/auth/resend-verification/route.ts:46-51 | resend never changes the users, the e-mail verification table or the reset table |
| ResendVerificationRoute.ResentTokenRefused | src/app/api/auth/resend-verification/route.ts:46-57 | a freshly resent link is refused by verify-email, because verify-email reads the other table |
| ResendVerificationRoute.ResendKeepsInvariant | src/app/api/auth/resend-verification/route.ts:17-72 | resend keeps the invariant |
| ForgotPasswordRoute.Forgot | src/app/api/auth/forgot-password/route.ts:17-65 | the handler; stated by ForgotInvalidBody, ForgotSameReply, ForgotReissues, ForgotTouchesOnlyResetTokens and ForgotKeepsInvariant |
| ForgotPasswordRoute.ForgotInvalidBody | src/app/api/auth/forgot-password/route.ts:20-27 | a body without a valid e-mail gets 400 "Invalid request body", and a body that is not JSON gets 500; neither changes anything or sends mail |
| ForgotPasswordRoute.ForgotSameReply | src/app/api/auth/forgot-password/route.ts:32-57 | registered and unregistered e-mails get the same 200 reply; only a registered one sends mail; an unregistered one changes nothing |
| ForgotPasswordRoute.ForgotReissues | src/app/api/auth/forgot-password/route.ts:39-63 | the user ends with exactly one reset token, under the mailed token's hash, expiring in 60 min; every row of another user stays stored with the same value; the mail carries the reset link; the reply is 200, or 500 with the new token kept if sending throws |
| ForgotPasswordRoute.ForgotTouchesOnlyResetTokens | src/app/api/auth/forgot-password/route.ts:17-65 | users and both verification tables are never modified |
| ForgotPasswordRoute.ForgotKeepsInvariant | src/app/api/auth/forgot-password/route.ts:17-65 | forgot-password keeps the invariant |
| ResetPasswordRoute.Reset | src/app/api/auth/reset-password/route.ts:13-58 | the handler; stated by ResetInvalidPayload, ResetFailureLeavesStore, ResetEffect, ResetAcceptsLiveToken, ResetRefusesUnknownOrExpired, ResetTokenSingleUse and ResetKeepsInvariant |
| ResetPasswordRoute.ResetInvalidPayload | src/app/api/auth/reset-password/route.ts:16-23 | a token under 10 characters or a password outside 8..72 gets 400 "Invalid reset payload", and a body that is not JSON gets 500; neither changes anything |
| ResetPasswordRoute.ResetFailureLeavesStore | src/app/api/auth/reset-password/route.ts:16-57 | every non-success leaves the store unchanged (an expired record is kept), and no mail is sent |
| ResetPasswordRoute.ResetEffect | src/app/api/auth/reset-password/route.ts:25-45 | a success requires a live stored token; the owner's hash is replaced, their other fields are kept, that row is deleted, and nothing else changes |
| ResetPasswordRoute.ResetAcceptsLiveToken | src/app/api/auth/reset-password/route.ts:30 | a stored, unexpired token with an existing owner always succeeds, including at its expiry instant |
| ResetPasswordRoute.ResetRefusesUnknownOrExpired | src/app/api/auth/reset-password/route.ts:25-35 | an unknown token and a stored but expired one both get the same 400 "invalid or has expired" reply and change nothing |
| ResetPasswordRoute.ResetTokenSingleUse | src/app/api/auth/reset-password/route.ts:30-44 | after a success the same token gives 400 |
| ResetPasswordRoute.ResetChangesPassword | src/app/api/auth/reset-password/route.ts:37-43 | afterwards the owner's hash matches exactly the passwords with the new one's 72-byte bcrypt key, and `emailVerified` is unchanged |
| ResetPasswordRoute.ResetThenSignin | src/app/api/auth/reset-password/route.ts:37-45 | after a reset a verified owner signs in with the new password (200); any other well-formed password gets 200 if it has the new one's 72-byte bcrypt key and 401 otherwise |
| ResetPasswordRoute.ResetKeepsInvariant | src/app/api/auth/reset-password/route.ts:13-58 | reset keeps the invariant and moves users forward |
| Lifecycle.Next | src/app/api/auth/signup/route.ts:29-92 | one request's effect on the store: this signup handler, and likewise signin/route.ts:12-66 (no write), verify-email/route.ts:42-60, resend-verification/route.ts:17-72, forgot-password/route.ts:17-65, reset-password/route.ts:13-58 and the linkAccount event of src/lib/auth.ts:84-91; stated by NextKeepsInvariant |
| Lifecycle.Reply | src/app/api/auth/signup/route.ts:29-92 | the reply to one request: this signup handler's response, and likewise each other route's (signin/route.ts:12-66, verify-email/route.ts:42-60, resend-verification/route.ts:17-72, forgot-password/route.ts:17-65, reset-password/route.ts:13-58); none for the linkAccount event; stated by Server.AuthServer.Serve |
| Lifecycle.NextKeepsInvariant | src/app/api/auth/signup/route.ts:29-92 | every request (this signup handler, each other route and the linkAccount event), given a fresh id for a signup, keeps the invariant and moves users forward |
| Lifecycle.RunKeepsInvariant | src/app/api/auth/verify-email/route.ts:28-34 | over any run of requests the invariant holds, no account disappears or changes id, and verified stays verified |
| Lifecycle.SignupVerifySignin | src/app/api/auth/signup/route.ts:53-84 | signup 201, then sign-in 403, then verification with the mailed token within a day 200, then sign-in 200 |
| Lifecycle.SignupForgotReset | src/app/api/auth/reset-password/route.ts:37-49 | signup, then forgot 200, then reset with the mailed token within the hour 200; afterwards the new password gets 403, the account being unverified, and the old one 401, or 403 when it has the new one's 72-byte bcrypt key |
| Lifecycle.GarbageResetRefused | src/app/api/auth/reset-password/route.ts:25-35 | resetting with "garbage-token" gives 400 and changes nothing |
| Lifecycle.SecondResetTokenWins | src/app/api/auth/forgot-password/route.ts:39-50 | after two forgot-password requests the first token is refused with 400 and nothing changes; the second token resets the password (200) within its hour |
| Server.AuthServer.Signup | src/app/api/auth/signup/route.ts:29-92 | the in-place handler produces exactly the route's outcome and keeps the invariant |
| Server.AuthServer.Signin | src/app/api/auth/signin/route.ts:12-66 | reads the database, writes nothing, and answers as the route does |
| Server.AuthServer.Authorize | src/lib/auth.ts:33-63 | reads the database and answers as `authorize` does |
| Server.AuthServer.LinkAccount | src/lib/auth.ts:84-91 | stamps in place as the event does and keeps the invariant |
| Server.AuthServer.HandleVerification | src/app/api/auth/verify-email/route.ts:11-40 | update plus delete in place equal the route's outcome; the invariant is kept |
| Server.AuthServer.VerifyGet | src/app/api/auth/verify-email/route.ts:42-46 | as the GET handler |
| Server.AuthServer.VerifyPost | src/app/api/auth/verify-email/route.ts:48-60 | as the POST handler |
| Server.AuthServer.Resend | src/app/api/auth/resend-verification/route.ts:17-72 | as the route, with the users untouched |
| Server.AuthServer.Forgot | src/app/api/auth/forgot-password/route.ts:17-65 | as the route, with the users untouched |
| Server.AuthServer.Reset | src/app/api/auth/reset-password/route.ts:13-58 | as the route, with the invariant kept |
| Server.AuthServer.Serve | src/app/api/auth/signup/route.ts:29-92 | dispatches any request to its handler (this signup handler, and signin/route.ts:12-66, verify-email/route.ts:42-60, resend-verification/route.ts:17-72, forgot-password/route.ts:17-65, reset-password/route.ts:13-58, auth.ts:84-91); moves the database exactly as Lifecycle.Next says and answers exactly as Lifecycle.Reply says |
| WhatsApp.EntryLine | src/lib/whatsapp.ts:5 | the line is "*", then the key, then ":* ", then the value, and nothing else |
| WhatsApp.Lines | src/lib/whatsapp.ts:4-5 | one line per entry, in entry order |
| WhatsApp.Join | src/lib/whatsapp.ts:6 | `join("\n")`; stated by SplitJoin and JoinSeparators |
| WhatsApp.FormattedMessage | src/lib/whatsapp.ts:4-6 | the field block; stated by FormattedMessageLines |
| WhatsApp.SplitJoin | src/lib/whatsapp.ts:6 | splitting the "\n"-joined lines gives the lines back |
| WhatsApp.JoinSeparators | src/lib/whatsapp.ts:6 | n lines are joined with n - 1 separators |
| WhatsApp.FormattedMessageLines | src/lib/whatsapp.ts:4-6 | the field block holds exactly the entry lines, in order, with n - 1 newlines |
| WhatsApp.FullMessage | src/lib/whatsapp.ts:3-8 | the prefix (by default "New Form Submission:"), then "\n\n", then the field block |
| WhatsApp.WhatsAppUrl | src/lib/whatsapp.ts:1-12 | "https://wa.me/917984140706?text=" followed by the encoded message |
| Gallery.PreviousIndex | src/components/ui/photo-gallery.tsx:34-38 | the index before the current one, wrapping from 0 to the last; stated by IndexMovesInRange and IndexMovesInverse |
| Gallery.NextIndex | src/components/ui/photo-gallery.tsx:40-44 | the index after the current one, wrapping from the last to 0; stated by IndexMovesInRange, IndexMovesInverse and NextTimesWraps |
| Gallery.IndexMovesInRange | src/components/ui/photo-gallery.tsx:34-44 | on a non-empty list next and previous stay in range; the last index wraps to 0 and 0 wraps to the last |
| Gallery.IndexMovesInverse | src/components/ui/photo-gallery.tsx:34-44 | next then previous, and previous then next, return to the start |
| Gallery.EmptyGalleryMoves | src/components/ui/photo-gallery.tsx:35-41 | with no images, next reads index 1 and previous index -1, both absent |
| Gallery.NextTimesWraps | src/components/ui/photo-gallery.tsx:198-200 | k ≤ n presses of next move k places, wrapping once |
| Gallery.FullCycle | src/components/ui/photo-gallery.tsx:198-200 | n presses of next return to the start |
| Gallery.ImageAt | src/components/ui/photo-gallery.tsx:37-43 | `images[i]` is the image in range and absent outside it |
| Gallery.PhotoGallery.OpenLightbox | src/components/ui/photo-gallery.tsx:25-28 | sets the image and the index; the image shown is the one at the index when the grid passes a matching pair |
| Gallery.PhotoGallery.CloseLightbox | src/components/ui/photo-gallery.tsx:30-32 | clears the image and keeps the index |
| Gallery.PhotoGallery.GoToPrevious | src/components/ui/photo-gallery.tsx:34-38 | the index moves back with wrap-around, and the image shown is the one at the new index |
| Gallery.PhotoGallery.GoToNext | src/components/ui/photo-gallery.tsx:40-44 | the index moves on with wrap-around, and the image shown is the one at the new index |
| Gallery.PhotoGallery.SelectThumbnail | src/components/ui/photo-gallery.tsx:156-160 | a thumbnail sets the index and the image together |
| Gallery.PhotoCarousel.GoToPrevious | src/components/ui/photo-gallery.tsx:194-196 | the slide index moves back with wrap-around and stays in range |
| Gallery.PhotoCarousel.GoToNext | src/components/ui/photo-gallery.tsx:198-200 | the slide index moves on with wrap-around and stays in range |
| Gallery.PhotoCarousel.SelectDot | src/components/ui/photo-gallery.tsx:250 | a dot sets the slide index |

## Left out

- Cryptography is opaque: SHA-256, bcrypt at cost 12, and `crypto.randomBytes`. The hash and bcrypt are functions in `Platform`; random bytes, salt and new record ids are parameters. `hashToken`'s determinism therefore holds by construction, and its collision resistance is an assumption: where it matters, a lemma takes "the new hash is not already stored" as a precondition.
- zod's e-mail regex is an abstract predicate; error `details` (`flatten()`) are not part of replies.
- JSON parsing is reduced to "malformed, or an object whose fields are absent, a string, or something else".
- `toLowerCase` lower-cases only ASCII A-Z; lengths are counted in code points, not UTF-16 units.
- Dates are integer milliseconds. The separate `new Date()` calls inside one request are one `now`.
- Token rows are keyed by `tokenHash` (their unique index); their own `id` column folds into that key. A user's e-mail is the key of the user table; `createdAt`-style columns and the OAuth `Account` and `Session` tables are not modelled.
- Prisma's `create` of a user assumes the database hands out a new id (`Admissible`); an e-mail that is taken is handled by the route's own check.
- Concurrency: requests run one at a time, and each `$transaction` is one atomic step.
- The Resend HTTP client: the model records only whether sending is logged, delivered (and from whom), or rethrown. Console logging is not modelled.
- Google OAuth provider registration, NextAuth's JWT and session machinery, and the PrismaAdapter's creation of OAuth users are library behaviour.
- `encodeURIComponent` is a parameter; `window.open` becomes the URL returned.
- `Object.entries` order is taken as the given sequence of pairs, and JavaScript's ordering of integer-like keys is not modelled.
- Gallery rendering, animation and `stopPropagation` are not modelled; the carousel's `images[index].src` on an empty list (a crash) is not modelled.
- Server.AuthServer.Signup: the method requires a fresh user id, which stands for the database's id allocation rather than anything the route checks.
- bcrypt's cost factor and the bytes of its hashes are not modelled; `BcryptKeyed` takes its collision resistance on distinct 72-byte keys as an assumption. The key follows the `$2a$`/`$2b$` salt versions, which append the NUL byte.
- Lifecycle.SignupForgotReset and Lifecycle.SignupVerifySignin assume that the mail provider does not throw and that the new token hashes are not already stored.

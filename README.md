# Maker-checker control logic, modelled in Dafny

This project models the control logic of a maker-checker banking
proof of concept. Makers raise transactions. Checkers approve, reject or
flag them. A policy analyser scores each transaction against the active
policy rules, and a maker must complete KYC (know-your-customer) onboarding
before the maker dashboard opens.

The model covers these parts of the program:

- **The policy analyser** (`lib/policy-analyzer.ts`): amount thresholds,
  duplicate detection, the blacklist and business hours; the capped risk
  score; the recommendations.
- **The analyse route**, which stores violations and flags risky
  transactions.
- **The transaction hook's** approve and reject.
- **The blacklist and policy-rule managers** of the checker pages.
- **The one-time-password (OTP) flow**: code generation, the
  cookie store encoded as JSON, UTF-8 and base64, and the send, resend and
  verify routes.
- **MFA**: enrolment and the sign-in challenge.
- **KYC**: the submit, update and review routes, the onboarding wizard and
  the client of the KYC update page.
- **Routing and accounts**: the formatters, the middleware's redirect
  decision, the auth callback, the superadmin user administration, password
  change, e-mail generation and the client notification cache.

Each core source file has one module: `PolicyAnalyzer`, `AnalyzeRoute`,
`Transactions`, `BlacklistManager`, `PolicyRulesManager`, `OtpUtils`,
`OtpStore`, `SendOtp`, `ResendOtp`, `VerifyOtp`, `Mfa`, `MfaChallenge`,
`KycSubmit`, `KycUpdate`, `KycReview`, `Onboarding`, `KycUpdateClient`,
`Formatters`, `Proxy`, `AuthCallback`, `AdminUsers`, `ChangePassword`,
`Email`, `Notifications`, `Constants` and `Types`.

Support modules hold what those files share:

- `Wrappers`: the Option type.
- `Strings`: ECMAScript whitespace, ASCII case mapping, the regular
  expressions the routes use, decimal rendering.
- `Store`: the database tables as sequences of rows. Supabase's filters,
  updates, deletes and `.single()` are functions on them.
- `UserMetadata`: the auth user's metadata object.
- `JsNumber`: ECMAScript's StringToNumber (section 7.1.4.1.1 of ECMA-262) and the `>` between the clock and its result, as the MFA routes compare a stored expiry.
- `JsNumberText`: `Number.prototype.toString()` for the numbers the rule manager shows, with its read-back through StringToNumber.
- `Base64`, `Utf8` and `Json`: the encodings of the OTP cookie.

Calls whose outcome the program only inspects become parameters:

- the database client's error results, the auth service's answers and the
  mail service's answers;
- the clock and `Math.random`.

Route handlers that write several tables are methods on the `Store.Db`
object. Client components that keep state in React hooks are classes whose
fields are that state.

## Model

| member | source | states |
|---|---|---|
| Constants.SeverityScore | lib/constants.ts:60-65 | critical scores 40, low scores 5, and every score lies between 5 and 40 |
| Constants.SeverityScoreStrictlyIncreasing | lib/constants.ts:60-65 | a strictly higher severity scores strictly more, and only then |
| Constants.BusinessHoursShape | lib/constants.ts:92-96 | business hours open before they close; the working days are exactly Monday to Friday |
| Constants.DuplicateWindowMs | lib/policy-analyzer.ts:110 | the 24-hour duplicate window is 86,400,000 ms |
| Constants.ParseRuleKind | lib/constants.ts:68-73 | a parsed rule type names the text it was parsed from |
| Constants.RuleKindsExactly | lib/policy-analyzer.ts:78-89 | exactly the four rule-type names are recognised |
| Constants.RuleKindNamesRoundTrip | lib/constants.ts:68-73 | parsing a rule type's name gives that type back |
| Constants.TransactionStatusesExactly | lib/constants.ts:24-29 | exactly pending, approved, rejected and flagged are transaction statuses |
| Constants.KycStatusesExactly | lib/constants.ts:143-148 | exactly pending, approved, rejected and under_review are KYC statuses |
| Constants.AuditActions | lib/constants.ts:80-89 | there are eight distinct audit actions, including the transaction, blacklist and policy ones |
| Types.ParseRole | lib/types.ts:8 | a parsed role names the text it was parsed from |
| Types.RoleNamesRoundTrip | lib/types.ts:8 | parsing a role's name gives that role back |
| Types.SuperadminIsNotAUserRole | lib/types.ts:8 | `superadmin` is not one of the three typed user roles |
| Types.ParseStatus | lib/types.ts:12 | a parsed transaction status names its text |
| Types.StatusNamesRoundTrip | lib/types.ts:12 | parsing a status's name gives that status back |
| Types.ParseKycStatus | lib/types.ts:17 | a parsed KYC status names its text |
| Types.KycStatusNamesRoundTrip | lib/types.ts:17 | parsing a KYC status's name gives it back |
| Types.EntryRecord | lib/types.ts:135-143 | a blacklist entry's row has exactly the seven columns of the type, with its flag and account number |
| PolicyAnalyzer.SeverityByAmount | lib/policy-analyzer.ts:178-184 | `getSeverityByAmount`: for a positive threshold, an amount above ten times it is critical and one at most twice it is low; the full bands are the SeverityBands row and the monotonicity in amount the SeverityMonotone row |
| PolicyAnalyzer.RatioAbove | lib/policy-analyzer.ts:179-182 | for a positive threshold, the ratio amount/threshold exceeds c exactly when the amount exceeds c times the threshold; amounts and thresholds are numbers, not integers |
| PolicyAnalyzer.SeverityBands | lib/policy-analyzer.ts:178-184 | the amount severity is critical above 10 times the threshold, high in (5, 10] times, medium in (2, 5] times and low at or below twice, each as an if-and-only-if |
| PolicyAnalyzer.SeverityMonotone | lib/policy-analyzer.ts:178-184 | a larger amount never gets a lower severity |
| PolicyAnalyzer.CheckAmountThreshold | lib/policy-analyzer.ts:92-103 | a violation exists exactly when the threshold is set, non-zero and exceeded; it carries the amount severity and the transaction's and rule's ids |
| PolicyAnalyzer.CheckDuplicate | lib/policy-analyzer.ts:105-130 | a violation exists exactly when another transaction to the same account with the same amount lies in the last 24 hours; it is high exactly when there are more than two such transactions, else medium |
| PolicyAnalyzer.TextOr | lib/policy-analyzer.ts:151 | a non-empty value is returned itself; the fallback is returned exactly when the value is null or empty, or equals the fallback |
| PolicyAnalyzer.BlacklistDetailsMentionBlacklist | lib/policy-analyzer.ts:151 | a blacklist violation's text always contains "blacklist" |
| PolicyAnalyzer.CheckBlacklist | lib/policy-analyzer.ts:132-156 | a violation exists exactly when an active entry lists the source or destination account; it is critical and mentions the blacklist |
| PolicyAnalyzer.CheckTimeBased | lib/policy-analyzer.ts:158-175 | a low violation exists exactly when the transaction falls on a weekend or outside 9:00 to 18:00 |
| PolicyAnalyzer.CheckRule | lib/policy-analyzer.ts:73-90 | an unknown rule type never gives a violation; any violation carries the transaction's and rule's ids |
| PolicyAnalyzer.ScoreSum | lib/policy-analyzer.ts:42 | the summed score is at least each violation's score and at least 5 per violation |
| PolicyAnalyzer.CheckRules | lib/policy-analyzer.ts:38-44 | the loop collects exactly one violation per violating rule, in rule order, and sums their scores |
| PolicyAnalyzer.AnalyzeTransaction | lib/policy-analyzer.ts:23-70 | without rules the analysis is empty; otherwise it holds the rules' violations, the score capped at 100 and the recommendations for those violations |
| PolicyAnalyzer.Recommend | lib/policy-analyzer.ts:46-63 | the pushes build exactly the recommendations of the violations, whose shape `RecommendationsShape` gives |
| PolicyAnalyzer.ViolationsAppend | lib/policy-analyzer.ts:38-44 | checking two rule lists one after the other gives the two violation lists one after the other |
| PolicyAnalyzer.AtMostOneViolationPerRule | lib/policy-analyzer.ts:38-44 | there are never more violations than rules, and each names the transaction and one of the rules |
| PolicyAnalyzer.UnknownRuleTypesIgnored | lib/policy-analyzer.ts:87-88 | dropping the rules of unknown type changes no violation |
| PolicyAnalyzer.CriticalViolationReachesFlagThreshold | lib/policy-analyzer.ts:67 | one critical violation puts the capped score at 40 or more |
| PolicyAnalyzer.RecommendationsShape | lib/policy-analyzer.ts:47-63 | "review" appears exactly when there is a violation and comes first; "escalate" appears exactly when a violation is high or critical; "verify beneficiary" appears exactly when one mentions the blacklist; there are at most three, in that order |
| PolicyAnalyzer.QuietRulesGiveCleanAnalysis | lib/policy-analyzer.ts:23-70 | when no rule is violated, the violations, score and recommendations are all empty |
| PolicyAnalyzer.BlacklistHitConsequences | lib/policy-analyzer.ts:132-156 | an active blacklist rule hitting the transaction forces the escalate and verify-beneficiary recommendations and a score of at least 40 |
| AnalyzeRoute.ActiveRules | lib/policy-analyzer.ts:30-33 | the rules fetched are exactly the active ones |
| AnalyzeRoute.Post | app/api/transactions/analyze/route.ts:5-63 | 500 without a JSON body and 400 without an id, both leaving the tables alone; 404 for an unknown id; otherwise the analysis of the stored transaction, with its violations appended and the transaction flagged when there is a violation and the score is at least 40; violations only grow |
| AnalyzeRoute.AppendedFound | app/api/transactions/analyze/route.ts:20-24 | the lookup of a just-appended row's id always finds a row |
| AnalyzeRoute.FreshIdFound | app/api/transactions/analyze/route.ts:20-24 | under an id no earlier row has, the lookup finds the appended row itself |
| AnalyzeRoute.FlagTouchesOnlyStatusOfId | app/api/transactions/analyze/route.ts:41-44 | flagging changes only the status of the transactions with the id |
| Store.UpdateWhere | app/api/transactions/analyze/route.ts:41-44 | an update keeps the table's length and rewrites exactly the matching rows |
| Store.DeleteWhere | components/dashboard/blacklist-manager.tsx:256 | a delete keeps exactly the rows the filter does not match |
| Store.SelectWhere | lib/policy-analyzer.ts:113-119 | a select returns rows of the table that match, and every matching row |
| Store.FirstWhere | app/api/transactions/analyze/route.ts:19-30 | a lookup finds nothing exactly when no row matches, else a matching row |
| Store.UpdateTwiceRestores | components/dashboard/blacklist-manager.tsx:236-239 | an update that undoes itself, applied twice, restores the table |
| Store.Single | app/auth/callback/route.ts:21-25 | `.single()` gives the one matching row; None only when there is no match or there are several |
| Store.SeveralMatches | app/auth/callback/route.ts:21-25 | two or more selected rows come from two distinct positions of the table |
| Store.OwnApplication | lib/supabase/proxy.ts:88-92 | a user's application, when found, belongs to that user |
| Store.Db.constructor | lib/constants.ts:132-140 | a new database has all seven tables empty |
| Store.Db.AppendAudit | hooks/use-transactions.ts:116-122 | an audit insert appends exactly its row |
| Transactions.NotesOrNull | hooks/use-transactions.ts:108 | a note is stored as null exactly when it is absent or empty, else unchanged |
| Transactions.DecisionValues | hooks/use-transactions.ts:121 | the audit snapshot holds the new status and holds the note exactly when one was given |
| Transactions.ApproveTransaction | hooks/use-transactions.ts:100-127 | a failed update throws and writes nothing; a successful one sets approved, reviewer, note and time on the rows with the id and appends one TRANSACTION_APPROVED audit row |
| Transactions.RejectTransaction | hooks/use-transactions.ts:129-156 | a failed update throws and writes nothing; a successful one sets rejected with the notes and appends one TRANSACTION_REJECTED audit row |
| Transactions.DecisionIgnoresPriorStatus | hooks/use-transactions.ts:103-111 | a decision changes only the rows with the id, whatever their earlier status, and keeps amount and creator |
| Transactions.LaterDecisionOverwrites | hooks/use-transactions.ts:103-111 | a second decision on the same id wholly replaces the first |
| Transactions.InsertedRow | hooks/use-transactions.ts:169-176 | a created transaction is pending, unreviewed and carries the maker's data |
| Transactions.CreateTransaction | hooks/use-transactions.ts:158-193 | a failed insert throws and writes nothing; otherwise the pending row is appended. When the analysis `fetch` rejects, the call throws with only that row written. Otherwise the analysis of the row the id finds follows, at the route's own clock: its violations are appended when there are some and the save succeeds, and the appended row is flagged exactly when there are violations, the capped score reaches 40 and the flag write succeeds; an empty id is refused by the analysis and changes nothing more |
| Transactions.BuildTransactionsQuery | hooks/use-transactions.ts:9-25 | each filter and the limit are added, with the parameter's own value, exactly when the parameter is present and non-empty; the order column defaults to created_at; the order is ascending exactly when order_dir is asc |
| BlacklistManager.EmptyToNull | components/dashboard/blacklist-manager.tsx:211-212 | an optional field is stored as null exactly when it is empty |
| BlacklistManager.NewEntry | components/dashboard/blacklist-manager.tsx:209-215 | a new entry is active, created by the user, with the form's account number and nulls for empty optional fields |
| BlacklistManager.HandleSubmit | components/dashboard/blacklist-manager.tsx:203-231 | a failed insert changes nothing; a successful one appends the entry and one BLACKLIST_ADDED audit row holding the form |
| BlacklistManager.ToggleActive | components/dashboard/blacklist-manager.tsx:233-251 | the entry's flag is set to the opposite of the flag the page showed when the update succeeds; the audit row is written either way |
| BlacklistManager.ToggleAuditRecordsFlip | components/dashboard/blacklist-manager.tsx:241-248 | the audit row says DEACTIVATE exactly when the entry was active and records the old and new flags |
| BlacklistManager.ToggleTouchesOnlyTarget | components/dashboard/blacklist-manager.tsx:236-239 | a toggle changes only the flag of the rows with the id |
| BlacklistManager.ToggleTwiceRestores | components/dashboard/blacklist-manager.tsx:233-251 | toggling, refreshing and toggling again restores the table |
| BlacklistManager.StaleToggleIsIdempotent | components/dashboard/blacklist-manager.tsx:238 | two toggles from the same stale page set the same flag twice, the same as one |
| BlacklistManager.DeleteEntry | components/dashboard/blacklist-manager.tsx:253-267 | a successful delete removes the rows with the id; a BLACKLIST_REMOVED audit row holding the old entry is written either way |
| BlacklistManager.DeleteRemovesExactlyTheId | components/dashboard/blacklist-manager.tsx:256 | after the delete no row has the id and every other row remains |
| PolicyRulesManager.ToggleRule | components/dashboard/policy-rules-manager.tsx:104-124 | the rule's flag is set to the opposite of the flag shown when the update succeeds; a POLICY_UPDATED audit row is written either way |
| PolicyRulesManager.ToggleRuleTouchesOnlyTarget | components/dashboard/policy-rules-manager.tsx:108-111 | a toggle changes only the flag of the rules with the id |
| PolicyRulesManager.ToggleRuleTwiceRestores | components/dashboard/policy-rules-manager.tsx:104-124 | toggling twice from refreshed pages restores the rules |
| PolicyRulesManager.RuleToggleAuditShape | components/dashboard/policy-rules-manager.tsx:113-120 | the audit row is POLICY_UPDATED on the policy rule, with the old and new flags |
| PolicyRulesManager.FormatThreshold | components/dashboard/policy-rules-manager.tsx:35-41 | a missing threshold shows N/A; an amount threshold is shown as currency; any other is shown as its number's `toString()` |
| PolicyRulesManager.PlainThresholdText | components/dashboard/policy-rules-manager.tsx:40 | a non-amount threshold is never N/A; a whole non-negative one is all digits, a fractional one contains a point, and the label reads back through StringToNumber as the threshold |
| JsNumberText.NumberToString | components/dashboard/policy-rules-manager.tsx:40 | `value.toString()` is never empty and starts with a minus sign exactly for a negative number; that it reads back as the number is the TextReadsBack row |
| JsNumberText.TextReadsBack | components/dashboard/policy-rules-manager.tsx:40 | a number's `toString()` text reads back through StringToNumber as that number, for every number whose decimal expansion ends within 19 places |
| JsNumberText.WholeText | components/dashboard/policy-rules-manager.tsx:40 | a whole number is written exactly as the integer's decimal text, with a minus sign when negative and no point |
| JsNumberText.FractionalText | components/dashboard/policy-rules-manager.tsx:40 | a number that is not whole is written with a point |
| JsNumberText.OneAndAHalfText | components/dashboard/policy-rules-manager.tsx:40 | 1.5 is written "1.5" |
| Strings.ToUpper | app/api/kyc/submit/route.ts:51 | upper-casing keeps the length, leaves no lower-case letter and changes nothing else |
| Strings.ToLower | lib/otp-store.ts:17 | lower-casing keeps the length, leaves no upper-case letter and changes nothing else |
| Strings.ToLowerIdempotent | lib/otp-store.ts:17-29 | lower-casing twice is lower-casing once, so a stored key is its own key |
| Strings.Trim | app/api/kyc/submit/route.ts:75 | `trim()` never lengthens its input and leaves no whitespace at either end; the BlankIffAllWhitespace row states when it is empty |
| Strings.MatchesEmail | app/api/auth/send-otp/route.ts:16-17 | the e-mail pattern only matches text with an @ and at least five characters |
| Strings.MatchesPan | app/api/kyc/submit/route.ts:51 | a text matching the PAN pattern is unchanged by `toUpperCase()`, so testing the upper-cased input accepts exactly the inputs whose upper-cased form matches (the StoredPan row) |
| Strings.TrimStart | app/api/kyc/update/route.ts:96 | the result is a suffix of the input, all that was dropped is whitespace, and it does not start with whitespace |
| Strings.TrimEnd | app/api/kyc/update/route.ts:96 | the result is a prefix of the input, all that was dropped is whitespace, and it does not end with whitespace |
| Strings.BlankIffAllWhitespace | app/auth/onboarding/page.tsx:130-152 | a text trims to nothing exactly when every character is whitespace |
| Strings.NatToString | lib/otp-utils.ts:63 | a number's decimal text is non-empty, all digits, reads back as the number and has no leading zero |
| Strings.IntToString | components/dashboard/policy-rules-manager.tsx:40 | a negative number is written as a minus sign and its magnitude |
| Strings.Pow10 | lib/otp-utils.ts:63 | powers of ten are positive |
| Strings.NatToStringLength | lib/otp-utils.ts:63 | a number in [10^(k-1), 10^k) has exactly k digits |
| Strings.FirstWord | app/api/auth/mfa/challenge/route.ts:62 | `split(' ')[0]` is a space-free prefix that ends at the first space or at the end |
| Strings.FirstWordOfJoined | app/api/auth/mfa/route.ts:96 | the first word of "first rest" is `first` |
| Strings.SplitSpace | app/api/auth/mfa/route.ts:96 | `split(' ')` starts with the first word and no part contains a space |
| Strings.SplitSpaceOfJoined | app/api/auth/mfa/route.ts:96 | splitting "first rest" gives `first` and then the parts of `rest` |
| Base64.CharIndex | lib/otp-utils.ts:25 | a decoded base64 character is the character of its index |
| Base64.CharIndexOfIndexChar | lib/otp-utils.ts:20-25 | every index's character decodes back to that index |
| Base64.Join24OfDigits24 | lib/otp-utils.ts:20-25 | four sextets rebuilt into 24 bits give the number back |
| Base64.Bytes24OfGroup | lib/otp-utils.ts:20-25 | three bytes grouped into 24 bits split back into the same bytes |
| Base64.GroupsAreFull | lib/otp-utils.ts:20 | digits and padding always fill whole groups of four |
| Base64.Encode | lib/otp-utils.ts:20 | base64 text has a length divisible by four and is empty only for no bytes |
| Base64.Decode | lib/otp-utils.ts:25 | text whose length is not a multiple of four is refused |
| Base64.IndicesOfChars | lib/otp-utils.ts:25 | reading indices back from their characters gives the indices |
| Base64.FromSextetsOfSextets | lib/otp-utils.ts:20-25 | the sextets of a byte string decode back to it, including the one- and two-byte tails |
| Base64.RoundTrip | lib/otp-utils.ts:20-25 | `Buffer.from(x, 'base64')` undoes `toString('base64')` for every byte string |
| Utf8.EncodeChar | lib/otp-utils.ts:20 | each character is one to four bytes |
| Utf8.DecodeFirstOfEncodeChar | lib/otp-utils.ts:25 | decoding the first character of an encoding gives that character and its byte count |
| Utf8.RoundTrip | lib/otp-utils.ts:20-25 | `toString('utf-8')` undoes `Buffer.from(text)` for every string |
| Utf8.AsciiIsItself | lib/otp-utils.ts:20 | ASCII text is encoded byte for byte |
| Json.EscapeChar | lib/otp-utils.ts:20 | a character is written as itself exactly when it is printable and neither a quote nor a backslash |
| Json.ParseStringBodyOfEscape | lib/otp-utils.ts:20-25 | `JSON.parse` reads back every string that `JSON.stringify` wrote, stopping at its closing quote |
| Json.ParseIntOfIntToString | lib/otp-utils.ts:20-25 | every integer that is written out reads back |
| Json.ObjectRoundTrip | lib/otp-utils.ts:20-25 | an object written with a fixed member order parses back to its values |
| OtpUtils.ConstantsValues | lib/otp-utils.ts:66-67 | codes expire after 300,000 ms (300 s) and three attempts are allowed |
| OtpUtils.Encode | lib/otp-utils.ts:19-21 | the cookie value is padded base64, a multiple of four characters; decoding it gives the record back (the CodecRoundTrip row) and it is never empty (the EncodedIsNonEmpty row) |
| OtpUtils.Decode | lib/otp-utils.ts:23-29 | a value whose length is not a multiple of four decodes to null; that it inverts Encode is the CodecRoundTrip row, and the empty value is the DecodeRefusesMalformed row |
| OtpUtils.Members | lib/otp-utils.ts:6-14 | a record is written as its seven members in a fixed order |
| OtpUtils.FromValues | lib/otp-utils.ts:23-29 | a record read from values has exactly those values as its members |
| OtpUtils.CodecRoundTrip | lib/otp-utils.ts:19-29 | `decode(encode(d))` is `d` for every pending registration |
| OtpUtils.EncodedIsNonEmpty | lib/otp-utils.ts:45 | an encoded record is never the empty cookie value, so the `!cookie?.value` guard never hides one |
| OtpUtils.DecodeRefusesMalformed | lib/otp-utils.ts:24-28 | an empty value, or one whose length is not a multiple of four, decodes to null |
| OtpUtils.SetThenGet | lib/otp-utils.ts:31-47 | after a set, a get returns the record that was set |
| OtpUtils.OtpCookie.constructor | lib/otp-utils.ts:16 | the cookie starts out absent |
| OtpUtils.OtpCookie.SetOtpData | lib/otp-utils.ts:31-40 | the cookie holds the encoded record |
| OtpUtils.OtpCookie.GetOtpData | lib/otp-utils.ts:42-47 | the read is the decoding of the cookie, and null without one |
| OtpUtils.OtpCookie.DeleteOtpData | lib/otp-utils.ts:49-52 | the cookie is gone and reads as null |
| OtpUtils.OtpCookie.UpdateOtpAttempts | lib/otp-utils.ts:54-60 | without a readable record nothing changes; otherwise the record reads back with the new attempt count |
| OtpUtils.UpdateChangesOnlyAttempts | lib/otp-utils.ts:54-60 | rewriting the attempts keeps the code, expiry, e-mail, names and password |
| OtpUtils.GenerateOtp | lib/otp-utils.ts:62-64 | the code is six digits with a value from 100000 to 999999 |
| OtpStore.Unexpired | lib/otp-store.ts:33-40 | cleanup keeps exactly the live entries, unchanged |
| OtpStore.Store.constructor | lib/otp-store.ts:14 | the store starts empty |
| OtpStore.Store.Set | lib/otp-store.ts:16-18 | the entry is stored under the lower-cased e-mail |
| OtpStore.Store.Get | lib/otp-store.ts:20-22 | an entry is found exactly when one is stored under the lower-cased e-mail, and it is that entry |
| OtpStore.Store.Delete | lib/otp-store.ts:24-26 | the key is removed, and the result says whether it was there |
| OtpStore.Store.Has | lib/otp-store.ts:28-30 | the answer is whether the lower-cased key is stored |
| OtpStore.Store.Cleanup | lib/otp-store.ts:33-40 | the loop leaves exactly the entries not yet past their expiry |
| OtpStore.SetThenGetAnyCase | lib/otp-store.ts:16-22 | an entry set under one spelling of an e-mail is found under any spelling with the same lower case |
| OtpStore.SecondSetOverwrites | lib/otp-store.ts:16-18 | a second set under the same key replaces the first |
| OtpStore.ExpiryEqualToNowSurvives | lib/otp-store.ts:36 | an entry expiring exactly now survives cleanup |
| OtpStore.CleanupIdempotentAndMonotone | lib/otp-store.ts:33-40 | cleaning twice is cleaning once, and a later cleanup keeps no entry an earlier one removed |
| SendOtp.SendCheck | app/api/auth/send-otp/route.ts:8-30 | a body passes exactly when all four fields are present, the e-mail matches the pattern and the password has at least six characters; a refusal is always 400 |
| SendOtp.ChecksInOrder | app/api/auth/send-otp/route.ts:8-30 | the presence, format and length errors are reported in that order |
| SendOtp.Issued | app/api/auth/send-otp/route.ts:33-45 | the issued record has no attempts, expires five minutes from now, holds the lower-cased e-mail and the sign-up payload |
| SendOtp.Post | app/api/auth/send-otp/route.ts:4-67 | 500 without a JSON body, the check's 400 on a bad body, neither touching the cookie; otherwise the cookie holds the issued record and the answer gives 300 seconds, with the code only in development |
| SendOtp.IssuedCodeIsSixDigits | lib/otp-utils.ts:62-64 | every issued code is six digits between 100000 and 999999 |
| ResendOtp.ResendCheck | app/api/auth/resend-otp/route.ts:8-31 | a resend passes exactly when the e-mail is given, a pending record with its payload exists and its e-mail is the lower-cased one; each failure has its own 400 message |
| ResendOtp.Reissued | app/api/auth/resend-otp/route.ts:34-46 | the new record has the new code, a fresh five-minute expiry and no attempts, and keeps the payload and e-mail |
| ResendOtp.CheckAndReissue | app/api/auth/resend-otp/route.ts:16-59 | a failed check answers with its 400 and leaves the cookie as it was; otherwise the cookie holds the prior record with a new code, and the answer carries the code only in development |
| ResendOtp.Post | app/api/auth/resend-otp/route.ts:4-67 | 500 without a JSON body, the check's 400, neither touching the cookie; otherwise the cookie holds the reissued record |
| ResendOtp.ResendKeepsPayload | app/api/auth/resend-otp/route.ts:38-46 | the cookie after a resend reads back with the old payload and the new code, expiry and zero attempts |
| ResendOtp.ResendTwiceKeepsPayload | app/api/auth/resend-otp/route.ts:38-46 | two resends are the one later resend: the payload survives any number of them |
| VerifyOtp.Decide | app/api/auth/verify-otp/route.ts:18-71 | the ordered checks accept only the cookie's own record, for the same lower-cased e-mail, unexpired, with fewer than three attempts and the same code; a wrong code re-counts to the stored attempts plus one. The converse is the AcceptIff row |
| VerifyOtp.Apply | app/api/auth/verify-otp/route.ts:37-56 | each refusal keeps, deletes or re-counts the cookie's record |
| VerifyOtp.AttemptsMessage | app/api/auth/verify-otp/route.ts:57-59 | the message says "2 attempts", "1 attempt" and "0 attempts" remaining |
| VerifyOtp.SignUpOf | app/api/auth/verify-otp/route.ts:77-89 | the account is created with the submitted e-mail, the stored password and names, the full name "first last", role maker and marked verified |
| VerifyOtp.Post | app/api/auth/verify-otp/route.ts:6-134 | 500 without a body; each refusal answers 400 with its message and keeps, deletes or re-counts the cookie as a function of the checks; an accepted code signs up; a failed sign-up answers its message and keeps the cookie; otherwise the cookie is deleted and the user goes to onboarding, or to the login page when the sign-in fails |
| VerifyOtp.AcceptIff | app/api/auth/verify-otp/route.ts:10-72 | a code is accepted exactly when the fields are present, the record exists with the lower-cased e-mail, it is unexpired, fewer than three attempts were used, the code matches and the payload is complete |
| VerifyOtp.MismatchKeepsRecord | app/api/auth/verify-otp/route.ts:28-33 | a different e-mail is refused and the record is kept |
| VerifyOtp.ExpiredFailsWithRightCode | app/api/auth/verify-otp/route.ts:36-42 | past its expiry even the right code fails, and the record is deleted |
| VerifyOtp.ExhaustedFailsWithRightCode | app/api/auth/verify-otp/route.ts:45-51 | after three failed attempts even the right code fails and the record is deleted |
| VerifyOtp.WrongCodeCounts | app/api/auth/verify-otp/route.ts:54-62 | a wrong code raises the attempt count by one and reports the attempts left |
| VerifyOtp.TwoWrongThenRight | app/api/auth/verify-otp/route.ts:45-72 | after two wrong codes the right one is still accepted |
| VerifyOtp.ThreeWrongLockOut | app/api/auth/verify-otp/route.ts:45-62 | three wrong codes lock the record: the right code is then refused and the record deleted |
| VerifyOtp.RefusalNeverCreates | app/api/auth/verify-otp/route.ts:20-25 | no sequence of checks creates a record where there was none |
| UserMetadata.Merge | app/api/auth/mfa/route.ts:80-86 | `{ ...metadata, ...updates }` holds every key of both, the updates winning |
| UserMetadata.Greeting | app/api/auth/mfa/challenge/route.ts:62 | the greeting is never empty and is the name's first word when the name starts with one |
| UserMetadata.MetaGreeting | app/api/auth/mfa/route.ts:96 | the greeting fails exactly when the name is neither text nor nullish, where `split` throws, and is never empty otherwise |
| UserMetadata.CheckCode | app/api/auth/mfa/route.ts:121-134 | a submitted code passes exactly when a code and an expiry are stored and truthy, the expiry is not past and the code is strictly equal; "not past" is JavaScript's `now > expiry`, which reads a text expiry as a number (`JsNumber.StringToNumber`) |
| UserMetadata.TextExpiryAsNumber | app/api/auth/mfa/route.ts:128 | an expiry stored as the decimal text of an integer expires exactly when the integer itself would |
| UserMetadata.TextExpiries | app/api/auth/mfa/challenge/route.ts:96 | the texts "-5", "1e3", " 5" and "1.5" expire once the clock passes -5, 1000, 5 and 1.5; the word "soon" never expires |
| JsNumber.StringToNumber | app/api/auth/mfa/route.ts:128 | a blank text reads as zero; the readers of digits, signs, exponents, fractions, hex and words are the rows below |
| JsNumber.IntTextRoundTrip | app/api/auth/mfa/route.ts:128 | the clock exceeds the number read from an integer's decimal text exactly when it exceeds the integer |
| JsNumber.DigitsRead | app/api/auth/mfa/route.ts:128 | a text of decimal digits reads as their value |
| JsNumber.NegativeDigitsRead | app/api/auth/mfa/route.ts:128 | a minus sign before decimal digits reads as the negated value |
| JsNumber.ExponentRead | app/api/auth/mfa/route.ts:128 | digits, an `e` and digits read as the first value times ten to the second |
| JsNumber.FractionDecimal | app/api/auth/mfa/route.ts:128 | digits, a point and digits read as the digits' value scaled down by the fraction's length |
| JsNumber.LeadingSpaceIgnored | app/api/auth/mfa/route.ts:128 | a leading whitespace character does not change the number a text reads as |
| JsNumber.HexRead | app/api/auth/mfa/route.ts:128 | `0x` and hexadecimal digits read as their base-16 value |
| JsNumber.WordRead | app/api/auth/mfa/route.ts:128 | a trimmed text that starts with a lower-case letter reads as NaN, which no clock exceeds |
| JsNumber.NegativeText | app/api/auth/mfa/route.ts:128 | "-5" is exceeded exactly by a clock above -5 |
| JsNumber.ExponentText | app/api/auth/mfa/route.ts:128 | "1e3" is exceeded exactly by a clock above 1000 |
| JsNumber.FractionText | app/api/auth/mfa/route.ts:128 | "1.5" is exceeded exactly by a clock of 2 or more |
| JsNumber.PaddedText | app/api/auth/mfa/route.ts:128 | " 5" is exceeded exactly by a clock above 5 |
| JsNumber.HexText | app/api/auth/mfa/route.ts:128 | "0x10" is exceeded exactly by a clock above 16 |
| JsNumber.WordText | app/api/auth/mfa/route.ts:128 | "soon" is exceeded by no clock |
| UserMetadata.IssuedCodeAccepted | app/api/auth/mfa/challenge/route.ts:45-51 | a code just issued passes until its expiry, inclusive, and is refused as expired after it |
| UserMetadata.WithdrawnCodeRefused | app/api/auth/mfa/challenge/route.ts:105-111 | once withdrawn, no submission finds a code |
| UserMetadata.AuthUser.constructor | app/api/auth/mfa/route.ts:51-54 | a user has their id, e-mail and metadata |
| UserMetadata.AuthUser.Update | app/api/auth/mfa/route.ts:80-86 | an accepted update merges into the metadata; a refused one changes nothing |
| UserMetadata.MergeKeepsOthers | app/api/auth/mfa/route.ts:82 | a merge keeps every key it does not name |
| Mfa.StatusOf | app/api/auth/mfa/route.ts:11-37 | 401 exactly when signed out; otherwise the profile's MFA flag, false without a profile, and the user's e-mail |
| Mfa.WithMfa | app/api/auth/mfa/route.ts:155-158 | the flag is set on the caller's profile rows and no others |
| Mfa.Post | app/api/auth/mfa/route.ts:48-208 | 401 when signed out, 500 without a body. send-otp needs the service key and a stored code, merges code and expiry into the metadata and mails the code. verify-otp answers each failed check with its 400 and on success enables MFA in the metadata and profile. disable turns it off. Any other action is a 400 that changes nothing |
| Mfa.SendKeepsOtherMetadata | app/api/auth/mfa/route.ts:80-86 | sending a code keeps every metadata key other than the code and its expiry |
| Mfa.SentCodeAcceptedUntilExpiry | app/api/auth/mfa/route.ts:63-134 | the code that was sent passes until five minutes after sending and is expired after that |
| Mfa.CodeIsSingleUse | app/api/auth/mfa/route.ts:145-152 | after enabling, or disabling, no code is stored and the flag says whether MFA is on |
| MfaChallenge.ProfileGreeting | app/api/auth/mfa/challenge/route.ts:54-62 | the greeting sent is never empty |
| MfaChallenge.Post | app/api/auth/mfa/challenge/route.ts:15-121 | 500 without a body or the service key. send needs a session, stores the login code either way the service answers, and mails it. verify needs a code and a session, answers each failed check with its 400 and on success withdraws the code. Any other action is a 400 |
| MfaChallenge.ChallengeLeavesEnrolment | app/api/auth/mfa/challenge/route.ts:45-51 | a login challenge touches neither the enrolment code nor the MFA flag |
| MfaChallenge.NumericCodeNeverMatches | app/api/auth/mfa/challenge/route.ts:100 | a code sent as a JSON number never strictly equals the stored text |
| MfaChallenge.VerifiedCodeIsSingleUse | app/api/auth/mfa/challenge/route.ts:105-113 | once verified, the same code finds no challenge |
| KycSubmit.FirstMissing | app/api/kyc/submit/route.ts:36-48 | the reported field is falsy and every field before it is present; nothing is reported exactly when all are present |
| KycSubmit.PermanentAddress | app/api/kyc/submit/route.ts:75 | the trimmed permanent address when it is non-blank, else the current address; a boolean, which has no `trim`, throws |
| KycSubmit.OrElse | app/api/kyc/submit/route.ts:92-97 | the JavaScript or-default: the fallback exactly for falsy values, else the value itself |
| KycSubmit.NoneMissing | app/api/kyc/submit/route.ts:41-48 | a body with no falsy required field holds every required field |
| KycSubmit.Post | app/api/kyc/submit/route.ts:5-135 | 401 without a session; 400 with the status when an application exists; the first missing field's 400; 500 for a PAN that is not text; the PAN, Aadhaar and mobile 400s; 500 when no permanent address can be chosen; the insert error's 500 with its message or the fallback. The answer is success exactly when every check passes and the insert succeeds, and then one pending application with the body's columns was appended with one KYC_APPLICATION_SUBMITTED audit row; otherwise nothing is written |
| KycSubmit.FirstMissingIsFirst | app/api/kyc/submit/route.ts:41-48 | the loop's first falsy field is the one reported |
| KycSubmit.StoredPan | app/api/kyc/submit/route.ts:51-85 | the stored PAN is the upper-cased input and matches the PAN pattern |
| KycSubmit.OptionalDefaults | app/api/kyc/submit/route.ts:91-97 | falsy optional fields are stored as null and a falsy pep as false; the permanent address is the one chosen |
| KycSubmit.PermanentDefaultsToCurrent | app/api/kyc/submit/route.ts:75 | a missing, null or blank permanent address becomes the current address |
| KycUpdate.Changed | app/api/kyc/update/route.ts:73-78 | the changed fields are exactly the editable ones the body holds with a different value, in order |
| KycUpdate.NewValues | app/api/kyc/update/route.ts:75 | the changes have exactly the changed fields the body holds as keys |
| KycUpdate.OldValues | app/api/kyc/update/route.ts:76 | the old values have exactly the changed fields as keys |
| KycUpdate.Resubmitted | app/api/kyc/update/route.ts:105-114 | the updated application keeps its ids, takes the changes over its columns, and is pending with its review cleared |
| KycUpdate.ChangedStep | app/api/kyc/update/route.ts:73-78 | one iteration of the loop adds the field exactly when it changed |
| KycUpdate.ValuesStep | app/api/kyc/update/route.ts:75-76 | one iteration records the field's new and old value |
| KycUpdate.Changeset | app/api/kyc/update/route.ts:70-78 | the loop builds exactly the changed fields, their new values and their old values |
| KycUpdate.Post | app/api/kyc/update/route.ts:11-150 | 401 without a session, 404 without an application, 400 while pending or under review, 500 for a body that is not JSON, 400 with no change, the first validation error's 400, the update error's 500 with its message or the fallback. The answer is success exactly when the application is approved or rejected, something changes, every change is valid and the update succeeds; the changes are then written with the status reset to pending and audited with old and new values; any refusal writes nothing |
| KycUpdate.IdentityNeverChanges | app/api/kyc/update/route.ts:52-67 | date of birth, PAN and Aadhaar are never part of a changeset |
| KycUpdate.ChangesetExactly | app/api/kyc/update/route.ts:73-78 | a field is changed, and has a new value, exactly when it is editable and differs |
| KycUpdate.AuditKeysAgree | app/api/kyc/update/route.ts:127-134 | the audit row's old and new values cover the same fields, the changed ones |
| KycUpdate.ResubmitKeepsOthers | app/api/kyc/update/route.ts:105-114 | an update leaves every non-editable column as it was |
| KycReview.NewStatus | app/api/kyc/review/route.ts:64-68 | approve gives approved and reject gives rejected, each as an if-and-only-if; no action gives pending |
| KycReview.Decided | app/api/kyc/review/route.ts:71-81 | a decision keeps the application's ids and columns and records the status, the checker, the time and the notes, or null for falsy notes |
| KycReview.CompleteKyc | app/api/kyc/review/route.ts:92-97 | only the applicant's profile is marked KYC-complete |
| KycReview.Post | app/api/kyc/review/route.ts:5-124 | 401 without a session, 403 unless the caller's single profile is checker or admin, 500 for a body that is not JSON; 400 for missing fields or an unknown action; 404 for an unknown application; 500 with the update error. The answer is success exactly when every check passes and the update succeeds. It then writes the decision, marks the applicant complete on approval, and audits the old and new status with the notes as sent. A refusal writes nothing |
| KycReview.NotesRecorded | app/api/kyc/review/route.ts:71-106 | notes sent as null appear as null in the audit's new values, absent notes leave no key there, and the column stores null for both; a non-empty text is kept in both |
| KycReview.AnyStatusMayBeDecided | app/api/kyc/review/route.ts:64-81 | each action reaches its status from any current status: there is no transition rule |
| KycReview.AuditActions | app/api/kyc/review/route.ts:102 | ``KYC_${action.toUpperCase()}`` gives KYC_APPROVE, KYC_REJECT and KYC_UNDER_REVIEW for the three valid actions (through the upper-casing steps UpperWord, ApproveUpper, RejectUpper and UnderReviewUpper) |
| KycReview.DecidedKeepsIdentity | app/api/kyc/review/route.ts:71-81 | the decided row has the new status and checker and keeps the applicant and columns |
| KycReview.OnlyApplicantCompleted | app/api/kyc/review/route.ts:93-96 | no other profile is touched by an approval |
| Onboarding.NotBlank | app/auth/onboarding/page.tsx:128-135 | a field with one non-white-space character passes the `trim()` requirement |
| Onboarding.PanNotBlank | app/auth/onboarding/page.tsx:131-134 | a PAN that matches the pattern once upper-cased is never reported as missing |
| Onboarding.EmailNotBlank | app/auth/onboarding/page.tsx:147-150 | an address that matches the email pattern is never reported as missing |
| Onboarding.DigitsNotBlank | app/auth/onboarding/page.tsx:137-140 | a non-empty all-digit field is never reported as missing |
| Onboarding.ValidIffNoErrors | app/auth/onboarding/page.tsx:124-171 | for every step, no error is recorded exactly when the step's demands are met: names, date of birth, PAN pattern and twelve-digit Aadhaar; ten-digit mobile, email pattern and current address; an account type; a relation for a named nominee; nothing on the review step |
| Onboarding.IdentityStepValidIffNoErrors | app/auth/onboarding/page.tsx:128-140 | the first step records no error exactly when names, date of birth, PAN and Aadhaar meet their rules |
| Onboarding.IdentityStepRecordsNothing | app/auth/onboarding/page.tsx:128-140 | a first step whose fields all meet their rules records no error |
| Onboarding.IdentityStepRecordsError | app/auth/onboarding/page.tsx:128-140 | a first step with a field that breaks its rule records an error |
| Onboarding.ContactStepValidIffNoErrors | app/auth/onboarding/page.tsx:142-153 | the second step records no error exactly when mobile, email and current address meet their rules |
| Onboarding.Word | app/auth/onboarding/page.tsx:91 | the word taken is a prefix of the text without white space, ending at the text's end or at white space |
| Onboarding.Words | app/auth/onboarding/page.tsx:91 | `trim().split(/\s+/)` gives non-empty words without white space |
| Onboarding.WordNotEmpty | app/auth/onboarding/page.tsx:91 | a text starting with a non-white-space character has a non-empty first word |
| Onboarding.ConsWordList | app/auth/onboarding/page.tsx:91 | a word put before a word list keeps it a word list |
| Onboarding.WordOfJoined | app/auth/onboarding/page.tsx:91 | the first word of `w + " " + rest` is `w` |
| Onboarding.WordsOfJoined | app/auth/onboarding/page.tsx:91-93 | splitting words joined by single spaces gives the same words back |
| Onboarding.WordsOfWord | app/auth/onboarding/page.tsx:91 | one word splits into itself |
| Onboarding.WordsOfCons | app/auth/onboarding/page.tsx:91 | a word, a space and a text starting with a word split into the word and the text's words |
| Onboarding.WordsAfterWord | app/auth/onboarding/page.tsx:91 | a text made of a word, one space and a text starting with a word splits into the word and that text's words |
| Onboarding.SpaceThenWords | app/auth/onboarding/page.tsx:91 | a leading space is trimmed away before the split |
| Onboarding.SameTrimSameWords | app/auth/onboarding/page.tsx:91 | two texts equal after their leading white space split into the same words |
| Onboarding.WordsOfUntrimmed | app/auth/onboarding/page.tsx:91 | a text starting with a word splits into that word and the words of what follows |
| Onboarding.JoinStartsWithWord | app/auth/onboarding/page.tsx:93 | a join of words starts with the first word's first character |
| Onboarding.SplitJoinedName | app/auth/onboarding/page.tsx:89-94 | the full name `first rest…` gives the first word as first name and the other words, joined by spaces, as last name |
| Onboarding.Text | app/auth/onboarding/page.tsx:87-97 | the or-empty default of a nullable text is empty exactly for a missing or empty value |
| Onboarding.PrefillPrecedence | app/auth/onboarding/page.tsx:49-105 | registration names win over every metadata name; the full name is split only when neither registration nor metadata gives a separate name; the registration's email wins |
| Onboarding.Wizard.constructor | app/auth/onboarding/page.tsx:20-45 | the wizard starts at step 1 with the initial form and no errors |
| Onboarding.Wizard.Load | app/auth/onboarding/page.tsx:49-114 | the prefilled names and email replace those fields; the rest of the form is kept |
| Onboarding.Wizard.UpdateFormData | app/auth/onboarding/page.tsx:119-122 | the merged form replaces the old one and the errors are cleared |
| Onboarding.Wizard.ValidateStep | app/auth/onboarding/page.tsx:124-171 | the step's errors are recorded, and the answer is true exactly when the step's demands are met |
| Onboarding.Wizard.Next | app/auth/onboarding/page.tsx:190-194 | a step that passes its check advances by one but never past the review step; a failing one stays; the step stays in range |
| Onboarding.Wizard.Back | app/auth/onboarding/page.tsx:196-198 | one step back, never before the first |
| Onboarding.Wizard.Skip | app/auth/onboarding/page.tsx:174-188 | on the nominee step the nominee fields are emptied and the errors cleared; any step advances without a check, never past the review step |
| Onboarding.SkippedNomineePasses | app/auth/onboarding/page.tsx:160-188 | a skipped nominee step passes its own check |
| Onboarding.InitialFormFailsFirstStep | app/auth/onboarding/page.tsx:20-37 | the initial form fails the first step with a first-name error |
| KycUpdateClient.MaskAadhaar | app/dashboard/maker/kyc-update/kyc-update-client.tsx:87-90 | a twelve-character number is shown as `XXXX-XXXX-` and its last four characters; any other text is shown unchanged |
| KycUpdateClient.Shown | app/dashboard/maker/kyc-update/kyc-update-client.tsx:124 | absent and null values show as the empty text, texts as themselves |
| KycUpdateClient.InitialForm | app/dashboard/maker/kyc-update/kyc-update-client.tsx:102-116 | the form holds exactly the thirteen editable keys, and none of them is null |
| KycUpdateClient.EditedAmong | app/dashboard/maker/kyc-update/kyc-update-client.tsx:119-129 | the result holds exactly the keys whose shown value differs from the application's |
| KycUpdateClient.EditedStep | app/dashboard/maker/kyc-update/kyc-update-client.tsx:121-127 | one iteration adds the key exactly when it was edited |
| KycUpdateClient.GetChangedFields | app/dashboard/maker/kyc-update/kyc-update-client.tsx:119-129 | the loop over the given keys (`Object.keys(formData)`) collects the edited ones, in order: a key is returned exactly when it is given and its shown value differs |
| KycUpdateClient.InitialFormUnchanged | app/dashboard/maker/kyc-update/kyc-update-client.tsx:102-129 | a freshly loaded form shows no change in a field whose column holds its own kind of value |
| KycUpdateClient.NullPepShowsAsEdited | app/dashboard/maker/kyc-update/kyc-update-client.tsx:112-124 | a null `pep` column shows as a change as soon as the form loads, because the form holds false |
| KycUpdateClient.NullAndEmptyDisagree | app/dashboard/maker/kyc-update/kyc-update-client.tsx:124 | a null column and an empty field are the same to the form, but the update route counts the empty text as a change |
| KycUpdateClient.LockedIffRouteRefuses | app/dashboard/maker/kyc-update/kyc-update-client.tsx:134-135 | for the user's own application, the form is locked exactly when the update route would not let a JSON body past its under-review check (`KycUpdate.Editable`; `app/api/kyc/update/route.ts`, lines 37-45) |
| KycUpdateClient.ResultOf | app/dashboard/maker/kyc-update/kyc-update-client.tsx:156-176 | only an ok answer is a success, and every outcome shows a non-empty message, with its fallback |
| KycUpdateClient.UpdateForm.constructor | app/dashboard/maker/kyc-update/kyc-update-client.tsx:94-116 | the form starts from the application, not submitting and without a result |
| KycUpdateClient.UpdateForm.HandleInputChange | app/dashboard/maker/kyc-update/kyc-update-client.tsx:137-140 | one field is replaced and the last result cleared |
| KycUpdateClient.UpdateForm.BeginSubmit | app/dashboard/maker/kyc-update/kyc-update-client.tsx:142-154 | without changes, or while a submission is in flight, nothing happens; otherwise the whole form becomes the request body and a submission starts |
| KycUpdateClient.UpdateForm.FinishSubmit | app/dashboard/maker/kyc-update/kyc-update-client.tsx:156-178 | the outcome's message is shown and the submission ends |
| KycUpdateClient.ReadonlyDisplay | app/dashboard/maker/kyc-update/kyc-update-client.tsx:185-187 | readonly fields show the application's value, with the Aadhaar masked |
| Formatters.SliceTo | lib/formatters.ts:82 | `slice(0, n)` gives a prefix of the string, the first n characters when n is in range |
| Formatters.Truncate | lib/formatters.ts:80-83 | a string that fits is returned as is; a longer one becomes its first `length` characters followed by `...` |
| Formatters.TruncateBounded | lib/formatters.ts:80-83 | a truncated string is at most three characters longer than the limit and starts like the original |
| Formatters.TruncateTwice | lib/formatters.ts:80-83 | with the default length a truncated string is eleven characters long, and truncating any string a second time gives the same text as truncating it once |
| Formatters.FormatAccountNumber | lib/formatters.ts:88-92 | shown in full, or four characters or fewer, the number is itself; otherwise `****` and its last four characters |
| Formatters.MaskIdempotent | lib/formatters.ts:88-92 | masking a masked number changes nothing |
| Formatters.Initial | lib/formatters.ts:100 | an empty part gives nothing, any other its first character upper-cased |
| Formatters.GetInitials | lib/formatters.ts:97-103 | the initials are at most two characters |
| Formatters.InitialsOfFullName | lib/formatters.ts:97-103 | a name of two or more words gives the upper-cased first letters of the first two |
| Formatters.FirstWordWithoutSpace | lib/formatters.ts:99 | a text without a space splits into itself alone |
| Formatters.InitialsOfOneWord | lib/formatters.ts:97-103 | a single word gives only its upper-cased first letter |
| Formatters.FormatRelativeTime | lib/formatters.ts:64-75 | under a minute it is "Just now", and from a week on it is the short date; every band is the RelativeTimeBands row |
| Formatters.FloorDiv | lib/formatters.ts:67 | `Math.floor(x / k)` is the largest q with q times k at most x |
| Formatters.RelativeTimeBands | lib/formatters.ts:64-75 | under a minute, the future included, is `Just now`; then whole minutes (1 to 59), hours (1 to 23) or days (1 to 6) ago; a week or more is the short date |
| Email.FromAddress | lib/email.ts:5 | the configured sender when it is set and non-empty, else `noreply@securecontrol.dev` |
| Email.RoleLabel | lib/email.ts:25 | the role with its first character upper-cased and the rest unchanged |
| Email.RoleLabelRoundTrip | lib/email.ts:25 | for a lower-case role, lower-casing its label gives the role back |
| Email.OtpSubject | lib/email.ts:251 | the code mail's subject starts with the code |
| Email.Result | lib/email.ts:123-132 | a send succeeds exactly when the provider accepts it, with the provider's id; a provider error gives its message; a throw gives the fixed failure text |
| Email.SendCredentials | lib/email.ts:18-133 | the credentials mail succeeds exactly when the provider accepts it, and a throw reports `Failed to send email` |
| Email.SendOtp | lib/email.ts:175-266 | the code mail's subject starts with the code; it succeeds exactly when the provider accepts it, and a throw reports `Failed to send OTP email` |
| Email.Upper | lib/email.ts:139 | the 26 upper-case letters |
| Email.Lower | lib/email.ts:140 | the 26 lower-case letters |
| Email.Digits | lib/email.ts:141 | the 10 digits |
| Email.Special | lib/email.ts:142 | the 7 special characters |
| Email.Alphabet | lib/email.ts:143 | the 69 characters of the four classes |
| Email.Pick | lib/email.ts:147-153 | a draw in [0, 1) picks a character of the class |
| Email.Drawn | lib/email.ts:146-154 | one character per draw |
| Email.DrawCharacters | lib/email.ts:146-154 | the drawing loop yields exactly the drawn characters: one of each class, then the alphabet up to the length |
| Email.GenerateTemporaryPassword | lib/email.ts:138-161 | the password has the requested length, at least four; it is a permutation of the drawn characters, uses only the alphabet, and holds an upper-case letter, a lower-case letter, a digit and a special character |
| Email.Shuffle | lib/email.ts:156-160 | whatever the random comparator does, the characters are only permuted |
| Email.DrawnClasses | lib/email.ts:145-154 | every drawn character is from the alphabet, and the first four are one of each class |
| Email.ClassesSurvive | lib/email.ts:145-160 | a permutation of the drawn characters keeps the alphabet and all four classes |
| Proxy.RoleOf | lib/supabase/proxy.ts:75 | the metadata role when it is set and non-empty, else maker |
| Proxy.NotPrefixAt | lib/supabase/proxy.ts:48 | a path that differs from a text at a position both have neither equals it nor starts with it |
| Proxy.DiffersAt | lib/supabase/proxy.ts:48 | a path that differs from a route at a position both have is not under the route |
| Proxy.NotUnderHome | lib/supabase/proxy.ts:47-48 | a path whose second character is not a slash is not under the home route |
| Proxy.AuthPageNotPublic | lib/supabase/proxy.ts:47-48 | an /auth/ page whose name starts with none of the public pages' first letters is not public |
| Proxy.PublicRouteFacts | lib/supabase/proxy.ts:47-48 | the login page and the home page are public; the maker dashboard, the onboarding page and the pending page are not |
| Proxy.Decide | lib/supabase/proxy.ts:44-110 | the redirect decision of `updateSession`: a redirect always goes to the login page, the maker dashboard, onboarding or the KYC-pending page, and never to the page requested; its branches are the rows below |
| Proxy.SignedOutGoesToLogin | lib/supabase/proxy.ts:57-62 | without a session, a page is sent to the login page exactly when it is neither public nor under /api/; the login page itself is let through |
| Proxy.SignedInLeavesPublicPages | lib/supabase/proxy.ts:65-71 | a signed-in user on a public page other than the home page is sent to the maker dashboard |
| Proxy.OnlyMakersAreChecked | lib/supabase/proxy.ts:73-78 | checkers, admins and pages outside the dashboard pass without a KYC check |
| Proxy.MakerKycRedirects | lib/supabase/proxy.ts:73-107 | a maker without completed KYC goes to onboarding with no application and to the pending page with one that is not approved; an approved application or completed KYC lets the page show |
| Proxy.DashboardIsNotPublic | lib/supabase/proxy.ts:47-48 | no dashboard path is a public one |
| Proxy.RedirectTargetsSettle | lib/supabase/proxy.ts:93-106 | the onboarding and pending pages are let through for a signed-in user, so a redirect never loops |
| AuthCallback.Callback | app/auth/callback/route.ts:5-37 | without a code it redirects to the error page; with a code, no `next` and a user it redirects to one of the three dashboards (the ProfileRoleDecides, MetadataRoleDecides and NextWins rows give which) |
| AuthCallback.LandingRole | app/auth/callback/route.ts:27 | the profile's role when it is non-empty, else the metadata role when set, else maker |
| AuthCallback.DashboardFor | app/auth/callback/route.ts:29-31 | superadmin lands on the admin dashboard, checker and admin on the checker dashboard, and every other role on the maker dashboard, each as an if-and-only-if |
| AuthCallback.NoCodeIsAnError | app/auth/callback/route.ts:9-36 | without a code the callback redirects to the error page, whatever else the request holds |
| AuthCallback.NextWins | app/auth/callback/route.ts:13-17 | a `next` page is where the user goes, whoever the user is and whatever the profiles say |
| AuthCallback.ProfileRoleDecides | app/auth/callback/route.ts:19-33 | with a single profile row holding a role, that role picks the dashboard |
| AuthCallback.MetadataRoleDecides | app/auth/callback/route.ts:19-33 | without a profile row the metadata role picks the dashboard, and without one the maker dashboard is chosen |
| AuthCallback.LandingIsADashboard | app/auth/callback/route.ts:29-31 | every landing page chosen by role is under /dashboard/ |
| AdminUsers.Get | app/api/admin/users/route.ts:37-83 | a listing is answered exactly when the caller passes the superadmin check and the query succeeds; its total counts the filtered rows and every listed row passes the filters. Completeness and paging are the EveryMatchIsListed and ListingCountsFiltered rows |
| AdminUsers.RequireSuperAdmin | app/api/admin/users/route.ts:10-31 | 401 without a session; otherwise the caller passes exactly when their single profile row is a superadmin, and is refused with 403 otherwise |
| AdminUsers.OnlySuperadminsPass | app/api/admin/users/route.ts:20-28 | a caller whose profile holds any other role is refused with 403 |
| AdminUsers.PagingOf | app/api/admin/users/route.ts:45-46 | an absent page is page 1 and an absent limit is 20 |
| AdminUsers.RangeOf | app/api/admin/users/route.ts:48-64 | the range starts at `(page - 1) * limit` and spans `limit` rows |
| AdminUsers.Window | app/api/admin/users/route.ts:64 | the range holds at most its width of rows, and within the table the rows at those positions |
| AdminUsers.RowOnItsPage | app/api/admin/users/route.ts:48-64 | row j is on page `j / limit + 1`, at position `j % limit` |
| AdminUsers.HasMoreIffNextPage | app/api/admin/users/route.ts:77 | `hasMore` holds exactly when the next page is not empty |
| AdminUsers.ListedRowsMatch | app/api/admin/users/route.ts:50-64 | every listed row is a profile that passes the role filter and the search filter |
| AdminUsers.ListingCountsFiltered | app/api/admin/users/route.ts:62-77 | the total is the number of filtered rows, a page holds at most `limit` rows, and `hasMore` holds exactly when the next page has rows |
| AdminUsers.EveryMatchIsListed | app/api/admin/users/route.ts:48-64 | every profile that passes the filters appears on its page at its position |
| AdminUsers.CreateCheck | app/api/admin/users/route.ts:99-117 | the body passes exactly when e-mail, name and role are present, the role is checker or admin and the e-mail matches the pattern; missing fields are reported first; every refusal is a 400 |
| AdminUsers.OnlyStaffIsCreated | app/api/admin/users/route.ts:107-112 | a body that passes names a checker or an admin, never a superadmin or a maker |
| AdminUsers.Promoted | app/api/admin/users/route.ts:190-193 | the new user's profile rows take the role and the name, and every other row is kept |
| AdminUsers.Precheck | app/api/admin/users/route.ts:90-131 | the checks pass exactly for a superadmin with a valid body whose lower-cased e-mail no single profile holds; each failed check gives its own answer, a taken e-mail 409 |
| AdminUsers.CreateStaff | app/api/admin/users/route.ts:133-219 | a missing service key refuses before any call; the credentials mail, with a twelve-character password and the lower-cased e-mail, goes first; the account is created only after the mail was accepted, with the password it carried; only a created account changes the tables, promoting its profile and appending one USER_CREATED audit row |
| AdminUsers.MailThenCreate | app/api/admin/users/route.ts:151-219 | with the service key present, the credentials mail carrying the given password and the lower-cased e-mail goes out first; the account is created only after the mail was accepted; only a created account promotes its profile and appends one USER_CREATED audit row |
| AdminUsers.Post | app/api/admin/users/route.ts:90-224 | a refused check answers with its status, makes no call and writes nothing; otherwise the caller is a superadmin and the creation step's rules hold |
| AdminUsers.MailFailureCreatesNothing | app/api/admin/users/route.ts:151-166 | when the mail is not accepted no account is created and nothing is written |
| AdminUsers.StoredEmailIsLowerCase | app/api/admin/users/route.ts:196-207 | the audit row records the e-mail in lower case |
| ChangePassword.PasswordCheck | app/api/auth/change-password/route.ts:24-43 | the body passes exactly when both passwords are present, the new one has at least eight characters and differs from the current one; missing passwords are reported first, then a short one; every refusal is a 400 |
| ChangePassword.AcceptedPasswordIsNew | app/api/auth/change-password/route.ts:24-43 | an accepted new password is at least eight characters long and differs from the current one |
| ChangePassword.Accounts.constructor | app/api/auth/change-password/route.ts:46-69 | the account service holds the given passwords |
| ChangePassword.Accounts.Post | app/api/auth/change-password/route.ts:10-76 | 401 without a session; 500 when the body is not JSON; the body check's 400; 400 when the current password does not sign in; 500 when the update fails; a change exactly when all these pass, and then only the user's password is replaced; no refusal changes a password |
| ChangePassword.ChangeTakesEffect | app/api/auth/change-password/route.ts:46-71 | after a change the new password signs in and the old one does not; every other account keeps its password |
| Notifications.UnreadIn | hooks/use-notifications.ts:29-39 | the unread count of a list is at most its length |
| Notifications.UnreadWithId | hooks/use-notifications.ts:93-98 | the unread notifications under one id are among the unread ones |
| Notifications.MarkedRead | hooks/use-notifications.ts:95-97 | every notification under the id is marked read and every other is kept |
| Notifications.AllRead | hooks/use-notifications.ts:114 | every notification is marked read, the rest of each row kept |
| Notifications.MarkedReadCount | hooks/use-notifications.ts:95-97 | marking an id read removes exactly the unread notifications under that id from the count |
| Notifications.AllReadCount | hooks/use-notifications.ts:114 | after marking all read nothing is unread |
| Notifications.MarkedReadIdempotent | hooks/use-notifications.ts:95-97 | marking the same id read twice is marking it once |
| Notifications.UnreadOfPrepended | hooks/use-notifications.ts:70-72 | a notification put in front adds one to the unread count exactly when it is unread |
| Notifications.NotificationCache.constructor | hooks/use-notifications.ts:29-31 | the cache starts empty, with a zero count, loading |
| Notifications.NotificationCache.Fetch | hooks/use-notifications.ts:33-45 | an ok answer replaces the list and the count, defaulting to nothing; any other outcome keeps both; loading ends either way |
| Notifications.NotificationCache.Insert | hooks/use-notifications.ts:70-72 | a realtime insert puts the notification in front and adds one to the count, which stays right for an unread one |
| Notifications.NotificationCache.MarkAsRead | hooks/use-notifications.ts:93-98 | the id's notifications are marked read and the count drops by one, never below zero; the count stays right when exactly one unread notification carries the id |
| Notifications.NotificationCache.MarkAllAsRead | hooks/use-notifications.ts:112-115 | every notification is read, the count is zero, and so the count agrees with the list |
| Notifications.MarkingReadAgainDrifts | hooks/use-notifications.ts:93-98 | marking an id with no unread notification still lowers the count, which then no longer agrees with the list |

## Left out

- Supabase, Resend and the auth service are not modelled as programs. Each call the core makes is an outcome passed in as a parameter, and each table is a sequence of rows in storage order.
- The `handle_new_user` database trigger is not part of this model. After a staff account is created, `AdminUsers.Promoted` updates only profile rows that already exist.
- PostgREST details are not modelled: `.or(...)` filter strings, the `%` and `_` wildcards inside an `ilike` search, and ordering by `created_at`. The rows arrive already in query order, and a search text matches literally.
- AdminUsers.PagingOf: the page and limit are taken as parsed integers. `parseInt` yielding `NaN` is not modelled. Neither is what PostgREST does with a negative offset or an empty range: `AdminUsers.Window` returns no rows for those.
- Request bodies hold strings, booleans and null only, and booleans only where a member takes a `Value` field: the KYC submit and update bodies and the KYC review notes. The MFA challenge code is the one body field that may also be an integer (`MfaChallenge.NumericCodeNeverMatches`). The other handlers take text-only fields: AdminUsers.Post, ChangePassword.Accounts.Post, KycReview.Post's `kyc_id` and `action`, VerifyOtp.Post, ResendOtp.Post, SendOtp.Post and Mfa.Post. Other JSON numbers, and arrays and objects in a body, are not modelled. Neither is the `TypeError` a non-string field raises at `.trim()` or `.toLowerCase()`, except where a member's row says so.
- ChangePassword.PasswordCheck: `newPassword` is text. In the source a boolean `newPassword` such as `true` passes the length check, because `true.length` is undefined and `undefined < 8` is false. The handler then passes the boolean to `updateUser`. The model has no such input.
- AdminUsers.CreateCheck: `full_name` is text. In the source a boolean `full_name` such as `true` passes the presence check and reaches the mail, the user metadata, the profile update and the audit row as a boolean. The model stores only text there.
- Formatters.FormatRelativeTime: the date is an integer timestamp. In the source an unparseable date string makes `getTime()` NaN, every band comparison is false, and the result is `formatDateShort` of the string. The model has no NaN timestamp.
- Audit-log inserts are modelled as always succeeding. No caller checks their error.
- Strings: case mapping is ASCII only, and lengths count characters rather than UTF-16 code units. Full Unicode case mapping and surrogate pairs are not modelled.
- Strings.NatToString: renders every natural number in plain decimal. JavaScript switches to exponent notation from 10^21 upward; no value of the core gets that large.
- OtpUtils.Decode: accepts exactly the layout `OtpUtils.Encode` writes, where the source runs `JSON.parse(Buffer.from(encoded, 'base64').toString('utf-8'))`. Each lenient case below is a cookie that decodes to null in the model and may decode to a record in the source:
  - other JSON spacing or member order;
  - extra or missing JSON members; the source then returns an object with those members;
  - the cases listed under Base64.Decode and Utf8.Decode.
- Base64.Decode: strict RFC 4648 decoding. Node's `Buffer.from(…, 'base64')` also skips whitespace, accepts the URL-safe `-` and `_` characters and accepts text without its `=` padding; the model refuses all three.
- Utf8.Decode: strict decoding of well-formed UTF-8. Node's `toString('utf-8')` never fails: it turns each ill-formed sequence into U+FFFD, where the model refuses the bytes.
- JsNumber.StringToNumber: a decimal literal is kept as an exact mantissa and power of ten. Rounding to the nearest double, and the `Infinity` a literal beyond the double range becomes, are not modelled; a comparison with such a text follows the exact value. Numeric separators and `0x` literals with a sign are NaN, as in ECMAScript.
- Amounts and thresholds are JavaScript numbers taken as exact reals. The rounding of `parseFloat` and of the ratio amount / threshold to doubles is not modelled, nor are NaN and infinite amounts.
- JsNumberText.NumberToString: writes the exact decimal expansion, cut off after 20 fraction digits, in plain notation. JavaScript writes the shortest text that reads back as the same double, and uses exponent notation below 10^-6 and from 10^21 upward; neither is modelled.
- PolicyAnalyzer.CheckDuplicate and PolicyAnalyzer.CheckBlacklist: their queries are modelled as succeeding. When a query fails, the source gets null data and records no violation; the model does not have that outcome.
- Transactions.CreateTransaction: a `fetch` that rejects is taken to reject before the analysis route runs. A rejection after the route has written its rows is not modelled.
- KycReview.Decided: notes that are `true` are stored as the JSON value itself. How the text column coerces a boolean is not modelled.
- OtpUtils.GenerateOtp and Email.Pick: `Math.random()` is a real number in [0, 1), and the arithmetic is exact. Double-precision rounding is not modelled.
- Email.Shuffle: the random-comparator sort is an arbitrary sequence of swaps. Only the permutation is modelled, not the distribution.
- Locale formatting is a parameter or is left out: `formatCurrency`, the `formatDate*` family, `formatNumber`, `formatPercentage`, the currency text in violation details, and the wizard's progress percentage.
- Time zones are inputs: the local hour and weekday of a transaction, and the clock.
- The HTML and text bodies of the mails are not modelled. `lib/notifications.ts` is not part of this model: it is mail and push delivery, and none of the modelled handlers waits on it.
- Cookie options, the `setInterval` cleanup timer of the OTP store, the Realtime channel, the browser Notification API, `router.refresh`, loading flags and rendering are not modelled.
- Console logging is not modelled.
- Profile timestamps are not modelled: the `updated_at` that the MFA route writes with each profile update is not a column of `Types.Profile`. The transactions' `updated_at` is modelled.
- Concurrency is not modelled: two reviewers at once, or parallel verifications of one cookie, are outside it. Every operation runs alone.
- Onboarding's `handleSubmit` is not modelled. It posts the form to the submit route, which `KycSubmit.Post` models.
- KycUpdateClient.BeginSubmit: hands `GetChangedFields` the thirteen form keys rather than `Object.keys(formData)`. The page only ever sets those keys, so the two agree.
- Proxy: the profile flag and the application status are given already looked up. The `.single()` queries behind them and the session cookies the middleware refreshes are not modelled.
- AuthCallback: the `next` parameter is the redirect target as given. Its resolution against the request origin by `new URL` is not modelled, so a `next` naming another origin is a redirect there.
- ChangePassword.Accounts.Post: the session that `signInWithPassword` starts as a side effect is not modelled.

## Code over documentation

- The doc comment of `app/api/kyc/update/route.ts` (lines 5-10) says that updates wait for a checker's approval before they take effect. The code writes the changes into the application at once and resets its status to pending (lines 105-114). The model follows the code: `KycUpdate.Resubmitted` gives the written row.

# Bakemate visitor check-in, modelled in Dafny

A model of the decision logic of the Bakemate visitor check-in web application, with proofs about it. The application has four parts:

- **An intake wizard.** A visitor fills in identity, visit details, health answers, a selfie, the site norms and consent. The visit is stored with the status `review`, and a thank-you mail is sent on a best-effort basis.
- **A confirmation page.** It shows the submitted visit, re-reading it from the database when the session store has nothing.
- **An admin area.** It has an eight-hour login, a paged visitor log, and a command centre. The command centre shows six counts, a live stream and an hourly trend, loaded either in the browser or through an API route.
- **A testimonial form and a `send-email` edge function.**

Every database query, storage call, `fetch`, clock reading, UUID and locale formatter is a parameter. The model receives what each call answered, a value or a thrown error, and decides what the page or handler does with it.

The modules follow the source files:

| module | source |
|---|---|
| `Status` | `lib/status.ts`: the four canonical statuses, the alias table, `normalizeStatus`, `toDbStatus`, the `or` filter and the badges |
| `Text`, `Common`, `Json` | ASCII `trim`, `toLowerCase`, `split` and `join`; `Option`/`Result`; a JavaScript value with its truthiness, `typeof` and field reads |
| `Base64`, `Selfie`, `SelfieStorage` | `atob` (forgiving base64 over the alphabet of section 4 of RFC 4648) with its round trip; `parseSelfieDataUrl` (the data URL syntax of RFC 2397); the storage-path rules both read pages share |
| `CheckinRules`, `CheckinPage` | `app/visitor/checkin/page.tsx`: the section predicates, progress, hint, navigation, camera and the submission pipeline |
| `VisitorFlow`, `Toggles`, `SiteNorms`, `HygieneModal` | the session store, the checklist of site norms and the hygiene-rules dialog |
| `Thanks` | `app/visitor/thanks/ThanksClient.tsx` |
| `AdminAuth` | `lib/adminAuth.ts`, over a key-value store |
| `AdminVisitors` | `app/admin/visitors/page.tsx` |
| `DashboardData`, `DashboardCounts`, `DashboardHook`, `DashboardRoute`, `AdminPage`, `LiveStream` | the dashboard types and sample feed; the counting and hourly trend, which the hook and the route implement identically and the model writes once; the two loaders; the command centre; and the live-stream panel |
| `Testimonial`, `SendEmail` | `app/testimonial/TestimonialClient.tsx` and `supabase/functions/send-email/index.ts` |

Code that updates state (the session store, the wizard page, the checklist, the dialog, the live-stream panel, the admin session, the visitor log, the dashboard loader, the confirmation page and the testimonial form) is modelled as classes. Each method is specified against functions of the old state: its `ensures` give the fields it changes and say which stay as they were. The check-in page's methods state this over one record of all the page's cells, `PageCells`, so each names its whole new state. The loops of the source keep their `while`/`for` form: the byte copy of the selfie, the hourly buckets, the health-answer merges and the status search of `normalizeStatus` (`Status.FindStatus`). The rest is functions and lemmas.

## Model

| member | source | states |
|---|---|---|
| Status.Aliases | lib/status.ts:5-10 | each status has at least three aliases, none listed twice |
| Status.FirstMatch | lib/status.ts:26-31 | the first status in the given order whose alias list holds the key, or Review when none of them holds it |
| Status.MatchKey | lib/status.ts:26-31 | the alias lookup over the table's key order gives a status that lists the key, or Review when no status lists it |
| Status.NormalizeStatus | lib/status.ts:24-32 | the trimmed, lower-cased value (empty for null or undefined) is an alias of the result, or the result is Review and no status lists it |
| Status.FindStatus | lib/status.ts:24-32 | the loop over the table returns at the first status whose aliases hold the normal key, and Review after the last: the result is `normalizeStatus` |
| Status.ToDbStatus | lib/status.ts:19-22 | the storage form is the label in lower case ("checked-in" for Checked-in) |
| Status.AliasesDisjointApprovedBlocked | lib/status.ts:5-10 | no alias of Approved is an alias of Blocked |
| Status.AliasesDisjointApprovedReview | lib/status.ts:5-10 | no alias of Approved is an alias of Review |
| Status.AliasesDisjointApprovedCheckedIn | lib/status.ts:5-10 | no alias of Approved is an alias of Checked-in |
| Status.AliasesDisjointBlockedReview | lib/status.ts:5-10 | no alias of Blocked is an alias of Review |
| Status.AliasesDisjointBlockedCheckedIn | lib/status.ts:5-10 | no alias of Blocked is an alias of Checked-in |
| Status.AliasesDisjointReviewCheckedIn | lib/status.ts:5-10 | no alias of Review is an alias of Checked-in |
| Status.AliasesDisjoint | lib/status.ts:5-10 | an alias of one status is never an alias of another, so the iteration order of the table cannot change a result |
| Status.ApprovedAliasesClean | lib/status.ts:6 | every Approved alias is non-empty, trimmed, lower-case and free of commas |
| Status.BlockedAliasesClean | lib/status.ts:7 | every Blocked alias is non-empty, trimmed, lower-case and free of commas |
| Status.ReviewAliasesClean | lib/status.ts:8 | every Review alias is non-empty, trimmed, lower-case and free of commas |
| Status.CheckedInAliasesClean | lib/status.ts:9 | every Checked-in alias is non-empty, trimmed, lower-case and free of commas |
| Status.AliasesAreClean | lib/status.ts:5-10 | every alias of every status is non-empty, trimmed, lower-case and free of commas |
| Status.AliasesAreNormal | lib/status.ts:5-10 | trimming and lower-casing an alias leaves it unchanged |
| Status.AliasNormalizes | lib/status.ts:24-32 | normalising any alias of a status gives that status |
| Status.NormalizeStatusSpec | lib/status.ts:24-32 | normalising gives s exactly when the normal key is an alias of s, or s is Review and the key matches no alias |
| Status.EmptyUnmatched | lib/status.ts:5-10 | the empty key is no status's alias |
| Status.NormalizeBlankIsReview | lib/status.ts:25-31 | null, undefined and blank values normalise to Review |
| Status.NormalizeIgnoresCaseAndSpace | lib/status.ts:25 | normalising a value equals normalising its trimmed lower-case form |
| Status.ToDbStatusIsFirstAlias | lib/status.ts:5-22 | the storage form of each status is the first entry of its alias list |
| Status.StorageRoundTrip | lib/status.ts:19-32 | normalising the storage form of a status gives the status back |
| Status.MatchKeyOfAlias | lib/status.ts:26-30 | the alias lookup of an alias of s gives s |
| Status.NormalizeOfNoSpace | lib/status.ts:25-31 | on a value without whitespace, normalising is the alias lookup of its lower-case form |
| Status.LabelHasNoSpace | lib/status.ts:1 | no status label holds whitespace |
| Status.LabelNormalizes | lib/status.ts:1-32 | normalising the capitalised label of a status gives that status |
| Status.NormalizeUnknownIsReview | lib/status.ts:31 | a value outside the table ("archived") normalises to Review |
| Status.IlikeClauses | lib/status.ts:37 | one `column.ilike.value` clause per value, in the same order |
| Status.ClausesHaveNoComma | lib/status.ts:5-37 | no clause built from a status's aliases holds a comma |
| Status.BuildStatusOrFilter | lib/status.ts:34-38 | the filter is never null, and splitting it at its commas gives back exactly one ilike clause per alias, in order |
| Status.StatusBadgeVariant | lib/status.ts:12-17 | Approved is exactly the success badge, Blocked exactly the danger badge and Review exactly the warning badge |
| Status.BadgeVariantInjective | lib/status.ts:12-17 | the badge table gives four different statuses four different variants |
| Status.DisplayStatusLabel | lib/status.ts:40 | the label is "Complete", whatever the status |
| Text.Lower | lib/status.ts:25 | an upper-case ASCII letter moves 32 code points down to its lower-case form; every other character is unchanged |
| Text.ToLower | lib/status.ts:25 | `toLowerCase()` keeps the length and lower-cases each character in place |
| Text.TrimStart | lib/status.ts:25 | the result drops only whitespace from the front and does not start with whitespace |
| Text.TrimEnd | lib/status.ts:25 | the result is a prefix of the input, drops only whitespace from the end, and does not end with whitespace |
| Text.TrimStartOfNonSpace | lib/status.ts:25 | a string that does not start with whitespace is unchanged by dropping leading whitespace |
| Text.TrimEndOfNonSpace | lib/status.ts:25 | a string that does not end with whitespace is unchanged by dropping trailing whitespace |
| Text.TrimEdges | lib/status.ts:25 | a trimmed string neither starts nor ends with whitespace |
| Text.TrimIdempotent | lib/status.ts:25 | `trim()` applied twice is `trim()` applied once |
| Text.BlankIffAllSpace | app/visitor/checkin/page.tsx:158 | `s.trim().length === 0` holds exactly when every character of s is whitespace |
| Text.TrimStartIsSuffix | lib/status.ts:25 | what survives the leading trim is a suffix of the input |
| Text.TrimOfNoSpace | lib/status.ts:25 | a string without whitespace is its own trim |
| Text.ToLowerIdempotent | lib/status.ts:25 | `toLowerCase()` applied twice equals applying it once |
| Text.LowerKeepsSpace | lib/status.ts:25 | lower-casing a character never creates or removes whitespace |
| Text.TrimStartToLower | lib/status.ts:25 | dropping leading whitespace commutes with lower-casing |
| Text.TrimEndToLower | lib/status.ts:25 | dropping trailing whitespace commutes with lower-casing |
| Text.TrimLowerIdempotent | lib/status.ts:25 | `trim().toLowerCase()` is idempotent |
| Text.ToLowerOfNoUpper | lib/status.ts:25 | a string without upper-case letters is its own lower-case form |
| Text.ToLowerOfCapitalised | lib/status.ts:25 | lower-casing a capitalised word changes only its first letter |
| Text.NormalKeyFixpoint | lib/status.ts:25 | a lower-case key without surrounding whitespace is a fixpoint of `trim().toLowerCase()` |
| Text.StripLeading | app/admin/visitors/page.tsx:79 | `replace(/^\/+/, "")` removes exactly the leading run of the character: the result does not start with it |
| Text.StripLeadingIsSuffix | app/admin/visitors/page.tsx:79 | what survives the strip is a suffix of the input |
| Text.StripPrefix | app/admin/visitors/page.tsx:80 | a literal prefix is removed once when present; otherwise the string is unchanged |
| Text.IndexOf | app/visitor/checkin/page.tsx:65 | the index of the first occurrence of the character: it occurs there and not before |
| Text.Split | app/visitor/checkin/page.tsx:65 | `split` always gives at least one part |
| Text.SplitJoin | lib/status.ts:37 | splitting a join on its separator gives the parts back when no part holds the separator |
| Common.MessageOr | app/visitor/checkin/page.tsx:511 | an `Error`'s own message is shown; any other thrown value gives the fallback text |
| Json.Entries | lib/status.ts:26 | the entries of an object are its key/value pairs; other values have none |
| Json.Field | supabase/functions/send-email/index.ts:35 | reading a key of an object gives its value, and gives undefined for a missing key or a non-object |
| Json.StringField | supabase/functions/send-email/index.ts:35 | a field is read as a string exactly when it holds a string |
| Json.BoolField | app/visitor/thanks/ThanksClient.tsx:189 | a field is read as a boolean exactly when it holds a boolean |
| Json.NumField | lib/adminAuth.ts:50 | a field is read as a number exactly when it holds a number |
| AdminAuth.LoginOutcome | lib/adminAuth.ts:13-33 | login succeeds exactly when the trimmed lower-case email is the admin's and the password is one of the two; every failure carries the same message |
| AdminAuth.EmailPaddingIgnored | lib/adminAuth.ts:14 | padding the email does not change the login outcome |
| AdminAuth.PasswordIsExact | lib/adminAuth.ts:20 | a padded or lower-cased password is refused |
| AdminAuth.NatText | lib/adminAuth.ts:29 | the decimal text of a natural number is never empty |
| AdminAuth.IntText | lib/adminAuth.ts:29 | the decimal text of an integer is never empty |
| AdminAuth.RecordItem | lib/adminAuth.ts:25-29 | the stored record is non-empty text that parses back to an object with the admin's email and the login time |
| AdminAuth.Lookup | lib/adminAuth.ts:40 | reading the `adminAuth` key gives its stored item, or nothing when the key is absent |
| AdminAuth.DigitsValue | lib/adminAuth.ts:53 | only a non-empty run of decimal digits has a numeric value |
| AdminAuth.DigitsValueOnlyDigits | lib/adminAuth.ts:53 | a string with a digit value holds only decimal digits |
| AdminAuth.DigitsValueOfNatText | lib/adminAuth.ts:29 | the digit value of the decimal text of a natural number is that number |
| AdminAuth.NatTextDigits | lib/adminAuth.ts:29 | the decimal text of a natural number holds only digits |
| AdminAuth.StringToNumber | lib/adminAuth.ts:53 | `Number` of a string never throws, and a blank string is 0 |
| AdminAuth.StringWithOtherCharIsNaN | lib/adminAuth.ts:53 | a string holding a character that is not whitespace, a digit or a sign is NaN |
| AdminAuth.StringToNumberOfIntText | lib/adminAuth.ts:53 | `Number(String(n))` is n for every integer |
| AdminAuth.JoinedTextIsNaN | lib/adminAuth.ts:53 | an array of two or more elements joins to text with a comma, so it is NaN |
| AdminAuth.ToNumber | lib/adminAuth.ts:53 | `Number` of undefined is NaN, of null 0, of a number, boolean or string its value; an object is NaN, or throws when it has an own `toString`; `[]` is 0, a one-element array of a number or a string is that element's value, and a longer array is never a number |
| AdminAuth.CheckAsWritten | lib/adminAuth.ts:35-63 | the session check as written: no stored value means not signed in; a present value that does not parse, or parses to `null`, is removed; a record whose email is not the admin's is rejected; it passes exactly for a record with the admin's email whose coerced timestamp is NaN or at most eight hours old; an older one, or one whose coercion throws, is removed |
| AdminAuth.AsWrittenNeverExpires | lib/adminAuth.ts:50-54 | as written, a stored record holding the admin's email and no timestamp passes the check at every time |
| AdminAuth.AsWrittenCoercesTimestamp | lib/adminAuth.ts:53-56 | as written, a timestamp stored as `[5]` or `"5"` is coerced to 5 and expires like the number |
| AdminAuth.AsWrittenNonNumericTimestamps | lib/adminAuth.ts:50-61 | as written, a non-numeric text timestamp never expires, and one whose coercion throws removes the record |
| AdminAuth.CheckRecord | lib/adminAuth.ts:35-63 | as intended, the check passes only for a parsed record with the admin's email and a numeric timestamp at most eight hours old; no stored value means not signed in |
| AdminAuth.ChecksAgreeOnNumericTimestamps | lib/adminAuth.ts:46-58 | the as-written and intended checks agree on every record whose timestamp is a number |
| AdminAuth.SessionLifetime | lib/adminAuth.ts:53-58 | a record written at login time t passes at time now exactly when now - t is at most eight hours, and is removed afterwards |
| AdminAuth.EightHourBoundary | lib/adminAuth.ts:53-56 | 28 800 000 ms after login the session is valid; one millisecond later it is removed |
| AdminAuth.AdminSession.constructor | lib/adminAuth.ts:5 | the session starts from the given browser store |
| AdminAuth.AdminSession.Login | lib/adminAuth.ts:13-33 | the result is the credential check, a success writes the record under `adminAuth`, and a failure leaves the store unchanged |
| AdminAuth.AdminSession.IsAuthenticated | lib/adminAuth.ts:35-63 | the answer is the check as written on the stored item; a removed record, including one that does not parse or parses to `null`, is deleted from the store; a stored value without the admin's email that parses is kept; nothing else changes |
| AdminAuth.AdminSession.Logout | lib/adminAuth.ts:65-69 | the `adminAuth` key is removed and nothing else changes |
| AdminAuth.LoginThenCheck | lib/adminAuth.ts:13-58 | after a successful login the check as written passes exactly while at most eight hours have passed, and then removes the record, whatever the store held before |
| Base64.CharOf | app/visitor/checkin/page.tsx:66 | every 6-bit value has a character of the base64 alphabet |
| Base64.ValueOf | app/visitor/checkin/page.tsx:66 | every alphabet character has a 6-bit value, and that value maps back to the character |
| Base64.ValueOfCharOf | app/visitor/checkin/page.tsx:66 | the alphabet is a bijection: the value of the character of v is v |
| Base64.GroupLengthMod | app/visitor/checkin/page.tsx:366 | one more group of four characters keeps the length modulo 4 |
| Base64.TripleLengthMod | app/visitor/checkin/page.tsx:366 | three more bytes keep the byte count modulo 3 |
| Base64.StripWhitespace | app/visitor/checkin/page.tsx:66 | `atob` first drops ASCII whitespace: none remains, and a string without whitespace is unchanged |
| Base64.StripPadding | app/visitor/checkin/page.tsx:66 | when the length is a multiple of four, one or two final `=` are dropped; otherwise nothing is |
| Base64.DecodeGroupOf | app/visitor/checkin/page.tsx:66 | four alphabet characters decode to three bytes |
| Base64.DecodeTailOf | app/visitor/checkin/page.tsx:66 | a final group of two or three characters decodes to one or two bytes |
| Base64.Decode | app/visitor/checkin/page.tsx:66 | `atob` succeeds exactly when, after whitespace and padding are removed, every character is in the alphabet and the length is not 1 more than a multiple of four |
| Base64.Atob | app/visitor/checkin/page.tsx:66 | the binary string has one character per decoded byte, with that byte's code, and fails exactly when decoding fails |
| Base64.EncodeBody | app/visitor/checkin/page.tsx:366 | the unpadded encoding uses only the alphabet, and its length modulo 4 follows the byte count modulo 3 |
| Base64.PaddingOf | app/visitor/checkin/page.tsx:366 | the padding completes the last group of three bytes |
| Base64.Encode | app/visitor/checkin/page.tsx:366 | the padded encoding of a capture has a length that is a multiple of four |
| Base64.PaddedLength | app/visitor/checkin/page.tsx:366 | the padding brings a body of the right length to a multiple of four |
| Base64.DecodeGroup | app/visitor/checkin/page.tsx:66 | regrouping the four 6-bit values of three bytes gives the three bytes back |
| Base64.DecodeTail | app/visitor/checkin/page.tsx:66 | regrouping the 6-bit values of one or two final bytes gives them back |
| Base64.Quad | app/visitor/checkin/page.tsx:366 | three bytes encode to four alphabet characters |
| Base64.AlphabetConcat | app/visitor/checkin/page.tsx:366 | two strings of alphabet characters concatenate to one |
| Base64.DecodeCharsStep | app/visitor/checkin/page.tsx:66 | decoding a string of four or more characters decodes its first group and then the rest |
| Base64.DecodeGroupOfQuad | app/visitor/checkin/page.tsx:66 | a full encoded group decodes to the three bytes it encodes |
| Base64.DecodeQuad | app/visitor/checkin/page.tsx:66 | decoding an encoded group followed by more characters gives its three bytes followed by the rest's decoding |
| Base64.EncodeBodyStep | app/visitor/checkin/page.tsx:366 | the encoding of three or more bytes is the group of the first three followed by the encoding of the rest |
| Base64.DecodeTailOfOne | app/visitor/checkin/page.tsx:66 | the two characters that encode one final byte decode to it |
| Base64.DecodeTailOfTwo | app/visitor/checkin/page.tsx:66 | the three characters that encode two final bytes decode to them |
| Base64.DecodeShort | app/visitor/checkin/page.tsx:66 | a string shorter than a group decodes as a final group |
| Base64.DecodeBodyOfOne | app/visitor/checkin/page.tsx:66 | the unpadded encoding of one byte decodes to it |
| Base64.DecodeBodyOfTwo | app/visitor/checkin/page.tsx:66 | the unpadded encoding of two bytes decodes to them |
| Base64.DecodeEncodeBody | app/visitor/checkin/page.tsx:66 | decoding the unpadded encoding of any bytes gives the bytes back |
| Base64.EncodeHasNoWhitespace | app/visitor/checkin/page.tsx:366 | no encoding holds whitespace, so the whitespace step of `atob` leaves it alone |
| Base64.DecodeEncode | app/visitor/checkin/page.tsx:66 | round trip: `atob` of the padded encoding of any bytes succeeds and gives the bytes back |
| Selfie.MimeRun | app/visitor/checkin/page.tsx:60 | the greedy `[a-zA-Z+\-\.]+` run: every character it covers is a MIME character and the one after it is not |
| Selfie.MatchDataUrl | app/visitor/checkin/page.tsx:60 | a URL not starting with `data:image/` never matches; a match gives `image/` and a non-empty run of MIME characters as the first group, a non-empty payload without line terminators as the second, and the URL is rebuilt from them |
| Selfie.MatchDataUrlSound | app/visitor/checkin/page.tsx:60 | every match found is a parse of the URL by the pattern |
| Selfie.MatchOfParts | app/visitor/checkin/page.tsx:60-64 | a URL built from a subtype and a payload matches with `image/<subtype>` and that payload as its two groups |
| Selfie.MatchDataUrlComplete | app/visitor/checkin/page.tsx:60-64 | every parse by the pattern is the match found, so the pattern has at most one parse per URL |
| Selfie.MimeRunOfPrefix | app/visitor/checkin/page.tsx:60 | the MIME run of a subtype followed by `;` stops exactly at the `;` |
| Selfie.SplitMimeType | app/visitor/checkin/page.tsx:65 | `image/<sub>` splits at `/` into `image` and the subtype |
| Selfie.ExtensionOf | app/visitor/checkin/page.tsx:65 | the extension is never empty: the subtype without `+`, the part before the first `+`, or `jpg` when that part is empty |
| Selfie.Uint8Of | app/visitor/checkin/page.tsx:67-70 | the byte array has one entry per character of the binary string |
| Selfie.SelfieSpec | app/visitor/checkin/page.tsx:59-76 | an invalid data URL error comes exactly from a URL the pattern rejects; a success carries the matched MIME type as content type |
| Selfie.CopyBytes | app/visitor/checkin/page.tsx:67-70 | the loop fills the array with the low eight bits of each character code |
| Selfie.ParseSelfieDataUrl | app/visitor/checkin/page.tsx:59-76 | the parser returns or throws what the specification of the selfie parse gives |
| Selfie.SelfieBytesAreDecoded | app/visitor/checkin/page.tsx:66-70 | the bytes of a parsed selfie are exactly the base64 payload decoded; the eight-bit copy loses nothing |
| Selfie.CopyLosesNothing | app/visitor/checkin/page.tsx:66-70 | copying the binary string of a successful `atob` into bytes gives exactly the decoded bytes |
| Selfie.InvalidUrlIffNoPattern | app/visitor/checkin/page.tsx:60-63 | the invalid data URL error is thrown exactly when no division of the URL fits the pattern |
| Selfie.EncodeHasNoLineTerminator | app/visitor/checkin/page.tsx:60 | an encoding holds no line terminator, so the `.+` group covers all of it |
| Selfie.EncodeNonEmpty | app/visitor/checkin/page.tsx:366 | the encoding of non-empty bytes is non-empty, so a capture always has a payload |
| Selfie.ParseOfEncoded | app/visitor/checkin/page.tsx:59-76 | round trip: the data URL of non-empty captured bytes parses back to those bytes, its MIME type and its extension |
| Selfie.ExtensionExamples | app/visitor/checkin/page.tsx:65 | `image/jpeg` gives `jpeg`, `image/svg+xml` gives `svg`, and `image/+xml` falls back to `jpg` |
| SelfieStorage.StoragePath | app/admin/visitors/page.tsx:77-82 | the storage path is what follows the leading slashes, with one `visitor-selfies/` prefix removed when present |
| SelfieStorage.LookupUrl | app/admin/visitors/page.tsx:96-104 | a non-empty public URL wins; otherwise a failed signed-URL request gives null and a successful one its URL |
| SelfieStorage.StoragePathOfStoredPath | app/admin/visitors/page.tsx:77-82 | a `selfies/...` path as the check-in page stores it is its own storage path |
| SelfieStorage.StoragePathOfQualified | app/admin/visitors/page.tsx:79-80 | `/visitor-selfies/<path>` loses both the slash and the bucket prefix |
| CheckinRules.ShapeGivesPattern | app/visitor/checkin/page.tsx:154 | every string of the direct email shape matches `^[^\s@]+@[^\s@]+\.[^\s@]+$` |
| CheckinRules.PlainOfSlice | app/visitor/checkin/page.tsx:154 | every character of a part of a whitespace-free address that avoids every `@` is in the pattern's class `[^\s@]` |
| CheckinRules.PatternGivesShape | app/visitor/checkin/page.tsx:154 | every division of a string that fits the email pattern makes it a string of the direct email shape |
| CheckinRules.EmailShapeIffPattern | app/visitor/checkin/page.tsx:154 | the direct check accepts exactly the strings the email pattern matches |
| CheckinRules.IsEmailValid | app/visitor/checkin/page.tsx:152-155 | a valid email has no whitespace once trimmed and holds an `@` |
| CheckinRules.EmailValidIff | app/visitor/checkin/page.tsx:152-155 | the email is valid exactly when its trim is non-empty and matches the pattern |
| CheckinRules.EmailAccepted | app/visitor/checkin/page.tsx:152-155 | `a@b.co` is accepted |
| CheckinRules.EmailWithoutDotRejected | app/visitor/checkin/page.tsx:152-155 | `a@b`, with no dot in the domain, is rejected |
| CheckinRules.EmailWithoutLocalPartRejected | app/visitor/checkin/page.tsx:152-155 | `@b.co`, with an empty local part, is rejected |
| CheckinRules.IdentityComplete | app/visitor/checkin/page.tsx:157-160 | a complete identity has a name and a mobile that are not all whitespace, and a trimmed email without whitespace that holds an `@` |
| CheckinRules.VisitDetailsComplete | app/visitor/checkin/page.tsx:162-170 | complete visit details have a host that is not all whitespace, and a free-text purpose that is not all whitespace when the purpose is Other; any other purpose with a host is complete |
| CheckinRules.SelfieComplete | app/visitor/checkin/page.tsx:172 | a complete selfie is a present, non-empty snapshot; the empty string is not one |
| CheckinRules.FlagsOf | app/visitor/checkin/page.tsx:157-173 | identity needs a non-blank name, a non-blank mobile and a valid email; visit details need a host and, for Other, a purpose; the selfie needs a non-empty snapshot |
| CheckinRules.IsAllComplete | app/visitor/checkin/page.tsx:181 | the wizard is complete exactly when sections 0, 1, 3, 4 and 5 are; the health section takes no part |
| CheckinRules.IsSectionComplete | app/visitor/checkin/page.tsx:280-291 | the health section (index 2) is always complete, and an index outside 0..5 never is |
| CheckinRules.AllSectionsIffAllComplete | app/visitor/checkin/page.tsx:280-291 | every section 0..5 is complete exactly when all five flags hold (health is always complete) |
| CheckinRules.FirstIncompleteFrom | app/visitor/checkin/page.tsx:303-306 | the search from index k finds the least incomplete index at or after k, or none when all of them are complete |
| CheckinRules.FirstIncompleteSection | app/visitor/checkin/page.tsx:303-306 | the result is the least incomplete section of 0..5, or none when every section is complete |
| CheckinRules.FirstIncompleteSpec | app/visitor/checkin/page.tsx:303-306 | there is no incomplete section exactly when the wizard is complete, and the health section is never the one reported |
| CheckinRules.CountTrue | app/visitor/checkin/page.tsx:177-178 | at most five flags are counted, and five exactly when all hold |
| CheckinRules.RoundDiv | app/visitor/checkin/page.tsx:178 | `Math.round(n / d)` for non-negative n: the nearest integer, halves rounded up |
| CheckinRules.CompletionPercent | app/visitor/checkin/page.tsx:176-179 | the percentage is 20 per completed flag, at most 100, and 100 exactly when the wizard is complete |
| CheckinRules.HealthAlert | app/visitor/checkin/page.tsx:174 | the default answers, all "no", raise no health alert |
| CheckinRules.HintFor | app/visitor/checkin/page.tsx:183-236 | the ready hint shows exactly when identity, visit details, selfie and consent pass and no health answer is yes |
| CheckinRules.HintSection | app/visitor/checkin/page.tsx:188-232 | every hint points at section 0, 1, 2, 3 or 5, never at the site norms |
| CheckinRules.HintTone | app/visitor/checkin/page.tsx:189-233 | the success tone belongs to the ready hint alone |
| CheckinRules.HintTitle | app/visitor/checkin/page.tsx:183-236 | every hint has a title, and "Health flags detected" is the health alert's alone |
| CheckinRules.HintDetail | app/visitor/checkin/page.tsx:183-236 | every hint has a detail text, and the "All sections are aligned" text is the ready hint's alone |
| CheckinRules.HintButton | app/visitor/checkin/page.tsx:183-236 | every hint has a button label, and "Submit now" is the ready hint's alone |
| CheckinRules.ReadyTitleOnlyWhenReady | app/visitor/checkin/page.tsx:186-230 | only the ready hint carries the title "Ready for the gate" |
| CheckinRules.SmartHint | app/visitor/checkin/page.tsx:183-236 | the hint targets section 0, 1, 2, 3 or 5, and its tone is success exactly when every check it reads passes |
| CheckinRules.SmartHintReadyTitle | app/visitor/checkin/page.tsx:183-236 | the ready title shows exactly when every check the hint reads passes |
| CheckinRules.SmartHintIgnoresSiteNorms | app/visitor/checkin/page.tsx:183-236 | the hint does not depend on the site-norms flag |
| CheckinRules.ReadyWithNormsUnchecked | app/visitor/checkin/page.tsx:229-235 | with the site norms unchecked and everything else done, the hint says ready while the wizard is not complete |
| CheckinRules.SmartHintTargetsIncomplete | app/visitor/checkin/page.tsx:183-228 | a non-success hint other than the health alert points at a section that is incomplete |
| CheckinRules.HintTargetsIncomplete | app/visitor/checkin/page.tsx:183-228 | the same on the hint's kind: a non-success, non-health hint's section is incomplete |
| CheckinRules.SmartHintPrecedence | app/visitor/checkin/page.tsx:184-219 | the hint targets the earliest failing check in the order identity, visit details, health alert, selfie |
| CheckinPage.SectionOfTarget | app/visitor/checkin/page.tsx:139-150 | every focusable input lies in one of the six sections |
| CheckinPage.FocusTargetAsWritten | app/visitor/checkin/page.tsx:250-273 | as written, index 4 (the site norms) focuses the consent checkbox and index 5 (consent) focuses nothing |
| CheckinPage.FocusAsWrittenLeavesItsSection | app/visitor/checkin/page.tsx:268-270 | as written, the input focused for the site-norms section lies outside it, and the consent section gets no focus |
| CheckinPage.FocusTargetFor | app/visitor/checkin/page.tsx:250-273 | corrected: index 5 focuses the consent checkbox; indices 0 and 1 focus their first failing input |
| CheckinPage.FocusTargetInSection | app/visitor/checkin/page.tsx:250-273 | corrected: the focused input always lies in the section being fixed; identity and consent always get one, an incomplete visit-details section does too, and a bad email is focused before the mobile |
| CheckinPage.TargetRef | app/visitor/checkin/page.tsx:241 | `scrollToSection` looks up a ref exactly for the six section indices |
| CheckinPage.RenderedRef | app/visitor/checkin/page.tsx:741-751 | as written, every section but the site norms is rendered with the ref `scrollToSection` looks up for it; the site-norms section (index 4) gets `consentRef`, and no section gets `siteNormsRef` |
| CheckinPage.ScrollTargetsAsWritten | app/visitor/checkin/page.tsx:741-751 | as written, every section but the site norms (index 4) has an attached element to scroll to; `siteNormsRef` is declared but never attached |
| CheckinPage.ScrollToSiteNormsIsNoOp | app/visitor/checkin/page.tsx:240-248 | as written, scrolling to the site norms keeps the active section, and scrolling to any other section makes it active |
| CheckinPage.EverySectionScrollable | app/visitor/checkin/page.tsx:139-144 | corrected: with every section rendered with its own ref, exactly the six section indices have a scroll target |
| CheckinPage.CameraFailureMessage | app/visitor/checkin/page.tsx:339-347 | a denied or insecure request, a missing device, any other `DOMException` and any other failure each get their own message, both ways |
| CheckinPage.SelfiePath | app/visitor/checkin/page.tsx:426 | the uploaded object is `selfies/<uuid>.<extension>` |
| CheckinPage.SnapshotParse | app/visitor/checkin/page.tsx:424-425 | the snapshot is parsed exactly when it is present and non-empty, with the selfie parser |
| CheckinPage.UploadFor | app/visitor/checkin/page.tsx:426-429 | the upload goes to the `visitor-selfies` bucket under the selfie path, with the parsed content type and bytes |
| CheckinPage.ParseFailureMessage | app/visitor/checkin/page.tsx:62 | a bad data URL shows "Invalid selfie data URL."; a bad payload shows what `atob` threw |
| CheckinPage.BuildPayload | app/visitor/checkin/page.tsx:395-418 | the payload has the status `review` and an entry lane that is never empty |
| CheckinPage.BuildPayloadSpec | app/visitor/checkin/page.tsx:395-418 | the payload holds the trimmed texts; a blank company is left out; non-blank free text replaces the purpose Other; notes exist exactly for Other; an empty lane becomes the first lane option |
| CheckinPage.RecordOf | app/visitor/checkin/page.tsx:441-459 | the row carries the uploaded path, the payload's status and the stored date; empty purpose notes become null |
| CheckinPage.ReviewStatusStored | app/visitor/checkin/page.tsx:417-457 | a new visit is stored as `toDbStatus("Review")`, which reads back as Review |
| CheckinPage.FunctionUrl | app/visitor/checkin/page.tsx:483 | the email function URL ends with `/functions/v1/send-email`, after the project URL with at most one trailing slash removed, and one is removed exactly when the URL ends with `/` |
| CheckinPage.TestimonialLink | app/visitor/checkin/page.tsx:96-100 | the link is the origin, then `/testimonial?visitId=`, then the visit id, which ends it; an empty origin gives the path alone |
| CheckinPage.ThanksRoute | app/visitor/checkin/page.tsx:509 | the route starts with `/visitor/thanks?visitId=` and the id, and continues with `&email=failed` exactly when the email failed |
| CheckinPage.EmailStep | app/visitor/checkin/page.tsx:474-506 | no email request without both public variables; the email fails exactly when unsent or not acknowledged; the request carries the trimmed email, the name and the testimonial link of the new id |
| CheckinPage.AfterInsert | app/visitor/checkin/page.tsx:463-509 | the steps after the insert only add requests after the ones already sent |
| CheckinPage.SubmitPipeline | app/visitor/checkin/page.tsx:420-515 | the pipeline ends in exactly one of two ways: the flow is submitted and no error shows, or an error shows; a submitted flow has navigation as its last request |
| CheckinPage.SubmittedIffInsertSucceeds | app/visitor/checkin/page.tsx:420-515 | the flow is marked submitted, and no error is shown, exactly when the client, the parse, the upload and the insert all succeed |
| CheckinPage.EarlyFailureSendsNothing | app/visitor/checkin/page.tsx:421-425 | a client or parse failure sends no request, leaves the flow unsubmitted and shows the thrown message |
| CheckinPage.UploadFailureAborts | app/visitor/checkin/page.tsx:427-432 | a failed upload stops the pipeline after the upload request and shows its message |
| CheckinPage.InsertFailureAborts | app/visitor/checkin/page.tsx:463-471 | a failed insert, or one without an id, ends with the insert as the last request and shows its message or "Unable to save visit." |
| CheckinPage.UploadThenInsertWithPath | app/visitor/checkin/page.tsx:424-467 | the selfie upload comes first and the inserted row stores its storage path |
| CheckinPage.EmailIsBestEffort | app/visitor/checkin/page.tsx:473-509 | after a successful insert the flow is submitted with no error, and the last request goes to the thanks page, flagged `&email=failed` exactly when the email failed |
| CheckinPage.EmailDoesNotAffectInsert | app/visitor/checkin/page.tsx:474-509 | changing the email environment or the email's fate changes neither the submitted flag nor the error |
| CheckinPage.CheckinPage.constructor | app/visitor/checkin/page.tsx:125-134 | the page starts on section 0 with an idle camera and no messages, highlight, stream or requests |
| CheckinPage.CheckinPage.ScrollToSection | app/visitor/checkin/page.tsx:240-248 | an index whose ref holds an element becomes the active section; for any other index, including 4 as written, no page cell changes |
| CheckinPage.CheckinPage.HighlightSection | app/visitor/checkin/page.tsx:275-278 | the highlighted section becomes the index, and no other page cell or the flow changes |
| CheckinPage.CheckinPage.HighlightExpired | app/visitor/checkin/page.tsx:277 | the timer clears the highlight, and no other page cell or the flow changes |
| CheckinPage.CheckinPage.HandleInvalidSection | app/visitor/checkin/page.tsx:293-301 | the section is scrolled to as `scrollToSection` does, highlighted, and its input focused as written (the previous focus stays when there is none), and the validation message shows; no other page cell or the flow changes |
| CheckinPage.CheckinPage.RejectIncomplete | app/visitor/checkin/page.tsx:385-390 | an incomplete form goes to its first incomplete section as `handleInvalidSection` does, and nothing else changes: no request is sent |
| CheckinPage.CheckinPage.SubmitComplete | app/visitor/checkin/page.tsx:420-515 | the pipeline's requests are appended and its error shown, the message cleared and saving ended; the flow is marked submitted when the insert succeeded; no other page cell or flow field changes |
| CheckinPage.CheckinPage.HandleSubmit | app/visitor/checkin/page.tsx:384-537 | an incomplete form only goes to its first incomplete section; a complete one runs the pipeline on the payload and the parsed snapshot, and saving ends; the visitor's entries never change |
| CheckinPage.CheckinPage.HandleNext | app/visitor/checkin/page.tsx:539-566 | the message is cleared; while saving nothing else changes; an incomplete form goes to its first incomplete section; a complete one is submitted; the visitor's entries never change |
| CheckinPage.CheckinPage.HandleBack | app/visitor/checkin/page.tsx:568-571 | Back scrolls to the section above, never above the first, as `scrollToSection` does; nothing else changes |
| CheckinPage.CheckinPage.NextButtonDisabled | app/visitor/checkin/page.tsx:573 | before the last section Next is disabled exactly while saving; a complete form that is not being saved can always go on |
| CheckinPage.CheckinPage.BackButtonDisabled | app/visitor/checkin/page.tsx:1167 | Back is disabled only on the first section, where it would stay put anyway |
| CheckinPage.CheckinPage.CaptureEnabled | app/visitor/checkin/page.tsx:1040 | Capture is enabled only with an active camera, which holds a stream and shows no error |
| CheckinPage.CheckinPage.StartCamera | app/visitor/checkin/page.tsx:308-322 | an unsupported or insecure context fails with its message; otherwise the old stream is stopped and the camera is starting; nothing else changes |
| CheckinPage.CheckinPage.CameraSettled | app/visitor/checkin/page.tsx:323-350 | a granted stream becomes current and active with no error; a failure shows the message for it and keeps the old stream reference; nothing else changes |
| CheckinPage.CheckinPage.HandleCapture | app/visitor/checkin/page.tsx:353-368 | with a video and a drawing context the captured data URL becomes the snapshot; otherwise nothing changes; no other flow field changes |
| CheckinPage.CheckinPage.HandleRetake | app/visitor/checkin/page.tsx:370-373 | the snapshot is cleared and the camera restarts as `startCamera` does; no other flow field changes |
| CheckinPage.CheckinPage.DefaultLaneEffect | app/visitor/checkin/page.tsx:375-382 | an empty entry lane becomes the first lane option and a set one is kept; no other visit detail or flow field changes |
| CheckinPage.CheckinPage.SetAllNormsAccepted | app/visitor/checkin/page.tsx:134 | the site-norms flag takes the checklist's value, and nothing else changes |
| CheckinPage.CheckinPage.Unmount | app/visitor/checkin/page.tsx:587-593 | the current stream is stopped and the reference cleared; nothing else changes |
| VisitorFlow.DefaultHealth | components/visitor/VisitorFlowProvider.tsx:13-52 | the default answers cover exactly the six questions, all "no" |
| VisitorFlow.HealthQuestionsDistinct | components/visitor/VisitorFlowProvider.tsx:13-52 | the six question keys are pairwise different |
| VisitorFlow.DefaultVisitDetails | components/visitor/VisitorFlowProvider.tsx:107-114 | the default visit is a meeting of priority 48 with empty host, free text and lane, dated now |
| VisitorFlow.MergeIdentity | components/visitor/VisitorFlowProvider.tsx:138-139 | each field the payload gives replaces the old one; each field it leaves out is kept |
| VisitorFlow.MergeVisitDetails | components/visitor/VisitorFlowProvider.tsx:140-141 | each field the payload gives replaces the old one; each field it leaves out is kept |
| VisitorFlow.MergeIdentityIdempotent | components/visitor/VisitorFlowProvider.tsx:138-139 | merging the same payload twice is merging it once |
| VisitorFlow.MergeIdentityEmpty | components/visitor/VisitorFlowProvider.tsx:138-139 | the empty payload changes nothing |
| VisitorFlow.MergeVisitDetailsIdempotent | components/visitor/VisitorFlowProvider.tsx:140-141 | merging the same visit payload twice is merging it once |
| VisitorFlow.FlowStore.constructor | components/visitor/VisitorFlowProvider.tsx:98-128 | the store starts from the default identity, visit details and answers, with no selfie, no consent and not submitted |
| VisitorFlow.FlowStore.UpdateIdentity | components/visitor/VisitorFlowProvider.tsx:138-139 | the identity becomes the merge of the payload; nothing else changes |
| VisitorFlow.FlowStore.UpdateVisitDetails | components/visitor/VisitorFlowProvider.tsx:140-141 | the visit details become the merge of the payload; nothing else changes |
| VisitorFlow.FlowStore.UpdateHealth | components/visitor/VisitorFlowProvider.tsx:142-143 | one answer is replaced, the six keys are kept, and nothing else changes |
| VisitorFlow.FlowStore.UpdateSelfie | components/visitor/VisitorFlowProvider.tsx:144 | the snapshot is replaced, or cleared by null; nothing else changes |
| VisitorFlow.FlowStore.UpdateConsent | components/visitor/VisitorFlowProvider.tsx:145 | the consent takes the value; nothing else changes |
| VisitorFlow.FlowStore.MarkSubmitted | components/visitor/VisitorFlowProvider.tsx:146 | the submitted flag becomes true; nothing else changes |
| VisitorFlow.UpdateHealthKeepsOthers | components/visitor/VisitorFlowProvider.tsx:142-143 | updating one answer keeps the key set and every other answer |
| VisitorFlow.UseVisitorFlow | components/visitor/VisitorFlowProvider.tsx:154-160 | outside a provider the hook throws its message; inside it gives the provider's store |
| Toggles.Toggle | components/visitor/SiteNormsChecklist.tsx:35-37 | the toggle keeps the length, flips the entry at the index and keeps every other entry |
| Toggles.ToggleTwice | components/visitor/SiteNormsChecklist.tsx:35-37 | toggling the same entry twice restores the flags |
| Toggles.ToggleOutOfRange | components/visitor/SiteNormsChecklist.tsx:36 | an index outside the array changes nothing |
| Toggles.EveryIffAll | components/visitor/SiteNormsChecklist.tsx:29 | `every(Boolean)` holds exactly when every entry is true |
| Toggles.AllFalse | components/visitor/SiteNormsChecklist.tsx:27 | the initial flags have one false entry per item |
| Toggles.EveryOfAllFalse | components/visitor/SiteNormsChecklist.tsx:27-29 | a non-empty list of unchecked flags is not all accepted |
| Toggles.ToggleCheckedBreaksEvery | components/visitor/SiteNormsChecklist.tsx:29-37 | unchecking an entry leaves the list not all accepted |
| Toggles.ToggleCompletes | components/visitor/SiteNormsChecklist.tsx:29-37 | one toggle completes the list exactly when it checks the only unchecked entry |
| SiteNorms.Checklist.constructor | components/visitor/SiteNormsChecklist.tsx:17-33 | the six norms start unchecked and `false` is reported to the parent once |
| SiteNorms.Checklist.Toggle | components/visitor/SiteNormsChecklist.tsx:31-37 | the entry is flipped, and the parent is told the new `allAccepted` only when it changed |
| SiteNorms.ReportedMeansAllChecked | components/visitor/SiteNormsChecklist.tsx:29-33 | the value last reported to the parent is true exactly when all six norms are checked |
| HygieneModal.Modal.View | components/HygieneRulesModal.tsx:54-56 | a closed dialog renders nothing; an open one shows the rule boxes, a confirm button enabled exactly when confirmation is allowed, and "Submitting..." while submitting |
| HygieneModal.Modal.constructor | components/HygieneRulesModal.tsx:19-48 | the dialog mounts with every box unchecked, calls neither callback, and saves the page's scroll style |
| HygieneModal.Modal.SetOpen | components/HygieneRulesModal.tsx:23-48 | opening resets every box and saves and locks the scroll; closing restores the saved style; nothing else changes |
| HygieneModal.Modal.Unmount | components/HygieneRulesModal.tsx:41-48 | unmounting restores the scroll style saved when the dialog opened; nothing else changes |
| HygieneModal.Modal.SetSubmitting | components/HygieneRulesModal.tsx:7-19 | only the submitting prop changes |
| HygieneModal.Modal.ToggleRule | components/HygieneRulesModal.tsx:50-86 | the rule's box is flipped; nothing else changes |
| HygieneModal.Modal.RuleKeyDown | components/HygieneRulesModal.tsx:87-92 | Enter and Space toggle the rule; any other key changes nothing |
| HygieneModal.Modal.SetChecked | components/HygieneRulesModal.tsx:114-120 | only the confirmation box changes, to the given value |
| HygieneModal.Modal.DocumentKeyDown | components/HygieneRulesModal.tsx:30-39 | Escape calls `onClose` once while the dialog is open; any other key, or a closed dialog, calls nothing |
| HygieneModal.Modal.ClickClose | components/HygieneRulesModal.tsx:64 | a click on the backdrop or Cancel calls `onClose` once while the dialog is open |
| HygieneModal.Modal.ClickConfirm | components/HygieneRulesModal.tsx:134-141 | a click calls `onConfirm` once exactly when the dialog is open and the button enabled |
| HygieneModal.ConfirmEnabledIff | components/HygieneRulesModal.tsx:137 | confirm is enabled exactly when the box is checked, all six rules are checked and nothing is being submitted |
| HygieneModal.TogglingEachRuleChecksAll | components/HygieneRulesModal.tsx:21-54 | toggling each of the unchecked rules once checks them all |
| HygieneModal.ToggleAll | components/HygieneRulesModal.tsx:50-52 | toggling a run of rules in turn keeps the number of rules |
| HygieneModal.ToggleAllSpec | components/HygieneRulesModal.tsx:50-52 | after toggling rules 0 to k-1 in turn, exactly those rules are flipped |
| Testimonial.CanSubmit | app/testimonial/TestimonialClient.tsx:20-25 | a sendable form has a visit id, a non-blank comment and an `@` in the trimmed email |
| Testimonial.CanSubmitIff | app/testimonial/TestimonialClient.tsx:20-25 | the form can be sent exactly when there is a visit id, the comment is not blank and the trimmed email is non-empty and matches the email pattern |
| Testimonial.CanSubmitIgnoresPadding | app/testimonial/TestimonialClient.tsx:21-22 | padding the comment or the email does not change the gate |
| Testimonial.RowOf | app/testimonial/TestimonialClient.tsx:36-41 | the row carries the visit id, the trimmed email, the rating and the trimmed comment |
| Testimonial.RowOfSubmittable | app/testimonial/TestimonialClient.tsx:20-41 | a row the gate lets through has a visit id, a non-blank comment and a valid email |
| Testimonial.TestimonialForm.constructor | app/testimonial/TestimonialClient.tsx:12-18 | the form starts empty with the link's visit id, or "" without one, and no rating, error or success |
| Testimonial.TestimonialForm.SetEmail | app/testimonial/TestimonialClient.tsx:97 | only the email changes |
| Testimonial.TestimonialForm.SetComment | app/testimonial/TestimonialClient.tsx:136 | only the comment changes |
| Testimonial.TestimonialForm.SelectRating | app/testimonial/TestimonialClient.tsx:105-109 | a rating button sets a rating of 1 to 5; nothing else changes |
| Testimonial.TestimonialForm.ClearRating | app/testimonial/TestimonialClient.tsx:121 | Clear removes the rating; nothing else changes |
| Testimonial.TestimonialForm.BeginSubmit | app/testimonial/TestimonialClient.tsx:27-41 | a gated or in-flight form changes nothing and sends nothing; otherwise the flags are reset, submitting starts and the row is sent |
| Testimonial.TestimonialForm.FinishSubmit | app/testimonial/TestimonialClient.tsx:43-55 | success shows the thanks and clears the comment and rating; failure shows the message of what was thrown and keeps the fields; submitting always ends |
| Testimonial.ClearedCommentBlocksResubmit | app/testimonial/TestimonialClient.tsx:24-48 | the cleared comment blocks the gate until a new one is typed |
| Thanks.IsVisitRow | app/visitor/thanks/ThanksClient.tsx:39-43 | a visit row is an object with an `id` |
| Thanks.IsVisitRowIff | app/visitor/thanks/ThanksClient.tsx:39-43 | a value is a visit row exactly when it is an object whose `id` is a string |
| Thanks.MergedHealth | app/visitor/thanks/ThanksClient.tsx:45-58 | the merged answers have exactly the base's questions; a question the row answers takes the truthiness of that answer, any other keeps the base's |
| Thanks.NormalizeHealthAnswers | app/visitor/thanks/ThanksClient.tsx:45-58 | walking the row's entries one by one gives the merged answers |
| Thanks.MergedHealthOfNothing | app/visitor/thanks/ThanksClient.tsx:50 | without an incoming object the base comes back unchanged |
| Thanks.MergedHealthIdempotent | app/visitor/thanks/ThanksClient.tsx:45-58 | merging the same row twice is merging it once |
| Thanks.MergedHealthKeepsQuestions | app/visitor/thanks/ThanksClient.tsx:52 | merging into the six-question state keeps exactly the six questions |
| Thanks.FirstUsableFrom | app/visitor/thanks/ThanksClient.tsx:68-70 | `find` stops at the first candidate from k on that is a string with something besides whitespace, or at the end |
| Thanks.FirstNonBlank | app/visitor/thanks/ThanksClient.tsx:68-71 | there is no result exactly when no candidate is usable; otherwise the result is the first usable candidate trimmed, never empty |
| Thanks.DeriveLocationLabel | app/visitor/thanks/ThanksClient.tsx:60-72 | the derived label is never empty unless the fallback is |
| Thanks.DeriveLocationLabelSpec | app/visitor/thanks/ThanksClient.tsx:60-72 | `deriveLocationLabel` gives the trimmed preferred location when usable, and the trimmed fallback when no column is (the fallback itself when blank) |
| Thanks.InlineLocationLabel | app/visitor/thanks/ThanksClient.tsx:187-190 | the label the fetch computes is never empty |
| Thanks.InlineLocationLabelSpec | app/visitor/thanks/ThanksClient.tsx:187-190 | the fetched label is the trimmed entry lane when usable, the dash when no column is, and never empty |
| Thanks.ResolveSelfieUrl | app/visitor/thanks/ThanksClient.tsx:74-91 | a blank value names no selfie; HTTP(S) and `data:` URLs pass through trimmed; anything else is looked up by its storage path |
| Thanks.VisitIdOf | app/visitor/thanks/ThanksClient.tsx:107 | the `id` parameter wins; without it the `visitId` parameter is used |
| Thanks.FetchRow | app/visitor/thanks/ThanksClient.tsx:163-185 | `visitors` is queried exactly when `visits` gave no visit row; the row used is always a visit row; an error or a missing row becomes the thrown message |
| Thanks.StringOr | app/visitor/thanks/ThanksClient.tsx:199-202 | a string column wins over the store's value, which is kept otherwise |
| Thanks.BoolOr | app/visitor/thanks/ThanksClient.tsx:203-221 | a boolean column wins over the store's value, which is kept otherwise |
| Thanks.HydratedIdentity | app/visitor/thanks/ThanksClient.tsx:197-209 | each of the name, mobile, email and company columns holding a string replaces the store's value, as do the two boolean columns holding a boolean; every other field keeps the store's value |
| Thanks.HydratedDetails | app/visitor/thanks/ThanksClient.tsx:191-218 | the purpose is the visit type, else the purpose column, else the store's; the date is the visit date, else the creation date, else the store's; notes, host and a numeric priority replace the store's when present; the lane is the non-empty inline location label |
| Thanks.IdentityOfBareRow | app/visitor/thanks/ThanksClient.tsx:197-209 | a row without identity columns leaves the store's identity as it is |
| Thanks.DetailsOfBareRow | app/visitor/thanks/ThanksClient.tsx:210-218 | a row without visit columns leaves the store's visit details as they are, except that the location becomes the dash |
| Thanks.HydrateOfBareRow | app/visitor/thanks/ThanksClient.tsx:196-222 | a row holding none of the read columns changes nothing of the store but the location, which shows the dash, and the selfie |
| Thanks.IdOnlyRowIsBare | app/visitor/thanks/ThanksClient.tsx:196-222 | a row holding only its id holds none of the read columns |
| Thanks.Warnings | app/visitor/thanks/ThanksClient.tsx:258-261 | the warnings are exactly the questions answered yes |
| Thanks.OrderedWarnings | app/visitor/thanks/ThanksClient.tsx:258-261 | in key order: the questions answered yes, each in `order`, and the first of them is preceded only by questions answered no |
| Thanks.FirstYesAfterNo | app/visitor/thanks/ThanksClient.tsx:258-261 | a first yes in the rest of the order stays the first yes when the head is answered no |
| Thanks.OrderedWarningsAreWarnings | app/visitor/thanks/ThanksClient.tsx:258-261 | over the questionnaire's keys the ordered warnings are exactly the questions answered yes |
| Thanks.HealthInstructionTitle | app/visitor/thanks/ThanksClient.tsx:275 | the title is "Health clearance" exactly when no question is answered yes; otherwise it is "Health alert: " with the first question in key order answered yes |
| Thanks.DisplayedLocation | app/visitor/thanks/ThanksClient.tsx:285 | the shown location is never empty and is the entry lane when one is set |
| Thanks.ThanksPage.constructor | app/visitor/thanks/ThanksClient.tsx:97-105 | the page starts with nothing hydrated, not loading, no error and no query |
| Thanks.ThanksPage.Active | app/visitor/thanks/ThanksClient.tsx:252-256 | the hydrated visit is shown when there is one, the store's values otherwise |
| Thanks.ThanksPage.FetchVisit | app/visitor/thanks/ThanksClient.tsx:113-250 | without a reason to fetch nothing changes; otherwise the tables are queried, and unless cancelled the row is merged or its error shown and loading ends |
| Thanks.ShouldFetch | app/visitor/thanks/ThanksClient.tsx:113-114 | the fetch needs an `id` or `visitId` parameter, and runs neither for a submitted visit in the store nor after hydration |
| Thanks.Hydrate | app/visitor/thanks/ThanksClient.tsx:191-215 | the hydrated visit shows the resolved selfie, answers exactly the store's health questions, and has the non-empty inline location label as its lane |
| Thanks.EmailFailed | app/visitor/thanks/ThanksClient.tsx:266 | the email-failed flag needs an `email` parameter |
| Thanks.HydratedNeverRefetches | app/visitor/thanks/ThanksClient.tsx:114 | once a visit is hydrated no further fetch happens |
| Thanks.ContextVisitSuppressesFetch | app/visitor/thanks/ThanksClient.tsx:108-114 | a submitted visit in the store suppresses the fetch, whatever the query says |
| Thanks.IdWinsOverVisitId | app/visitor/thanks/ThanksClient.tsx:107 | with both parameters the `id` one is used; with `visitId` alone that one is |
| AdminVisitors.IsVisitDbRow | app/admin/visitors/page.tsx:53-75 | an accepted row is an object whose `id` is a string |
| AdminVisitors.IsVisitDbRowIff | app/admin/visitors/page.tsx:53-75 | a row is accepted exactly when it is an object with a string id, every listed column holds a string or `null` (a missing one does not), and the health answers are `null` or an object |
| AdminVisitors.ValidRows | app/admin/visitors/page.tsx:361-362 | a non-array answer gives no rows; otherwise every row is accepted and each accepted item of the answer is kept exactly as often as it occurs |
| AdminVisitors.KeepRows | app/admin/visitors/page.tsx:362 | the filter keeps every accepted item exactly as often as it occurs and drops every other, never more than there were |
| AdminVisitors.KeepRowsAppend | app/admin/visitors/page.tsx:362 | the filter of a concatenation is the concatenation of the filters, so the rows keep the answer's order |
| AdminVisitors.KeepRowsOfOne | app/admin/visitors/page.tsx:362 | one item is kept exactly when it is accepted |
| AdminVisitors.NormalizeSelfiePath | app/admin/visitors/page.tsx:77-82 | the normalised path is never longer than the trimmed one |
| AdminVisitors.NormalizeSelfiePathSpec | app/admin/visitors/page.tsx:77-82 | the trimmed path loses its whole run of leading slashes and then at most one `visitor-selfies/` prefix |
| AdminVisitors.NormalizeStoredPath | app/admin/visitors/page.tsx:77-82 | a path as the check-in page stores it comes back unchanged |
| AdminVisitors.ResolveSelfieUrl | app/admin/visitors/page.tsx:84-105 | a blank value names no selfie; an HTTP(S) URL passes through trimmed; anything else is looked up by its normalized storage path |
| AdminVisitors.ResolveAgreesWithConfirmationPage | app/admin/visitors/page.tsx:84-105 | this page and the confirmation page resolve every value alike except a `data:` URL, which only the confirmation page passes through |
| AdminVisitors.HealthAnswersOf | app/admin/visitors/page.tsx:135-146 | a falsy or non-object value gives `null`; otherwise every entry of the value, and no other key, coerced to a boolean |
| AdminVisitors.Coerced | app/admin/visitors/page.tsx:139-145 | the coerced map has the same keys, each holding the truthiness of its value |
| AdminVisitors.NormalizeHealthAnswers | app/admin/visitors/page.tsx:135-146 | the `reduce`, one entry at a time, gives the normalized answers |
| AdminVisitors.HealthAnswersOfStored | app/admin/visitors/page.tsx:135-146 | an answer map as stored comes back as it was |
| AdminVisitors.MapRowToVisitor | app/admin/visitors/page.tsx:148-172 | every shown field is its column or that column's fallback (`Visitor`, empty mobile, `Independent visitor`, purpose then visit type then `Visit`, `TBD`), the status normalized, the date the visit date then the creation date then the clock |
| AdminVisitors.StoredRowShowsReview | app/admin/visitors/page.tsx:162 | a row stored with the review status is shown as under review |
| AdminVisitors.EscapePercent | app/admin/visitors/page.tsx:344 | every `%` of the escaped search is preceded by a backslash and nothing is dropped |
| AdminVisitors.EscapePercentRoundTrip | app/admin/visitors/page.tsx:344-346 | dropping the backslash before each `%` gives back the search as typed |
| AdminVisitors.SearchFilter | app/admin/visitors/page.tsx:343-347 | a blank search adds no clause; any other adds the name-or-mobile pattern |
| AdminVisitors.QueryFor | app/admin/visitors/page.tsx:321-350 | a query carries the search clause, a purpose filter exactly when the filter is not `all`, and the limit 200 |
| AdminVisitors.PageCount | app/admin/visitors/page.tsx:386 | there is always at least one page, and for a non-empty list just enough pages of eight to hold them |
| AdminVisitors.Page | app/admin/visitors/page.tsx:402-405 | a page holds at most eight visitors; a page past the end is empty; otherwise it is the slice starting at page times eight |
| AdminVisitors.PagesArePrefix | app/admin/visitors/page.tsx:402-405 | the first k pages read in order are the first k times eight visitors |
| AdminVisitors.Pages | app/admin/visitors/page.tsx:401-405 | k pages hold at most k times the page size of visitors |
| AdminVisitors.PagesCoverAll | app/admin/visitors/page.tsx:386-405 | all pages read in order are exactly the visitor list |
| AdminVisitors.DashSpaces | app/admin/visitors/page.tsx:427 | no whitespace is left, and a name without whitespace is kept |
| AdminVisitors.KeepFilenameChars | app/admin/visitors/page.tsx:428 | only letters, digits, `-` and `_` are left, and a name of those only is kept |
| AdminVisitors.FormatFilenamePart | app/admin/visitors/page.tsx:424-429 | a formatted part holds only lower-case letters, digits, `-` and `_` |
| AdminVisitors.FormatFilenamePartIdempotent | app/admin/visitors/page.tsx:424-429 | formatting a formatted part changes nothing |
| AdminVisitors.SafeFilenameIsFixed | app/admin/visitors/page.tsx:424-429 | a name already made of safe characters is its own format |
| AdminVisitors.VisitorLog.PageCountNow | app/admin/visitors/page.tsx:386 | the page count of the loaded visitors is at least one |
| AdminVisitors.VisitorLog.PagedVisitors | app/admin/visitors/page.tsx:402-405 | the shown page holds at most eight of the loaded visitors |
| AdminVisitors.VisitorLog.constructor | app/admin/visitors/page.tsx:261-270 | the log starts with an empty search, the `all` filter, the first page, no visitors, no error |
| AdminVisitors.VisitorLog.SetSearch | app/admin/visitors/page.tsx:842-845 | typing a search sets it and goes back to the first page, nothing else changes |
| AdminVisitors.VisitorLog.SetPurposeFilter | app/admin/visitors/page.tsx:853-856 | choosing a purpose sets it and goes back to the first page, nothing else changes |
| AdminVisitors.VisitorLog.SetTimeframe | app/admin/visitors/page.tsx:862-865 | choosing a timeframe goes back to the first page, nothing else changes |
| AdminVisitors.VisitorLog.PrevDisabled | app/admin/visitors/page.tsx:922 | an enabled Prev has a page before the current one |
| AdminVisitors.VisitorLog.NextDisabled | app/admin/visitors/page.tsx:933 | an enabled Next has a page after the current one |
| AdminVisitors.VisitorLog.PrevPage | app/admin/visitors/page.tsx:921-922 | Prev, enabled off the first page, goes exactly one page back; disabled, it changes nothing |
| AdminVisitors.VisitorLog.NextPage | app/admin/visitors/page.tsx:932-933 | Next, enabled before the last page, goes exactly one page on and stays within the pages; disabled, it changes nothing, even with an index past the last page |
| AdminVisitors.VisitorLog.ClampPage | app/admin/visitors/page.tsx:388-400 | a page index past the last page is pulled back to the last page |
| AdminVisitors.VisitorLog.FetchVisits | app/admin/visitors/page.tsx:297-384 | one query for the current search and purpose is sent; an error shows its message and keeps the old visitors, a success clears the error and shows the answered rows; loading ends |
| AdminVisitors.VisitorLog.SendQuery | app/admin/visitors/page.tsx:321-356 | the query sent is the one for the current search and purpose, nothing else changes |
| AdminVisitors.VisitorLog.Settle | app/admin/visitors/page.tsx:356-379 | an error shows its message and keeps the old visitors; a success clears the error and shows the accepted rows with their selfies; loading ends |
| AdminVisitors.VisitorsOf | app/admin/visitors/page.tsx:363-374 | one view record per accepted row, in order, each mapped with its own resolved selfie |
| AdminVisitors.ShownVisitors | app/admin/visitors/page.tsx:362-374 | a non-array answer shows no visitors; otherwise one visitor per accepted row, in order, each carrying its row's id |
| DashboardData.FeedStatusText | lib/dashboardData.ts:14 | a feed status is stored as `pending` or `complete`, one text each |
| AdminPage.ComputedStats | app/admin/page.tsx:44-50 | two stats labelled "Today visitors" and "Blocked (health)", taken from the KPIs and 0 without data |
| AdminPage.StatsAfterLoad | app/admin/page.tsx:44-50 | after a load the two stats are the first and the last of the six counts, a missing count read as 0 |
| AdminPage.FeedEntryOf | app/admin/page.tsx:54-62 | a live row becomes a feed item with its id, shown as complete, with the `Visitor` and `Standby` fallbacks, and the time formatted only from a non-empty creation date |
| AdminPage.LiveStreamItems | app/admin/page.tsx:52-65 | without live rows the static sample is shown; otherwise one feed item per live row, in order; the list is never empty |
| AdminPage.LiveRowsShownComplete | app/admin/page.tsx:57 | every live row is shown as complete, whatever its status, and keeps its id |
| AdminPage.DonutData | app/admin/page.tsx:67-76 | the completed slice is never negative; the two slices sum to today's total unless the health blocks exceed it, when the completed slice is 0 |
| AdminPage.FallbackLineData | app/admin/page.tsx:39-42 | one point per day, each the day's total raised to at least 3 |
| AdminPage.ChartData | app/admin/page.tsx:78-80 | the hourly trend, point for point, when there is one; the fallback days otherwise |
| AdminPage.ChartAfterLoad | app/admin/page.tsx:78-80 | a loaded dashboard charts its 24 hours, `00:00` to `23:00` in order |
| AdminPage.NextArrival | app/admin/page.tsx:82 | the next arrival is the first feed item, and there is one exactly when the feed is not empty |
| AdminPage.NextArrivalName | app/admin/page.tsx:153 | the card shows the next arrival's name, or `Awaiting crew` without one |
| AdminPage.NextArrivalAlwaysPresent | app/admin/page.tsx:82 | there is always a next arrival: the first live row's name, or the first sample entry, so the placeholder never shows |
| DashboardCounts.Digit | lib/hooks/useAdminDashboard.ts:119 | a digit is the character whose code is `0` plus its value |
| DashboardCounts.HourLabel | lib/hooks/useAdminDashboard.ts:119-129 | an hour's label is two digits, the first at most `2`, followed by `:00` |
| DashboardCounts.HourLabelRoundTrip | lib/hooks/useAdminDashboard.ts:119-129 | reading the two digits of a label back gives its hour |
| DashboardCounts.HourLabelInjective | lib/hooks/useAdminDashboard.ts:117-121 | two hours with the same label are the same hour, so the 24 buckets are distinct |
| DashboardCounts.HourLabelEnds | lib/hooks/useAdminDashboard.ts:118-121 | the buckets run from `00:00` to `23:00` |
| DashboardCounts.RowHour | lib/hooks/useAdminDashboard.ts:124-129 | a row with no or an empty creation date has no hour; otherwise its hour is the parsed local hour, if the date parses |
| DashboardCounts.TrendOf | lib/hooks/useAdminDashboard.ts:116-134 | the trend is the 24 hours in ascending order, each labelled and holding the number of rows in that hour |
| DashboardCounts.BuildHourlyTrend | lib/hooks/useAdminDashboard.ts:116-134 | filling 24 zeroed buckets and incrementing one per row with an hour gives exactly that trend |
| DashboardCounts.TotalOfPrefix | lib/hooks/useAdminDashboard.ts:116-134 | the counts of the first k hours sum to the rows falling in those hours |
| DashboardCounts.CountBelowOfSnoc | lib/hooks/useAdminDashboard.ts:123-131 | one more row adds one to the hours below k exactly when its hour is below k |
| DashboardCounts.CountBelowAllHours | lib/hooks/useAdminDashboard.ts:123-131 | the rows in all 24 hours are exactly the rows with an hour |
| DashboardCounts.CountBelowOfNoRows | lib/hooks/useAdminDashboard.ts:118-121 | without rows every bucket stays at zero |
| DashboardCounts.TrendCountsEveryParsedRow | lib/hooks/useAdminDashboard.ts:116-134 | the trend's counts sum to the number of rows whose date parses: each such row is counted once, the others are skipped |
| DashboardCounts.OrFilter | lib/hooks/useAdminDashboard.ts:103-106 | a count query gets an `or` clause exactly when its filter has values |
| DashboardCounts.OrFilterClauses | lib/hooks/useAdminDashboard.ts:104 | the clause splits back, on its commas, into one `column.ilike.value` clause per value, in order |
| DashboardCounts.CountOf | lib/hooks/useAdminDashboard.ts:108-113 | a missing count is 0, a present one is kept, a failed query throws its error |
| DashboardCounts.KpiListsAreStrictSubsets | lib/hooks/useAdminDashboard.ts:31-34 | each KPI's values are aliases of its canonical status, but some aliases (`allow`, `awaiting`, `arrival`) belong to no KPI |
| DashboardCounts.KpiOrFilters | lib/hooks/useAdminDashboard.ts:30-35 | the total has no `or` clause and the five other counts have one each |
| DashboardCounts.GateReadiness | lib/hooks/useAdminDashboard.ts:38-39 | no visits give 0; otherwise the readiness in basis points is the approved share of ten thousand rounded half up |
| DashboardCounts.GateReadinessBounds | lib/hooks/useAdminDashboard.ts:38-39 | the readiness lies between 0 and 100 percent, and is 100 percent when every visit is approved |
| DashboardCounts.QuotientBetween | lib/hooks/useAdminDashboard.ts:38-39 | a dividend between lo·m and hi·m gives a quotient between lo and hi, which bounds the rounded readiness |
| DashboardCounts.MulMonotone | lib/hooks/useAdminDashboard.ts:38-39 | multiplying by a positive factor keeps the order |
| DashboardCounts.KpisOf | lib/hooks/useAdminDashboard.ts:54-63 | the KPI record holds the six counts in query order and the readiness of the approved and total counts |
| DashboardCounts.AllCounts | lib/hooks/useAdminDashboard.ts:28-36 | all six counts come back exactly when every query succeeds, each read as `count ?? 0`; otherwise the error of the first failed query |
| DashboardHook.Records | lib/hooks/useAdminDashboard.ts:150-182 | the filter keeps every non-null object or array exactly as often as it occurs and drops every other value |
| DashboardHook.RecordsAppend | lib/hooks/useAdminDashboard.ts:150-182 | the filter of a concatenation is the concatenation of the filters, so the records keep their order |
| DashboardHook.RecordsOfOne | lib/hooks/useAdminDashboard.ts:150-182 | one item is kept exactly when it is a non-null object or array |
| DashboardHook.StatusSource | lib/hooks/useAdminDashboard.ts:168-174 | the status column when it is a string, the health status otherwise |
| DashboardHook.LiveItemOf | lib/hooks/useAdminDashboard.ts:164-177 | string columns are kept and others read as `null`, the id defaults to empty, and the status is the normalized status or health status |
| DashboardHook.NormalizeLiveStream | lib/hooks/useAdminDashboard.ts:159-178 | a non-array gives no entries; otherwise one entry per record, in order |
| DashboardHook.LiveItemWithoutStatusIsReview | lib/hooks/useAdminDashboard.ts:168-174 | a row with neither status column as a string is shown under review |
| DashboardHook.LiveItemStatusPrefersStatus | lib/hooks/useAdminDashboard.ts:168-174 | the health status is read only when the status column is not a string |
| DashboardHook.HookTrendRows | lib/hooks/useAdminDashboard.ts:148-154 | the trend reads the creation date of each record, in order, a non-string one as `null`; a non-array gives none |
| DashboardHook.HookFailure | lib/hooks/useAdminDashboard.ts:28-52 | a load fails exactly when a count, the live-stream query or the trend query fails |
| DashboardHook.HookPayload | lib/hooks/useAdminDashboard.ts:38-68 | a loaded payload has the 24 hourly trend points and at most one live entry per row |
| DashboardHook.HookPayloadShape | lib/hooks/useAdminDashboard.ts:38-66 | a loaded payload has the 24 trend points, at most one live entry per row, the first count as its total, and no readiness without visits |
| DashboardHook.Loader.constructor | lib/hooks/useAdminDashboard.ts:16-18 | the loader starts loading, with no data and no error |
| DashboardHook.Loader.FetchData | lib/hooks/useAdminDashboard.ts:20-74 | a failed load keeps the previous data and shows the thrown message; a successful one replaces the data and clears the error; loading ends |
| DashboardRoute.StatusLabel | app/api/admin/dashboard/route.ts:117-123 | the status an item gets is always one of the four canonical labels |
| DashboardRoute.WithStatus | app/api/admin/dashboard/route.ts:115-124 | an object keeps every column and gets the new status; a `null` item throws |
| DashboardRoute.LiveItem | app/api/admin/dashboard/route.ts:115-122 | mapping an item throws exactly when it is `null`; otherwise the entry is an object whose `status` is the item's canonical label |
| DashboardRoute.LiveStream | app/api/admin/dashboard/route.ts:114-125 | a non-array gives no entries; otherwise mapping throws exactly when an item is `null`, and else gives one entry per item, in order |
| DashboardRoute.LiveItems | app/api/admin/dashboard/route.ts:115-124 | mapping throws exactly when some item is `null`, else each item gets its canonical status |
| DashboardRoute.RouteTrendRows | app/api/admin/dashboard/route.ts:71 | the trend reads the creation date of each row, in order; no data gives no rows |
| DashboardRoute.StatusCode | app/api/admin/dashboard/route.ts:129-132 | the dashboard is answered with 200 and an error with 500 |
| DashboardRoute.RouteFailure | app/api/admin/dashboard/route.ts:78-133 | nothing is thrown exactly when every count, the live-stream query, its mapping and the trend query succeed |
| DashboardRoute.Get | app/api/admin/dashboard/route.ts:74-134 | the first thrown error becomes a 500 with its message; otherwise the KPIs, the mapped live stream and the trend of the day |
| DashboardRoute.GetSucceedsIff | app/api/admin/dashboard/route.ts:78-133 | the route answers 200 exactly when every query succeeds and no live item is `null` |
| DashboardRoute.StoredStatusReachesDashboard | app/api/admin/dashboard/route.ts:117-123 | a row stored with the review status reaches the dashboard as `Review`, its other columns kept |
| LiveStream.NormalizeFeedStatus | components/layout/LiveStream.tsx:27-28 | a feed status is complete exactly when the value is the string `complete` |
| LiveStream.Marquee | components/layout/LiveStream.tsx:15 | the marquee is the feed twice: twice as long, with each entry at its place in both halves |
| LiveStream.FeedItemOf | components/layout/LiveStream.tsx:41-49 | an entry keeps its row's id, falls back to `Visitor` and to the entry lane then `Standby`, is complete exactly when the status column is `complete`, shows `--` without a creation date and the formatted time of a non-empty one |
| LiveStream.FeedOf | components/layout/LiveStream.tsx:40-50 | one entry per row, in order |
| LiveStream.WithStatus | components/layout/LiveStream.tsx:55 | the entries with the given id take the new status and all others are kept, the length unchanged |
| LiveStream.Panel.constructor | components/layout/LiveStream.tsx:14 | the panel starts with the given feed, nothing written and no alert |
| LiveStream.Panel.ItemsChanged | components/layout/LiveStream.tsx:18-25 | a new feed from the parent replaces the local copy |
| LiveStream.Panel.RefreshList | components/layout/LiveStream.tsx:30-51 | an error or missing data keeps the feed; otherwise the feed becomes the answered rows |
| LiveStream.Panel.ChangeStatus | components/layout/LiveStream.tsx:53-67 | the status is written for that id; a failed write alerts its message and restores the feed; a successful one shows the refreshed rows, or the optimistic feed when the refresh fails |
| LiveStream.WithStatusChangesOnlyStatus | components/layout/LiveStream.tsx:55 | only the status of an entry with that id can change, and it becomes the new one |
| LiveStream.WithStatusOfAbsentId | components/layout/LiveStream.tsx:55 | an id no entry has changes nothing |
| LiveStream.WithStatusIdempotent | components/layout/LiveStream.tsx:55 | applying the same status twice is applying it once |
| LiveStream.WrittenStatusesReadAsReview | components/layout/LiveStream.tsx:57 | both statuses the panel writes read back as `Review` through the application's status normalization |
| SendEmail.JsonHeaders | supabase/functions/send-email/index.ts:17-21 | every JSON answer carries the three CORS headers and the JSON content type, and no other header |
| SendEmail.TrimmedField | supabase/functions/send-email/index.ts:35-36 | a string field is read trimmed, anything else as the empty string |
| SendEmail.DisplayName | supabase/functions/send-email/index.ts:52 | an empty name greets `there`, any other is used as it is |
| SendEmail.MailText | supabase/functions/send-email/index.ts:82 | the plain-text part opens with the greeting of the display name |
| SendEmail.MessageFor | supabase/functions/send-email/index.ts:84-90 | the mail goes to that address alone, from the fixed sender with the fixed subject, greeting the display name and carrying the fixed feedback link |
| SendEmail.JsonReply | supabase/functions/send-email/index.ts:17-21 | a JSON answer has the given status, the JSON headers and the given body |
| SendEmail.PreflightOutcome | supabase/functions/send-email/index.ts:24-26 | a preflight is answered 200 with exactly the CORS headers, and no mail is sent |
| SendEmail.HandleBody | supabase/functions/send-email/index.ts:28-95 | a `null` body throws uncaught and sends nothing; a mail is sent exactly when the trimmed email is not empty; no email is a 400, a sent mail a 200, and a mail service error a 500 with its text |
| SendEmail.Handle | supabase/functions/send-email/index.ts:23-33 | a preflight is answered `ok` with the CORS headers; any other request is handled on its parsed body, `{}` when it does not parse |
| SendEmail.UnparseableBodyIsEmpty | supabase/functions/send-email/index.ts:28-47 | a body that does not parse is handled exactly like `{}`: a 400 with nothing sent |
| SendEmail.AnswersCarryHeaders | supabase/functions/send-email/index.ts:17-21 | every answer other than the preflight's is JSON with the CORS headers |
| SendEmail.OtherColumnsIgnored | supabase/functions/send-email/index.ts:35-50 | changing any column but `email` and `name` changes nothing: the visit id, the testimonial link and the base URL are never used |
| SendEmail.HandleBodyReadsEmailAndName | supabase/functions/send-email/index.ts:35-36 | two bodies with the same trimmed email and name are handled alike |
| SendEmail.GreetingFallback | supabase/functions/send-email/index.ts:52 | a mail greets `there` exactly when the trimmed name is empty or is itself `there` |

## Left out

- Supabase queries, storage uploads, public and signed URLs, `fetch`, the Resend client, `serve`, `router.push`, `alert` and `localStorage` are not executed. Each is a parameter holding what the call answered, or a field recording the requests made.
- `lib/supabaseClient.ts`, `lib/supabase/server.ts`, `lib/types/visit.ts` and `lib/mockVisitors.ts` are not part of this model. `getVisitorsByDay(7)` is a parameter of the fallback chart.
- Unicode: `trim`, `\s` and `toLowerCase` are modelled on ASCII whitespace and ASCII letters only.
- Floating point: the progress-ring geometry is not modelled. The gate readiness is kept in integer basis points, leaving out the final `/ 100` and rounding error.
- Dates and locales: `new Date` parsing, `getHours`, `toLocale*String`, `getRangeStart`, `startOfTodayIso` and the timeframe's date bound of the visitor log are not modelled. Hours come from an `hourOf` parameter, and labels from formatter parameters.
- The `loading`, `isSaving`, `isSubmitting` and `loadingVisit` flags are modelled only in their settled state after an awaited call.
- Timers, `requestAnimationFrame` scroll restore and the IntersectionObserver that tracks the active wizard section are not modelled. Overlapping async calls are not modelled either: every call runs to completion before the next.
- `Promise.all`: the model reports the first failure in list order. In the source, the first failure to settle wins.
- The camera and canvas internals (`getUserMedia` streams, video playback, `drawImage`, `toDataURL`) are not modelled. The camera is modelled only as the outcomes it reports, and a capture as the data URL it gives.
- `createUuid` is a parameter.
- The PDF export of the visitor log is not modelled, except `formatFilenamePart`.
- The WhatsApp handler and `console` logging have no effect on the model's state and are left out.
- Transferring a session to another tab is not modelled: the admin session sees one store. Recording the second argument of `alert` is also not modelled.
- The HTML part of the mail is left out; its text part is modelled. The Resend call's result is ignored, as the source ignores it.
- `SendEmail.Handle`: a `null` body is modelled as an uncaught error with the runtime's message. What the Deno server then answers is not modelled.
- Engine error texts (`Cannot read properties of null ...`) are constants of the model, not the exact text of every engine.
- `AdminAuth.ToNumber`: `Number(...)` of a string is modelled as the trimmed text read as an optionally signed run of decimal digits, with a blank string read as 0. Exponents (`1e3`), the `0x`, `0o` and `0b` prefixes, decimal points and fractions, `Infinity`, and non-ASCII whitespace are not modelled; such strings are read as `NaN`. An array is joined as `join` does with numbers as integers, and an object with an own `toString` key throws.
- `DashboardRoute.Get`: `getSupabaseAdmin()` is called before the `try`, so a missing service key throws out of the handler without the JSON 500 answer. The model starts from a client that exists, and every failure it models is one the `try` catches.
- `Thanks.StringOr`: `row[key] ?? fallback` is modelled as the column when it holds a string and the fallback otherwise. A column holding a non-null value of another type would be copied by the source; the table's column types rule that out.
- `AdminAuth`: only the browser is modelled. On the server, where `window` is undefined, login succeeds without writing a record, the session check answers false, and logout does nothing.
- `DashboardRoute.RouteTrendRows`: a `null` row of the trend query would throw at `row.created_at`. The model reads such a row as having no date, because the query answers rows of a table, which are objects.
- `Thanks.HealthInstructionTitle`: the key order of the health object is a parameter. The store builds that object from the questionnaire and only reassigns its keys, so the order is `HealthQuestions`. The set `Thanks.Warnings` ignores order.
- `HygieneModal.Modal.Unmount`: removing the Escape listener is modelled by there being no listener once the dialog is gone; only the restored scroll style is state.
- `Json`: numbers are integers, and arrays have no enumerable keys.
- `DashboardRoute.WithStatus`: spreading a string or an array item would copy its indexed characters or elements. The model gives such an item only the `status` key, because database rows are objects.
- `AdminPage.ChartData`: the `?? "--"` and `?? 0` fallbacks on trend points are not modelled, because the type of a trend point makes both columns non-null.
- `SendEmail.MailText`: the contract states the greeting that opens the text, not the whole text.

## Findings

| source | as written | input that shows it | evidently intended | confidence | as-written member | corrected member |
|---|---|---|---|---|---|---|
| app/visitor/checkin/page.tsx:268-270 | the invalid-section handler focuses the consent checkbox for section index 4, which is the site-norms section; section 5 (consent) focuses nothing | `handleInvalidSection(4)` or `handleInvalidSection(5)` | the consent checkbox is focused when the consent section (index 5) is the one to fix | not executed | CheckinPage.FocusTargetAsWritten | CheckinPage.FocusTargetFor |
| lib/adminAuth.ts:50-54 | the expiry test calls `Number.isNaN` on the raw stored timestamp, which does not coerce: a record with no timestamp, or a non-numeric string one, fails neither test and never expires | stored `{"email":"admin1@gmail.com"}` at any time | a record without a numeric timestamp is not authenticated, and one more than eight hours old is removed | not executed | AdminAuth.CheckAsWritten | AdminAuth.CheckRecord |
| app/visitor/checkin/page.tsx:741-751 | the section elements are rendered with `consentRef` for every index from 4 on, so `siteNormsRef` is never attached and `scrollToSection(4)` returns early; the site-norms section is never scrolled to or made active | Back pressed on the consent section, or a submission whose first incomplete section is the site norms | each section element carries its own ref, so every section can be scrolled to | not executed | CheckinPage.ScrollTargetsAsWritten | CheckinPage.EverySectionScrollable |

The check-in page class and the admin session follow the code as written: they use `FocusTargetAsWritten`, `HasScrollTarget` and `CheckAsWritten`. The corrected definitions stand beside them, with the intended properties proved about them.

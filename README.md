# EchoMailJS in Dafny

EchoMailJS is an email assistant. A React front end (login, dashboard,
email generation and refinement, history, and an admin console) talks to
serverless API handlers. The handlers check a JWT, call the Gemini model,
send mail through nodemailer and log each action to a SQL `logs` table.

This project models the core of that system and proves properties of it:

- **The token gate** (`verifyToken`), as a function and as a method over
  `Request`/`Response` objects.
- **The four API handlers.**
  - `generate`: method check, token gate, body defaults, prompt template and model call.
  - `refine`: form fields, file-type whitelist, text extraction with UTF-8 decoding, prompt tables, answer normalisation, logging.
  - `send`: required fields, attachment loop, HTML-stripping plain-text fallback, send-then-log order.
  - `analytics`: totals, trend map and seven-day trend.
- **The five pages' logic.**
  - Login: email pattern and password rule, session storage, landing route.
  - Dashboard: hex tints, counter normalisation, conversion rate, chart data, labels and fills.
  - Email generation: word count and reading time, file sizes, attachment list, and the three request flows.
  - Email history: action chips, labels, previews, log fetching.
  - Admin dashboard: access gate, user search, log dialog, action colours, logout.

External services are parameters of the members that use them:

- `jwt.verify`;
- the Gemini model;
- the PDF and DOCX parsers;
- the database queries;
- `sendMail`;
- the multipart parser;
- `file.toBuffer()`;
- the page requests;
- the locale time formatter.

Each one becomes a function value, and the model states what the code does
with every answer it may give.

Shared JavaScript semantics live in `Js`:

- `trim` with the ECMAScript white-space set;
- `split` on one character;
- `slice` clamping;
- `includes`;
- decimal printing;
- object-literal lookup that sees `Object.prototype` members.

`Utf8` holds `Buffer.toString('utf8')`: WHATWG decoding that replaces each
maximal ill-formed subpart with U+FFFD. `Http` holds the reply shapes and
JSON scalars.

Where the written specification and the code differ, the model follows
the code:

- Unknown tone, length or language names in the refine prompt print
  `undefined` (or the text of an inherited `Object.prototype` member), not
  a default sentence.
- A failing log insert after a successful model call or delivery ends in
  the handler's 500 reply.
- The handlers have no fallback model chain, no streaming, no deadline and
  no request size limit.

## Model

| member | source | states |
|---|---|---|
| Js.Trim | api/email/refine.js:81 | the result is a contiguous piece of the input with only white space cut from both ends, and it neither starts nor ends with white space |
| Js.BlankIffAllSpace | api/email/refine.js:81 | `!s.trim()` holds exactly when every character is white space |
| Js.TrimIdempotent | api/email/refine.js:125 | trimming twice is trimming once |
| Js.ToLower | api/email/refine.js:72 | same length; each character is mapped by the lower-case map |
| Js.Split | api/utils/verifyToken.js:6 | at least one field, no field holds the separator, and joining the fields with the separator gives the input back |
| Js.SplitUnique | api/utils/verifyToken.js:6 | separator-free fields that join to `s` are exactly `s.split(sep)` |
| Js.Slice | src/pages/AdminDashboard.js:187-192 | `slice(start, end)` clamps both bounds to the length and is empty when start passes end |
| Js.Includes | src/pages/AdminDashboard.js:419-424 | `s.includes(t)` holds exactly when `t` occurs at some position of `s` |
| Js.DecimalString | src/pages/Login.js:142 | `String(n)` is non-empty, made of digits, has no leading zero and denotes `n` |
| Js.NotInheritedByInitial | api/email/refine.js:93-111 | a key whose first character starts no inherited member name finds nothing inherited |
| Utf8.Decode | api/email/refine.js:24 | decoding yields at most one character per byte |
| Utf8.DecodeEncode | api/email/refine.js:24 | decoding the UTF-8 form of any string gives the string back |
| Utf8.DecodeAscii | api/email/refine.js:24 | bytes below 0x80 decode one-to-one to the characters with those codes |
| VerifyToken.AdmittedUser | api/utils/verifyToken.js:5-17 | a user id is admitted exactly when the header's second space-separated field is a non-empty token that `jwt.verify` accepts and whose `id` is present and non-zero |
| VerifyToken.TokenAfterAnyScheme | api/utils/verifyToken.js:6 | the token is the second field whatever the scheme word before it |
| VerifyToken.NoSpaceRejected | api/utils/verifyToken.js:6-8 | a header without a space is rejected with 401 `Unauthorized` |
| VerifyToken.DoubleSpaceRejected | api/utils/verifyToken.js:6-8 | two spaces after the scheme leave an empty token, which is rejected with 401 `Unauthorized` |
| VerifyToken.Verify | api/utils/verifyToken.js:5-17 | `next` is called once, with `req.user` set to the payload, exactly when the gate passes; otherwise the response carries 401 and the gate's message |
| Refine.ExtensionAfterLastDot | api/email/refine.js:72 | the extension is the lower-cased text after the last dot |
| Refine.ExtensionWithoutDot | api/email/refine.js:72 | a name without a dot is its own extension, lower-cased |
| Refine.ExtractText | api/email/refine.js:15-32 | pdf and docx give the parser's text or `''` when it throws, txt gives the UTF-8 decoding of the bytes, and anything else gives `''` |
| Refine.TxtExtractionRoundTrip | api/email/refine.js:23-24 | an uploaded text file is extracted as exactly the string whose UTF-8 form it holds |
| Refine.LookupOutcomes | api/email/refine.js:93-111 | a known selector yields its sentence, an inherited member name yields that member's text, and any other value yields `undefined` |
| Refine.PromptLayout | api/email/refine.js:86-116 | whatever guideline sentences are chosen, the text to refine appears verbatim after `Original Text:`, followed by the tone, length and language sentences in that order and the output instructions last; the prompt is exactly those parts and the fixed words |
| Refine.HeaderLengthMatchesPattern | api/email/refine.js:125 | the matcher finds a header exactly when `/^#+\s*Refined Text:/i` matches at the front |
| Refine.HeaderUnique | api/email/refine.js:125 | however the pattern matches at the front, the removed length is the one the matcher finds |
| Refine.NormaliseWithoutHash | api/email/refine.js:125 | an answer that does not start with `#` is only trimmed |
| Refine.NormaliseStripsHeaderOnce | api/email/refine.js:125 | a leading header is removed once and the rest is trimmed |
| Refine.FileReplacesText | api/email/refine.js:66-79 | a present file replaces the `text` field, whatever the field holds |
| Refine.Handle | api/email/refine.js:34-141 | the results in order: 405 for non-POST; the gate's 401; `No user ID`; a form that fails to parse leaves the request unanswered; an uploaded file that cannot be read also leaves it unanswered, with no model call; an unsupported extension of a readable file gives 400 before any extraction; blank content gives 400; otherwise one model call with the composed prompt, the normalised answer logged as `refined`, and `{ refined_email, settings }` returned; a model or insert failure gives 500 `Gemini API error` with the detail |
| Refine.ReadBeforeWhitelist | api/email/refine.js:69-79 | with a file present, the request ends unread exactly when `toBuffer` rejects, and only a readable file is checked against the whitelist |
| Refine.RefineText | api/email/refine.js:85-140 | once the prompt is composed: the first effect is the one model call with that prompt; a model failure gives 500 `Gemini API error` with its message and nothing more; otherwise the normalised answer is logged once as `refined` for the user, and the reply is the insert failure as 500 or `{ refined_email, settings }` |
| Generate.FullPromptLayout | api/email/generate.js:28 | tone, length, language and prompt appear verbatim, in that order, inside the fixed sentence |
| Generate.Handle | api/email/generate.js:5-41 | 405 for non-POST; the gate's 401; 400 `Prompt is required` for a falsy prompt; otherwise exactly one model call, with the composed prompt; a model failure gives 500 and an Ok reply carries the model's text unchanged |
| Generate.NonPostBeforeGate | api/email/generate.js:6-8 | a non-POST request gets 405 whatever its token, and the model is not called |
| Generate.PromptRequired | api/email/generate.js:24-26 | once the token passes, an absent, null or empty prompt gets 400 `Prompt is required` and no model call |
| Generate.OneCallWithDefaults | api/email/generate.js:22-36 | an admitted request with a prompt and no selectors makes one call with `formal`, `medium`, `english` |
| Generate.SelectorsRaw | api/email/generate.js:22 | a present selector, even null or empty, is interpolated as it prints and not replaced by the default |
| Analytics.BuildTrendMap | api/analytics/analytics.js:62-65 | the `forEach` loop builds the map the rows define, assignment by assignment |
| Analytics.TrendMapKeys | api/analytics/analytics.js:62-65 | the map's keys are exactly the day labels of the rows |
| Analytics.LastRowWins | api/analytics/analytics.js:63-65 | when several rows share a label, the last one's count is kept |
| Analytics.Trend | api/analytics/analytics.js:61-70 | seven entries in Sun..Sat order, each the mapped count when it is truthy, else 0 |
| Analytics.TrendCounts | api/analytics/analytics.js:61-70 | each day's count is that of the last row with its label (when truthy), and 0 when no row has it |
| Analytics.OtherLabelsIgnored | api/analytics/analytics.js:61-70 | a row whose label is not a day name leaves the trend unchanged |
| Analytics.Handle | api/analytics/analytics.js:5-84 | 405 for non-GET; the gate's 401; `User ID not found in token` with no query; otherwise the totals query and then the trend query for that user, with 500 `Failed to fetch analytics` when either fails; when both succeed the reply carries the trend and the first totals row, or four zero totals when the totals query returned no row |
| Send.HasRequiredMeansNonEmpty | api/send/index.js:38-44 | the field check passes exactly when recipient, subject and email_content are all present and non-empty |
| Send.StripTagsSubset | api/send/index.js:74 | stripping only deletes characters, it never introduces one |
| Send.StripTagsNoOpen | api/send/index.js:74 | text without `<` is unchanged |
| Send.StripTagsTagFree | api/send/index.js:74 | the plain-text fallback holds no `<` followed later by `>` |
| Send.StripTagsFixed | api/send/index.js:74 | tag-free text is left unchanged |
| Send.StripTagsIdempotent | api/send/index.js:74 | stripping twice is stripping once |
| Send.CollectAttachments | api/send/index.js:47-58 | the loop completes exactly when every file can be read, and then yields one attachment per file, in order, named by its original name and holding its bytes |
| Send.Handle | api/send/index.js:13-92 | 405; the gate's 401; `User ID missing from token`; a form that fails to parse leaves the request unanswered; 400 for a missing field; mail goes out exactly when every attachment can be read, and an unreadable attachment leaves the request unanswered; the mail goes to the recipient with the subject, the stripped text, the raw HTML and the attachments in order; after delivery the `sent` log row is inserted and `{ message, messageId }` returned; a delivery or insert failure gives 500 `Failed to send email` with the detail |
| Send.Dispatch | api/send/index.js:79-91 | the message is sent first; a send failure gives 500 `Failed to send email` with its message and logs nothing; after a delivery the HTML content is logged once as `sent` for the user, and the reply is the insert failure as 500 or `Email sent successfully!` with the delivery's message id |
| Login.MatchesDirect | src/pages/Login.js:91 | the direct test holds exactly when the string matches `/^[^\s@]+@[^\s@]+\.[^\s@]+$/` |
| Login.ValidEmail | src/pages/Login.js:90-93 | `validateEmail` holds exactly when the lower-cased address matches the pattern |
| Login.ValidEmailIgnoresCase | src/pages/Login.js:92 | lower-casing does not change the verdict |
| Login.ValidEmailAccepts | src/pages/Login.js:90-93 | `a@b.co` is accepted |
| Login.ValidEmailNeedsDot | src/pages/Login.js:90-93 | `a@b`, with no dot after the `@`, is rejected |
| Login.ValidEmailOneAt | src/pages/Login.js:90-93 | `a@@b.co`, with a second `@`, is rejected |
| Login.ValidEmailNoSpace | src/pages/Login.js:90-93 | `a b@c.de`, with a space, is rejected |
| Login.LoginPage.HandleLogin | src/pages/Login.js:110-161 | an invalid email, then a short password, each set their message and post nothing; otherwise one post is made. A token and a user store the token, `is_admin`, `user_id` and `email` and navigate to `/admin` or `/dashboard`. Any other answer gives `Invalid server response`; a rejection gives the server's error or the network message. Loading always ends false |
| Login.LoginPage.Submit | src/pages/Login.js:130-160 | once both checks pass, the credentials are posted exactly once and the page settles on the reply: stored session and route for a token and a user, `Invalid server response` otherwise, and the server's error or the network message on a rejection |
| Login.SignedIn | src/pages/Login.js:140-143 | the storage after a login holds the token, `is_admin` as `"true"`/`"false"` by truthiness, and the printed id and email, and every other key is unchanged |
| Dashboard.ParseColor | src/pages/Dashboard.js:445 | each channel of a `#rrggbb` colour is the byte its hex pair denotes |
| Dashboard.ParseFormat | src/pages/Dashboard.js:445 | parsing the hex spelling of any colour gives its channels back |
| Dashboard.FormatParse | src/pages/Dashboard.js:497 | a lower-case hex colour is the spelling of what it parses to |
| Dashboard.RgbTextReadsBack | src/pages/Dashboard.js:549 | for every colour, the `r, g, b` tint text splits at its commas into exactly three fields, the decimal red, green and blue channels in that order, the last two after one space |
| Dashboard.PaletteTints | src/pages/Dashboard.js:938 | the palette's tints are 96,165,250 / 52,211,153 / 251,191,36 |
| Dashboard.NumberOr0 | src/pages/Dashboard.js:1007-1010 | a falsy scalar gives 0, a number gives itself, a boolean gives 1 or 0; a string whose trimmed text is not an optionally signed digit run gives 0, and a digit run gives its value |
| Dashboard.NumberOfPrinted | src/pages/Dashboard.js:1007-1010 | a count sent as its decimal text is read back as the same number |
| Dashboard.TrendData | src/pages/Dashboard.js:1011-1014 | a missing trend gives no points; otherwise one point per entry, in order, with the day as name and the count as value |
| Dashboard.ProcessReport | src/pages/Dashboard.js:1006-1015 | the analytics endpoint's default reply becomes zero counters and seven points named Sun..Sat with the trend's counts |
| Dashboard.ConversionRate | src/pages/Dashboard.js:366-370 | 0 unless generated + refined is positive, else the nearest integer to 100·sent/(generated + refined), halves rounded up |
| Dashboard.RateIsPercentage | src/pages/Dashboard.js:366-370 | with sent at most generated + refined, the rate lies in 0..100 |
| Dashboard.BarChartData | src/pages/Dashboard.js:1042-1047 | four bars, Generated, Refined, Sent, Total, with their counters |
| Dashboard.PieIsBarsWithoutTotal | src/pages/Dashboard.js:1042-1053 | the pie has the first three bars' names and counts, in the same order, and drops Total |
| Dashboard.AnyPositive | src/pages/Dashboard.js:774 | `data.some(item => item.value > 0)` holds exactly when some slice is positive |
| Dashboard.PlaceholderIffNoActivity | src/pages/Dashboard.js:774 | the placeholder shows exactly when generated, refined and sent are all at most 0 |
| Dashboard.ShortName | src/pages/Dashboard.js:806 | names up to 8 characters are unchanged; longer ones become their first 8 characters and `...` |
| Dashboard.PieLabels | src/pages/Dashboard.js:806 | of the three slice names only `Generated` is cut, to `Generate...` |
| Dashboard.CellGradient | src/pages/Dashboard.js:815 | no gradient without colours; otherwise an index below the colour count, and the index itself for the first cells |
| Dashboard.CellsCycle | src/pages/Dashboard.js:815 | the fills repeat with the palette's period |
| Dashboard.PieGradients | src/pages/Dashboard.js:815 | with three colours the three slices use gradients 0, 1, 2 |
| EmailGeneration.NonEmpty | src/pages/EmailGeneration.js:278 | `.filter(Boolean)` never lengthens the list and keeps no empty piece |
| EmailGeneration.NonEmptyMembers | src/pages/EmailGeneration.js:278 | the filtered list holds exactly the non-empty pieces of the input |
| EmailGeneration.NonEmptyAppend | src/pages/EmailGeneration.js:278 | filtering a concatenation is filtering each part, so the kept pieces stay in their input order |
| EmailGeneration.WordsAreRunStarts | src/pages/EmailGeneration.js:278 | splitting on white-space runs and dropping empty pieces yields one piece per word start |
| EmailGeneration.TrimKeepsRunStarts | src/pages/EmailGeneration.js:278 | trimming removes no word |
| EmailGeneration.WordCountIsRuns | src/pages/EmailGeneration.js:278 | the word count equals the number of maximal non-white-space runs of the draft |
| EmailGeneration.ReadTime | src/pages/EmailGeneration.js:279 | `Math.ceil(words / 200)`: the least number of minutes whose 200 words per minute cover the count |
| EmailGeneration.Stats | src/pages/EmailGeneration.js:274-281 | the characters of the draft on the current tab, its words as the number of word starts, and a reading time that is 0 exactly when there are no words and otherwise the least number of 200-word minutes covering them |
| EmailGeneration.Tenths | src/pages/EmailGeneration.js:215-219 | `toFixed(1)` of bytes/unit: tenths within half a tenth of the exact quotient, halves rounded up |
| EmailGeneration.FormatFileSizeUnits | src/pages/EmailGeneration.js:215-219 | below 1024 bytes the size in B; below 1048576 in KB; otherwise in MB, each with the one-decimal figure |
| EmailGeneration.FormatFileSizeBelowMegabyte | src/pages/EmailGeneration.js:217 | 1048575 bytes print as `1024.0 KB` |
| EmailGeneration.WithoutIndex | src/pages/EmailGeneration.js:210-212 | the filtered list is never longer than the list |
| EmailGeneration.WithoutIndexDropsOne | src/pages/EmailGeneration.js:210-212 | exactly the element at the index is dropped, and the others keep their order |
| EmailGeneration.GeneratedEmailNeverShown | src/pages/EmailGeneration.js:144 | the generate endpoint's body has no `email_content`, so the page always reports an empty response |
| EmailGeneration.EmailAssistant.ResetForm | src/pages/EmailGeneration.js:89-99 | prompt, text to refine and chosen file are cleared; everything else is unchanged |
| EmailGeneration.EmailAssistant.HandleTabChange | src/pages/EmailGeneration.js:102-105 | the new tab with a reset form; the drafts stay |
| EmailGeneration.EmailAssistant.HandleAttachmentChange | src/pages/EmailGeneration.js:200-203 | the new files are appended after the existing ones |
| EmailGeneration.EmailAssistant.RemoveAttachment | src/pages/EmailGeneration.js:210-212 | the attachment at the index is dropped |
| EmailGeneration.EmailAssistant.GenerateEmail | src/pages/EmailGeneration.js:125-156 | an empty prompt posts nothing and shows `Please enter a prompt.`; otherwise one post with the prompt and the settings; the draft is set, with the success message, only from a non-empty `email_content`, and any other answer shows the error text; loading ends false |
| EmailGeneration.EmailAssistant.RefineEmail | src/pages/EmailGeneration.js:159-197 | nothing is posted without text or a file; otherwise one post with the file or the text and the settings, and the refined draft is taken from `refined_email` |
| EmailGeneration.EmailAssistant.FileSentInsteadOfText | src/pages/EmailGeneration.js:159-197 | a chosen file is sent instead of the text, never beside it |
| EmailGeneration.EmailAssistant.SendEntries | src/pages/EmailGeneration.js:222-262 | the first three entries are `recipient`, `subject` and `email_content` with their texts, then one `attachments` entry per file, in order |
| EmailGeneration.EmailAssistant.SendEmail | src/pages/EmailGeneration.js:222-262 | a missing recipient, subject or draft posts nothing; otherwise one post of recipient, subject, the current draft and the attachments; success shows the server message (or the default) and resets the form, failure shows the error and keeps it; sending ends false |
| EmailGeneration.EmailAssistant.Deliver | src/pages/EmailGeneration.js:230-261 | the built form data is posted exactly once and sending ends false; success shows the server message (or `Email sent successfully!`) and clears the prompt, text and file; failure shows `Error sending email:` with the error and keeps the inputs |
| Paging.PageOf | src/pages/AdminDashboard.js:187-192 | at most `rows` rows, the slice starting at `page·rows` in original order, empty past the end |
| Paging.PagesCover | src/pages/AdminDashboard.js:187-192 | the first n pages, read in order, are the first n·rows rows: nothing skipped, repeated or reordered |
| Paging.Pager.ChangePage | src/pages/AdminDashboard.js:178-180 | the page becomes the requested one |
| Paging.Pager.ChangeRowsPerPage | src/pages/AdminDashboard.js:182-185 | the new page size, and the page goes back to 0 |
| Paging.Pager.FirstPageAfterResize | src/pages/AdminDashboard.js:182-192 | after a size change the table shows the first rows |
| AdminDashboard.ActionColor | src/pages/AdminDashboard.js:194-202 | a lower-cased action in the table gets its colour; one neither in the table nor inherited gets `#64748b` |
| AdminDashboard.ActionColorCases | src/pages/AdminDashboard.js:194-202 | the lookup ignores case, and sent/received/failed/pending get their four colours |
| AdminDashboard.LoggedActionsUnlisted | src/pages/AdminDashboard.js:194-202 | the logged actions `refined` and `generated` are not keys of the colour table |
| AdminDashboard.LoggedActionsDefault | src/pages/AdminDashboard.js:194-202 | the logged actions `refined` and `generated` both get the default colour |
| AdminDashboard.FilterUsers | src/pages/AdminDashboard.js:419-424 | a user is kept exactly when it is in the list and its email contains the term, ignoring ASCII case |
| AdminDashboard.FilterUsersAppend | src/pages/AdminDashboard.js:419-424 | filtering keeps the original order |
| AdminDashboard.EmptyTermKeepsAll | src/pages/AdminDashboard.js:419-424 | an empty term keeps every user, in order |
| AdminDashboard.SignedOut | src/pages/AdminDashboard.js:447-451 | `token` and `is_admin` are removed and every other stored key keeps its value |
| AdminDashboard.AdminPage.Mount | src/pages/AdminDashboard.js:380-417 | without a token or with `is_admin` other than `true`, sign out to `/login` and request nothing; otherwise one request with the token; users and filter set on success; the error shown on failure, with sign-out on 403 |
| AdminDashboard.AdminPage.LoadUsers | src/pages/AdminDashboard.js:391-414 | one request with the token; on success the users are the reply and the shown list is that reply filtered by the search term, loading ends and the session is kept; on failure the users stay, the error text or `Failed to fetch users` is shown, and only a 403 signs out to `/login` |
| AdminDashboard.AdminPage.HandleError | src/pages/AdminDashboard.js:367-371 | the message is shown and loading ends |
| AdminDashboard.AdminPage.SetSearchTerm | src/pages/AdminDashboard.js:419-424 | the filtered list is recomputed for the new term |
| AdminDashboard.AdminPage.FetchUserLogs | src/pages/AdminDashboard.js:426-445 | on success the logs and the selected user are set; on failure the error is shown and they keep their values |
| AdminDashboard.AdminPage.Logout | src/pages/AdminDashboard.js:447-451 | signs out and navigates to `/login` |
| AdminDashboard.AdminPage.CloseLogsDialog | src/pages/AdminDashboard.js:453-456 | no user is selected and no logs are kept |
| AdminDashboard.NewLogDialogPager | src/pages/AdminDashboard.js:174-176 | the log dialog starts on page 0 with 5 rows |
| EmailHistory.ActionChipColor | src/pages/EmailHistory.js:137-148 | the grey style exactly for actions other than `generate`, `refine` and `send` |
| EmailHistory.ChipStylesDistinct | src/pages/EmailHistory.js:137-148 | the three known actions get three different styles |
| EmailHistory.LoggedActionsAreGrey | src/pages/EmailHistory.js:137-148 | the actions the handlers log (`generated`, `refined`, `sent`) all get the grey style |
| EmailHistory.Preview | src/pages/EmailHistory.js:520-521 | short content is shown whole; longer content as its first 150 characters and `...` |
| EmailHistory.ActionLabel | src/pages/EmailHistory.js:495 | same length; the first character upper-cased when it is an ASCII letter, and the rest unchanged |
| EmailHistory.FormatLogs | src/pages/EmailHistory.js:77-81 | one formatted log per log, in order, keeping the log and adding its formatted time |
| EmailHistory.HistoryPage.constructor | src/pages/EmailHistory.js:50-54 | no logs, loading, no error, and a pager on page 0 with 10 rows |
| EmailHistory.HistoryPage.FetchLogs | src/pages/EmailHistory.js:69-90 | data replaces the logs with their formatted form; a falsy `response.data` (an empty body) keeps them, while an empty array empties them; a failure sets the server's error or `Failed to load email history`; loading ends false |

## Left out

- React rendering, animations, theming, snackbars' timers, clipboard, PDF export, navigation history and the dashboard's fetch with its AbortController and 8-second timeout. Only the state the handlers set is modelled.
- The `Authorization` headers the pages attach, and the `console` output.
- Strings are sequences of Unicode scalar values, not UTF-16 code units. Lengths, `substring` and `charAt` differ from the JavaScript ones for characters outside the Basic Multilingual Plane.
- Js.ToLower: maps ASCII letters only, and so does Js.UpperChar. `toLowerCase`/`toUpperCase` also map other scripts, and can change a string's length. Two members depend on this and are listed next. The file-extension whitelist, the action-colour lookup and validateEmail compare the lower-cased text with fixed ASCII keys or test it only for white space, `@` and `.`. Their verdicts agree with the source. A non-ASCII letter's lower case is never white space, `@` or `.`. It is a single ASCII letter only for the Kelvin sign (to `k`), which none of those keys contains. Dotted capital I gives `i` followed by a combining dot, so the text stays non-ASCII. The `Refined Text:` header match is exact as well: a regular expression's `i` flag without `u` never folds a non-ASCII character onto an ASCII one.
- AdminDashboard.FilterUsers: ignores ASCII case only. A search for `JOSÉ` misses `josé@x.com`, which the source keeps, because the model does not lower-case `É`.
- EmailHistory.ActionLabel: upper-cases an ASCII first letter only. The source gives `É…` for `é…`, and `SSx` for `ßx`, so there its label can be longer than the action.
- Floating point. Division results are exact rationals.
- Dashboard.ConversionRate: `Math.round` of a double is modelled exactly on rationals.
- EmailGeneration.Tenths: `toFixed(1)` is modelled exactly. The quotients by 1024 and 1048576 are exact in a double.
- The pie's percent threshold and percent text are left out.
- Dashboard.NumberOr0: a string is read as an optionally signed run of decimal digits. Other strings are treated as NaN, which also covers fractions, exponents, hexadecimal literals and `Infinity`, which JavaScript would read as numbers.
- Dashboard.ParseColor: takes `#rrggbb` colours only, which are the only ones the page passes. Other inputs to `match(/../g)` and `parseInt` are not modelled.
- Locale formatting (`toLocaleString`, date-fns `format`) is an oracle parameter.
- The multipart parser's field shape is not modelled. Each text field is a single string, and `file.toBuffer()` is an oracle that may fail.
- Gemini, the SQL driver, nodemailer and `jwt.verify` are oracles. Connection pooling, SQL semantics beyond the rows returned, SMTP and token cryptography are not part of this model.
- A verifyToken rejection writes 401 and never settles the handler's promise. The handlers' own catch blocks (`Unauthorized`) are unreachable and are not modelled as separate outcomes.
- The thin CRUD handlers (auth login, admin, log, user, pdf, routes) are not part of this model.
- The `shakeAnimation` delays on the login page are not modelled.
- Login.LoginPage.HandleLogin: a reply always carries a body object. A body that is JSON `null` would make the source throw while reading `token` and show the network message; the model does not have that case.

# README generator: a verified model of its background logic

The extension reads a GitHub repository URL and chooses a few source files from the repository tree. It builds a prompt from them and asks the Gemini text-generation endpoint for a README. All of its own logic is in `background.js`. This project models that logic in Dafny and proves properties of the model:

- `retry.dfy`: `callLlmApiWithRetry`, the retry loop with exponential backoff and jitter, modelled as it is written. Beside it is a corrected loop that reports permanent HTTP errors at once (see Findings).
- `github_url.dfy`: `parseGitHubUrl`, the unanchored regular expression search and the `.git` stripping.
- `readme_request.dfy`: the request assembly of `generateReadmeForRepo`. It selects the relevant files (first twenty), joins and trims what was downloaded, substitutes the fallback prompt, and builds the title line and the final prompt.
- `gemini_response.dfy`: how `generateReadmeWithGemini` and `explainTextOrCode` get the generated text out of the reply. The two use different shape checks. Nothing calls `explainTextOrCode` either: the listener at background.js:2 handles only the `generateReadme` action, and popup.js:70 sends only that one.
- `repo_content.dfy`: the `fetchGitHubRepoContent` loop. It gathers a fixed list of files and sets the full-stack and API flags. Nothing in `background.js` calls it, because line 296 passes `true, true` instead.
- `js_text.dfy`: the JavaScript built-ins these depend on: `trim` with the exact ECMAScript whitespace set, `Array.prototype.join`, and suffix tests.
- `wrappers.dfy`: `Option` and `Result`.

The network, the clock and `Math.random` are inputs to the model:

- **Endpoint call.** Each attempt's reply is an element of `replies`: a rejected `fetch`, or a status together with a body that may fail to parse.
- **Jitter.** Each `Math.random() * 1000` is an element of `jitters`, a real in [0, 1000).
- **Sleeps.** Each sleep is recorded as its delay in milliseconds. Delays are exact reals.
- **File downloads.** The raw download of a file in `generateReadmeForRepo` is a function from path to `Option<string>`.
- **Tree listing.** The tree request is a `TreeReply`.

The `Error` built at background.js:114 carries the status and the API's message, so the status was meant to reach the caller. As written, the `catch` at line 118 catches it, the call is retried, and it ends as the overload error; the loop also sleeps after the fifth failed attempt. The model follows the code as written, and the evidently intended behaviour is modelled separately as the corrected loop.

## Model

| member | source | states |
|---|---|---|
| Retry.CallLlmApiWithRetry | background.js:91-130 | Returns the parsed body of the first attempt whose status is ok and whose body parses, after exactly that many sleeps. If no attempt of the five succeeds, it fails with the overload error after five attempts and five sleeps. The delays slept are, in order, the backoff value for retry 0, 1, and so on. Every kind of failure (rejected fetch, 429/503, any other non-ok status, unparsable body) costs one retry. |
| Retry.FirstSuccess | background.js:104-117 | The index of the first attempt that returns: that attempt succeeds and every earlier one does not; if none succeeds, the number of attempts. |
| Retry.Pow2 | background.js:105 | `Math.pow(2, retries)` is a positive integer. |
| Retry.BackoffTrace | background.js:105-108 | One delay per retry taken, in order. |
| Retry.Backoff | background.js:105-120 | The delay before retry r, `1000·2^r + j`, lies in [1000·2^r, 1000·2^r + 1000) for every jitter j in [0, 1000). |
| Retry.Pow2Grows | background.js:105 | A later power of two is at least twice an earlier one. |
| Retry.BackoffIncreasing | background.js:105 | A later retry waits strictly longer than an earlier one, whatever the jitters. |
| Retry.TraceIncreasing | background.js:120 | The recorded delays strictly increase. |
| Retry.ExhaustedWait | background.js:92-129 | When all five attempts fail, the caller waits between 31 and 36 seconds in total before the error. |
| Retry.RateLimitedTwiceThenOk | background.js:104-117 | Two 429 replies then an ok reply: the body is returned after three attempts, with two sleeps of [1, 2) and [2, 3) seconds. |
| Retry.UnauthorizedAsWritten | background.js:112-125 | A 401 on every attempt ends in the overload error after five attempts and five sleeps. |
| Retry.FirstDecisive | background.js:112-114 | The index of the first attempt that succeeds or gets a permanent status, with every earlier attempt neither. |
| Retry.CallSurfacingApiErrors | background.js:104-129 | The corrected loop. A permanent status ends the call at once with that status and without a sleep. Otherwise it behaves as the loop as written. |
| Retry.SameStopWithoutPermanentFailures | background.js:104-123 | Without permanent statuses, the corrected loop stops at the same attempt as the loop as written. |
| Retry.UnauthorizedCorrected | background.js:112-114 | Under the corrected loop, a 401 on the first attempt is reported with its status after one attempt and no sleep. |
| GitHubUrl.MatchAt | background.js:18 | The pattern anchored at one index only succeeds when the text there really is `github.com/owner/segment` followed by an acceptable tail. |
| GitHubUrl.MatchAtComplete | background.js:18 | Every match at an index is the one MatchAt finds, so the match at a start index is unique. |
| GitHubUrl.Search | background.js:18 | The leftmost index where the anchored matcher succeeds: it succeeds there and at no earlier index; when nothing is found, it succeeds nowhere. |
| GitHubUrl.SearchFinds | background.js:18 | A success at index j with failures before it is what the search returns. |
| GitHubUrl.StripGit | background.js:20 | `.replace(/\.git$/, '')`: a name ending in `.git` loses exactly that suffix, any other name is unchanged, and the result keeps the repository character class. |
| GitHubUrl.ParseGitHubUrl | background.js:17-23 | Returns null exactly when the pattern matches at no index. Otherwise it returns the owner of the leftmost match and its repository segment without a trailing `.git`. The owner is a non-empty run of `[A-Za-z0-9_-]` and the repository name contains only `[A-Za-z0-9_.-]`. |
| GitHubUrl.HttpsMatch | background.js:18 | `https://github.com/owner/segment` followed by a tail matches at index 8. |
| GitHubUrl.PrefixNoMatch | background.js:18 | No match starts inside `https://`. |
| GitHubUrl.ParseOfSearch | background.js:19-20 | The parse result is built from the match the search finds. |
| GitHubUrl.ParseRoundTrip | background.js:17-23 | A URL built from an owner, a segment and an optional `/...` tail parses back to that owner and that segment without `.git`. |
| GitHubUrl.ParsePlainUrl | background.js:17-23 | `https://github.com/o/r`, with `r` not ending in `.git`, parses to exactly `{o, r}`. |
| JsText.RunEnd | background.js:267 | The end of the run of class `p` starting at an index: every code point before it is in the class, and the next one is not. |
| JsText.RunEndIs | background.js:267 | Any run that stops before a non-member or at the end is the one RunEnd finds. |
| JsText.RunStart | background.js:267 | The start of the run of class `p` ending at an index, going no lower than a bound. |
| JsText.Strip | background.js:267 | Trimming returns a slice of the input outside which every code point is whitespace. The slice neither starts nor ends with whitespace, and it is empty exactly when the whole input is whitespace. |
| JsText.Trim | background.js:267 | `trim` with the ECMAScript whitespace and line terminators: the result is no longer than the input, empty exactly when the input is all whitespace, and otherwise neither starts nor ends with whitespace. |
| JsText.Join | background.js:267 | `join`: a non-empty list of parts joins to a string that starts with the first part and ends with the last. |
| JsText.AllAppend | background.js:267 | A concatenation is all whitespace exactly when both parts are. |
| JsText.JoinAll | background.js:267 | With a whitespace separator, the joined string is all whitespace exactly when every part is. |
| ReadmeRequest.RelevantFiles | background.js:245-249 | The filter keeps exactly the `blob` entries with a relevant extension: every kept entry is relevant and from the tree, and every relevant tree entry is kept. |
| ReadmeRequest.RelevantFilesAppend | background.js:246-249 | Filtering a concatenation filters each part and keeps their order. |
| ReadmeRequest.SelectFiles | background.js:245-252 | The files fetched are the first min(20, n) relevant entries of the tree (n relevant entries; none when `tree` is absent), in tree order. |
| ReadmeRequest.FileBlock | background.js:259-262 | A file's block is empty exactly when its download failed; otherwise it starts with `// File: ` and ends with the downloaded text. |
| ReadmeRequest.FileBlocks | background.js:254-265 | One block per selected file, in order. |
| ReadmeRequest.BlockBlank | background.js:259-262 | A file's block is blank exactly when the file was not downloaded. |
| ReadmeRequest.FallbackIffNothingFetched | background.js:267-289 | The fallback prompt is used exactly when none of the selected files was downloaded. |
| ReadmeRequest.RepoSnapshot | background.js:267-289 | The snapshot is never empty: it is the trimmed join of the blocks, or else the fallback prompt. |
| ReadmeRequest.DisplayName | background.js:291-292 | The displayed name is as long as the repository name. Each `-` and `_` becomes a space and no other code point does. The first code point is upper-cased and the rest are unchanged. |
| ReadmeRequest.TitleLine | background.js:292 | `# `, then the display name, then a space, the rocket emoji and a blank line; six code points longer than the name. |
| ReadmeRequest.Prompt | background.js:294 | The prompt starts with the title line, ends with the closing instruction, and holds exactly the snapshot between them. |
| ReadmeRequest.PrepareReadmePrompt | background.js:236-294 | An invalid URL gives "Invalid GitHub repository URL." and a non-ok tree request gives "Failed to fetch file tree from GitHub.". Otherwise the prompt is the title line, the snapshot of the selected files and the fixed closing line. |
| ReadmeRequest.PromptForRepoUrl | background.js:235-294 | For `https://github.com/o/r`, the prompt is titled after `r` and falls back to the canned text exactly when no selected file was downloaded. |
| GeminiResponse.ExtractReadme | background.js:225-231 | The text is returned exactly when candidates[0].content.parts[0].text exists and is non-empty. Otherwise the call fails with "Could not generate README. Unexpected Gemini API response.". |
| GeminiResponse.ExtractExplanation | background.js:317-323 | The README check of lines 225-231 without its test on `text`. It succeeds exactly when the README check does or when the first part exists with a missing or empty `text`. Where the README check succeeds, it returns the same text. Otherwise it fails with its own message. |
| GeminiResponse.ExplanationTextIsReadme | background.js:225-231 | A non-empty explanation text is exactly what the README check returns. |
| GeminiResponse.ExplanationErrorIsReadmeError | background.js:317-323 | A reply the explanation check rejects is rejected by the README check with the README shape message. |
| GeminiResponse.ReadmeCheckIsStricter | background.js:225-231 | Any reply the README check accepts, the explanation check accepts with the same text. |
| GeminiResponse.EmptyTextSplitsTheChecks | background.js:226 | An empty `text` is an error for the README and an answer for the explanation. |
| GeminiResponse.GenerateReadmeWithGemini | background.js:223-231 | The README is extracted from the first successful reply; when no attempt succeeds, the result is the overload error. |
| GeminiResponse.ExplainTextOrCode | background.js:316-323 | The explanation is extracted from the first successful reply with the weaker check; when no attempt succeeds, the result is the overload error. |
| GeminiResponse.MissingCandidates | background.js:117-230 | An ok reply without `candidates` is not retried: the call ends with the shape error. |
| RepoContent.Seen | background.js:61-73 | Whether some fetched file among the first n has a path with the given property. |
| RepoContent.Section | background.js:63 | A file's section is `\n--- File: `, the path, ` ---\n`, the text and a newline: 17 code points longer than path and text together. |
| RepoContent.CollectedGrows | background.js:51-63 | The gathered content only grows by appending: what was gathered from the first n files is a prefix of what is gathered from the first m ≥ n. |
| RepoContent.SectionNotBlank | background.js:63 | Appending a file's section never leaves the content blank. |
| RepoContent.CollectedBlank | background.js:51-86 | The gathered content is blank exactly when no file was fetched. |
| RepoContent.FetchGitHubRepoContent | background.js:25-89 | Fails with the no-content message exactly when no file was fetched. Otherwise the content holds the fetched files' sections in list order. `isFullStack` is set exactly when a backend or frontend marker file was fetched, and `hasApi` exactly when an API marker file was fetched. |

## Left out

- The `chrome.runtime.onMessage` listener (background.js:1-15): extension messaging that only forwards results and messages.
- All of popup.js. It is user-interface and browser-storage glue: DOM updates, `chrome.storage`, `chrome.tabs`, the clipboard and the download.
- Real `fetch`, `response.json()`/`text()`, `setTimeout` and `Math.random`. They are inputs: a sequence of replies, a sequence of jitters, and a download function. Sleeping is recorded as a sequence of delays and is not timed.
- The `Promise.all` fan-out (background.js:254-265): concurrency. It is modelled as one block per selected file, in selection order.
- Rejections of the tree request or of its `json()` (background.js:241-243). They propagate a browser-defined error whose message is not part of the code.
- The prompt templates (background.js:133-210, 301-307), the request payload, the endpoint URL and the headers. The replies are inputs, so nothing modelled depends on them. The fallback prompt and the closing line are modelled as constants.
- Console logging: it is diagnostic only.
- Retry.CallLlmApiWithRetry: the error message at background.js:114 is not modelled, because the code always discards it. `modelName` is used only in log lines and that message.
- Retry.Backoff: the delay is an exact real rather than a double. For r < 5, 1000·2^r is exact in a double, but rounding in the additional jitter is not modelled.
- JsText.Trim: strings are sequences of code points. JavaScript's UTF-16 code units and surrogate pairs are not modelled, and neither is `toUpperCase` beyond ASCII. Repository names are ASCII, so `toUpperCase` beyond ASCII does not arise.
- GeminiResponse.ExtractReadme and GeminiResponse.ExtractExplanation: the reply is modelled by the fields the code reads, each of which may be absent. A `text` or `candidates` field of the wrong JSON type (a number, a non-array) is not modelled.
- JSON `null` values are not modelled: a `null` reply body, a `null` tree body, and `null` array elements. For these the source throws a TypeError rather than its own error. This happens for a `null` reply body at background.js:226 and 317 and a `null` tree body at line 245. On the explanation path it also happens for a `null` `candidates[0]` (line 318) or `parts[0]` (line 320), where the README path's `?.` gives the shape error.
- ReadmeRequest.SelectFiles: a `tree` field that is present but falsy behaves like an absent one and is modelled as `None`. Entries without a string `path` are not modelled.

## Findings

| source | as written | input that shows it | evidently intended | confidence | as-written member | corrected member |
|---|---|---|---|---|---|---|
| background.js:112-125 | The `Error` for a non-ok status other than 429/503 is thrown inside the `try` and caught by its own `catch`. The call is retried with a sleep, the status and message are discarded, and after five attempts it is reported as "Model is currently overloaded or unavailable". | Status 401 on every attempt: five attempts, five sleeps (31 to 36 seconds), then the overload error. | The error message at line 114 shows the status was meant to reach the caller: fail at once with that status, after one attempt and no sleep. | not executed | Retry.UnauthorizedAsWritten | Retry.UnauthorizedCorrected |

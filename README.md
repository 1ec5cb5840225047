# Onesheet serverless functions and documentation bot, modelled in Dafny

The repository holds three AWS Lambda handlers and a GitHub App:

- `serverless/index.js` is an image optimiser with an S3 cache. It strips
  the leading `/` from the request path and merges the query parameters
  over a default `type: "webp"`. It derives the response Content-Type and
  a cache key, `optimized-images/` followed by the base64 of the UTF-8 of
  `JSON.stringify({path, param})`. It then serves the cached object, or it
  reads the original, resizes and re-encodes it, writes the result back
  and serves it, or it answers 404.
- `export-pdf.js` and `export-excel.js` export a page whose URL matches an
  allowed pattern. One renders it to PDF, the other prepares its data and
  writes an XLSX file. Each uploads the file under a timestamped name and
  answers with a signed link as indented JSON. They answer 400, 403 or 500
  with a JSON `{message}` body when a check fails.
- `bot-app.js` is a Probot app. On a push to any branch but its own, it
  collects the files the commits added or modified. It asks an edit model
  to document each one, and it opens a pull request from `wl-commentbot`
  into the pushed branch with the files whose text changed.

The model is split into these modules:

- `Common`: `Option` and bytes.
- `Base64`, `Utf8` and `Json`: the encodings the cache key and the
  response bodies are built from. Each encoder comes with a decoder and a
  round-trip proof.
- `QueryParams`: query parameters and object spread. An object is an
  ordered association list, because `JSON.stringify` writes keys in
  insertion order.
- `ImageHandler`: the image handler. `Handling` is a specification
  function of one request. `ImageService` is a class holding the bucket
  and the log of S3 commands sent. Its `Handle` method follows the
  handler step by step and is proved equal to `Handling`.
- `ExportResponses`, `ExportPdf` and `ExportExcel`: the export handlers.
  They are pure functions of the request, the environment and what each
  awaited call resolves to. They return the response and the list of
  calls made.
- `DocBot`: the push handler. It covers branch extraction, the imperative
  collection of changed files, the language table, the per-file callback
  and the merged result.

The model follows the code where the code differs from the behaviour the
project describes for itself:

- A transform failure gives 404, not 500.
- A failed cache write also gives 404. The write is not a non-fatal side
  effect, because it sits inside the same `try` as the response.
- The cache key depends on the order of the query parameters
  (`ImageHandler.SwappedParametersDifferentKey`).
- `quality` is passed to the encoder without clamping.

## Model

| member | source | states |
|---|---|---|
| Base64.Letter | serverless/index.js:19 | every index 0..63 maps to an alphabet letter that decodes back to the same index |
| Base64.EncodeGroup | serverless/index.js:19 | 1 to 3 bytes encode to 4 alphabet characters, padded with `=` exactly when fewer than 3 bytes |
| Base64.Encode | serverless/index.js:19 | the output has length 4·⌈n/3⌉ and uses only the base64 alphabet |
| Base64.DecodeEncodeGroup | serverless/index.js:19 | decoding an encoded group gives back its bytes |
| Base64.DecodeEncode | serverless/index.js:19 | decoding the base64 of any bytes gives back those bytes |
| Base64.EncodeInjective | serverless/index.js:19-20 | different byte strings have different base64 texts |
| Base64.EncodeNotShorter | serverless/index.js:36 | the base64 body is at least as long as the bytes it carries |
| Utf8.EncodeChar | serverless/index.js:19 | a character encodes to 1 to 4 bytes, one byte exactly for ASCII |
| Utf8.Encode | serverless/index.js:19 | the UTF-8 of a string is no shorter than the string, and non-empty when the string is |
| Utf8.DecodeEncodeChar | serverless/index.js:19 | decoding the UTF-8 of a character gives it back with its byte length |
| Utf8.DecodeEncode | serverless/index.js:19 | decoding the UTF-8 of any string gives back the string |
| Utf8.EncodeInjective | serverless/index.js:19 | different strings have different UTF-8 encodings |
| Json.HexDigit | serverless/index.js:19 | a lower-case hex digit reads back as its value |
| Json.Escape | serverless/index.js:19 | the body of a string literal is at least as long as the string; that it reads back is `Json.UnescapeEscape` |
| Json.Quote | serverless/index.js:19 | a string literal opens and closes with `"` around at least the string's length; that it reads back is `Json.ParseQuote` |
| Json.EscapeChar | serverless/index.js:19 | a character written as itself is neither a quote, a backslash nor a control character; any other output is a backslash escape of at most 6 characters |
| Json.UnescapeEscape | serverless/index.js:19 | reading an escaped string up to its closing quote gives back the string and the rest of the input |
| Json.ParseQuote | serverless/index.js:19 | the JSON string literal of any string reads back as that string |
| Json.QuoteInjective | serverless/index.js:19 | different strings have different JSON string literals |
| Json.Object | serverless/index.js:19 | an object opens with `{` and has at least two characters; that it reads back is `Json.ParseObjectOf` |
| Json.ParseObjectOf | serverless/index.js:19 | a JSON object of string members reads back as the same members in the same order |
| Json.Props | serverless/index.js:15-19 | the serialisation of `{path, param}` is longer than the path |
| Json.ParseProps_Props | serverless/index.js:15-19 | the serialisation of `{path, param}` reads back as that path and that parameter list |
| Json.PropsInjective | serverless/index.js:15-19 | different `{path, param}` pairs serialise differently |
| Json.Indented | export-pdf.js:17-23 | a one-member object indented by two spaces starts with `{`, a newline and two spaces, and ends with a newline and `}` |
| Json.ParseIndentedOf | export-pdf.js:17-23 | the two-space indented one-member object reads back as its value |
| QueryParams.Without | serverless/index.js:6-9 | removing a key leaves a list without that key and no longer than before |
| QueryParams.Assign | serverless/index.js:6-9 | assigning a key gives it the new value, leaves every other key as it was, and grows the list only when the key is new |
| QueryParams.AssignNew | serverless/index.js:6-9 | a new key is appended at the end, which is where spread places it |
| QueryParams.GetConcat | serverless/index.js:6-9 | a lookup in a joined list finds the first occurrence |
| QueryParams.WithoutConcat | serverless/index.js:6-9 | removing a key works piecewise over a joined list |
| QueryParams.Spread | serverless/index.js:6-9 | `{...obj, ...src}` has a key exactly when `obj` or `src` has it, and keeps each key of `obj` at its position |
| QueryParams.EffectiveParams | serverless/index.js:6-9 | the merged parameters start with `type`, and have a key exactly when it is `type` or a query parameter |
| QueryParams.SameShape | serverless/index.js:6-9 | two queries with distinct keys, the same `type` (or none) and the same other parameters in the same order merge to the same parameters |
| QueryParams.SpreadShape | serverless/index.js:6-9 | spreading distinct keys over `{type, …}` overrides `type` in place and appends the other keys in order |
| QueryParams.EffectiveParamsShape | serverless/index.js:6-9 | the parameters are `type` first, with the query's `type` or else "webp", followed by the other query parameters in their order |
| QueryParams.EffectiveParamsAbsent | serverless/index.js:6-9 | no query string, an empty one and `type=webp` alone all give exactly `{type: "webp"}` |
| QueryParams.ExplicitDefaultType | serverless/index.js:6-9 | adding `type=webp` anywhere in a query without `type` gives the same parameters |
| ImageHandler.ObjectPath | serverless/index.js:5 | the path is the raw path without one leading `/`, and is unchanged when there is none |
| ImageHandler.ContentTypeFor | serverless/index.js:11-13 | the type is `image/webp` exactly when the `type` parameter is "webp", and `image/jpeg` otherwise |
| ImageHandler.CacheKey | serverless/index.js:15-20 | the key starts with `optimized-images/` and is longer than the prefix plus the path |
| ImageHandler.RequestKey | serverless/index.js:5-20 | a request's cache key starts with `optimized-images/` and is longer than the prefix plus the original's path |
| ImageHandler.ResizeOf | serverless/index.js:51-55 | width and height are set exactly when given non-empty, each as the parse of the given text; fit is the given one when non-empty, and never empty |
| ImageHandler.QualityOf | serverless/index.js:57-65 | quality is the literal 80 exactly when no non-empty `quality` is given, and otherwise the parse of the given text |
| ImageHandler.Pipeline | serverless/index.js:51-65 | the pipeline keeps the source bytes and the resize options, re-encodes as WebP exactly when the content type is WebP and as JPEG otherwise, with `QualityOf`'s quality |
| ImageHandler.Handling | serverless/index.js:4-94 | one request answers 200 or 404, first reads the request's cache key, sends one to three commands, and a 404 leaves the bucket as it was |
| ImageHandler.Serving | serverless/index.js:22-93 | the store part of a request answers 200 or 404, reads the given cache key first, sends one to three commands, and a 404 changes nothing |
| ImageHandler.CacheKeyInjective | serverless/index.js:15-20 | two keys are equal exactly when their paths and parameter lists are equal |
| ImageHandler.SameParamsSameKey | serverless/index.js:5-20 | requests with the same path and the same merged parameters share a key |
| ImageHandler.DefaultTypeSameKey | serverless/index.js:6-20 | giving `type=webp` explicitly, anywhere in the query, does not change the key; nor does an absent or empty query string |
| ImageHandler.KeyFollowsParameterOrder | serverless/index.js:6-20 | queries whose non-`type` parameters differ as ordered lists get different keys |
| ImageHandler.SwappedParametersDifferentKey | serverless/index.js:6-20 | `width=100&height=50` and `height=50&width=100` get different keys |
| ImageHandler.KeyIsNotPath | serverless/index.js:5-20 | the cache key is never the original's own key, so a cache write never overwrites the original |
| ImageHandler.ImageService.Get | serverless/index.js:23-27 | a read logs the command, changes no object, and finds the stored object exactly when it exists and the read does not fail |
| ImageHandler.ImageService.Put | serverless/index.js:69-75 | a write logs the command and stores the object exactly when it does not fail |
| ImageHandler.ImageService.Handle | serverless/index.js:4-94 | the response, the new bucket and the commands sent are those of the specification function `Handling` |
| ImageHandler.ImageService.Serve | serverless/index.js:22-93 | the cache lookup, original read, transform and write-back give the response, bucket and commands of `Serving` |
| ImageHandler.CacheHit | serverless/index.js:22-38 | a hit answers 200 with the stored Content-Type and the base64 of the stored bytes, reads only the cache key and changes nothing |
| ImageHandler.CacheReadFailureIsMiss | serverless/index.js:22-48 | a failed cache read is handled exactly like an absent key and goes on to read the original |
| ImageHandler.ServingReadFailureIsMiss | serverless/index.js:22-48 | for any cache key other than the original's, a failed cache read goes on exactly like an absent key |
| ImageHandler.MissWritesBack | serverless/index.js:43-84 | a transformed miss writes its bytes once, under the cache key; it answers 200 with them when the write succeeds, and 404 with nothing stored when it fails |
| ImageHandler.MissFailureIsNotFound | serverless/index.js:43-93 | a missing or unreadable original or a failed transform gives a 404 with no headers and no body, and writes nothing |
| ImageHandler.OnlyCacheKeyWritten | serverless/index.js:4-94 | the answer is 200 or 404; only the cache key can change, written last; a 200 answers with what is then stored under the key |
| ImageHandler.ServingOnlyKeyWritten | serverless/index.js:22-93 | the store part changes at most the given cache key, written last, and a 200 answers with what is then stored under it |
| ImageHandler.HitAfterMiss | serverless/index.js:4-94 | after any 200, the same request is a cache hit with the same response, whatever the transformer or the other faults |
| ImageHandler.PipelineOptions | serverless/index.js:51-65 | WebP is used exactly when the content type is WebP; width and height are set exactly when given non-empty; fit defaults to "cover"; quality defaults to 80 |
| DocBot.FindFrom | bot-app.js:28 | the result is the first occurrence of the pattern at or after the start, or there is none |
| DocBot.BranchOf | bot-app.js:28 | without `refs/heads/` the ref is kept as it is; otherwise the first occurrence is cut out and the rest kept in order |
| DocBot.BranchOfRef | bot-app.js:28 | `refs/heads/<name>` gives `<name>`; a ref without `refs/heads/` is kept as it is |
| DocBot.BranchOfRemovesFirstOnly | bot-app.js:28 | only the first `refs/heads/` is removed |
| DocBot.AddKey | bot-app.js:31-32 | setting a key adds only that file and keeps the keys distinct |
| DocBot.AddAll | bot-app.js:31-32 | setting a list of keys adds exactly those files and keeps the keys distinct |
| DocBot.FileList | bot-app.js:30-34 | the file list has no repeats and holds exactly the files some commit added or modified |
| DocBot.CollectFiles | bot-app.js:30-34 | the loop over commits and their added and modified files yields the file list |
| DocBot.Extensions | bot-app.js:11-19 | exactly the seven extensions are known: `//` for .js, .ts and .php, `/* */` for .css, .scss and .less, `#` for .py |
| DocBot.Comment | bot-app.js:12-18 | each wrapper puts its own delimiters around the text and nothing else |
| DocBot.Lower | bot-app.js:37 | lower-casing maps `A`–`Z` to `a`–`z` and keeps every other character |
| DocBot.TrailingRun | bot-app.js:37 | this is the longest run of `[a-z0-9]` at the end of the name |
| DocBot.ExtensionOf | bot-app.js:37 | a match is a suffix of the name that starts with `.` and has at least one more character |
| DocBot.ExtensionOfSuffix | bot-app.js:37 | a name ending in `.` and a run of `[a-z0-9]` has that run, with its dot, as extension |
| DocBot.ExtensionOfKnown | bot-app.js:37 | a name ending in one of the seven known extensions has that extension, and the table knows it |
| DocBot.LowerConcat | bot-app.js:37 | lower-casing works piecewise over a joined name |
| DocBot.LanguageOf | bot-app.js:37-38 | a file has a language only when its lower-cased name ends in one of the seven known extensions |
| DocBot.LanguageOfKnownExtension | bot-app.js:37-38 | a name ending in a known extension, in any letter case, has that extension's language |
| DocBot.LanguageOfUnknownExtension | bot-app.js:37-38 | a name ending in `.` and a run of `[a-z0-9]` that is not a known extension has no language |
| DocBot.LanguageOfUpperCaseScript | bot-app.js:37-38 | `src/App.JS` is JavaScript, because the name is lower-cased first |
| DocBot.LanguageOfMarkdown | bot-app.js:37-38 | `README.md` has no language |
| DocBot.ProcessFile | bot-app.js:36-85 | a file's object holds at most that file, and only when the edit succeeded with a different text |
| DocBot.Changed | bot-app.js:36-85 | the merged object names only files of the push |
| DocBot.ChangedStep | bot-app.js:36-85 | adding one file to the list rejects exactly when the others or that file reject; otherwise it merges that file's object over the others' |
| DocBot.ChangedContents | bot-app.js:36-85 | the merge rejects exactly when some file rejects; otherwise it holds exactly the files whose edit is kept, with the edited text |
| DocBot.BotBranchIgnored | bot-app.js:28-29 | a push to `wl-commentbot` does nothing |
| DocBot.OnPush | bot-app.js:26-122 | a push is ignored exactly when its branch is the bot's; a pull request goes from `wl-commentbot` into the pushed branch, which is not the bot's, and carries some of the push's files and only those |
| DocBot.PullRequestWhen | bot-app.js:28-91 | a pull request is opened exactly when the branch is not the bot's, no file rejects and some edit is kept |
| DocBot.PullRequestContents | bot-app.js:91-103 | the pull request goes from `wl-commentbot` into the pushed branch and carries exactly the kept edits |
| DocBot.UnknownLanguageRejects | bot-app.js:37-50 | a changed file in an unknown language makes the whole push reject, with no pull request |
| DocBot.NothingChangedNoPullRequest | bot-app.js:79-87 | when every edit gives back the same text or fails with a response, no pull request is made |
| ExportResponses.Message | export-pdf.js:10-19 | 400 is "Bad Request", 403 is "Forbidden" and every other code is "Internal Server Error" |
| ExportResponses.Text | export-pdf.js:15-65 | a message body reads back, as two-space indented JSON, as its `message`; a link body as its `signedLink` |
| ExportResponses.ErrorBody | export-pdf.js:15-24 | an error response has the code, and its body reads back as JSON whose `message` is the code's message |
| ExportResponses.SuccessBody | export-pdf.js:56-65 | a success response is 200, and its body reads back as JSON whose `signedLink` is the link |
| ExportResponses.DownloadName | export-pdf.js:30 | the name is the filename parameter when it is non-empty, and "onesheet" otherwise |
| ExportResponses.Timestamp | export-pdf.js:39 | only digits, `T` and `Z` remain, and a string of only those is unchanged |
| ExportResponses.TimestampConcat | export-pdf.js:39 | filtering works piecewise, so the result is the kept characters in their order |
| ExportResponses.TimestampOfIso | export-pdf.js:39 | `YYYY-MM-DDTHH:mm:ss.SSSZ` becomes `YYYYMMDDTHHmmssSSSZ` |
| ExportPdf.Handler | export-pdf.js:28-66 | the status is 200, 400, 403 or 500; no call is made exactly on 400 or 403; any other failure is the 500 error; a 200 makes four calls, the last the signing, and carries its link |
| ExportPdf.Export | export-pdf.js:39-65 | after the checks, the first call generates the PDF into the timestamped temporary path; the answer is the 500 error or a 200 carrying the link signed by the fourth call |
| ExportPdf.Guards | export-pdf.js:34-35 | a missing or empty url, pattern or bucket gives 400 before the pattern is tried; a non-matching url gives 403; neither makes a call |
| ExportPdf.Failures | export-pdf.js:39-50 | generation into `/tmp/pdf-<ts>.pdf` is tried first and its failure gives 500; the upload of `pdf-<ts>` comes next and its failure gives 500 |
| ExportPdf.Succeeds | export-pdf.js:48-65 | 200 exactly when both steps succeed, after removing the file and signing `pdf-<ts>` for 3600 s as `<slug>.pdf`, with the link in the body |
| ExportPdf.DefaultDownloadName | export-pdf.js:30-54 | with no filename, or an empty one, the download is named `slugify("onesheet").pdf` |
| ExportExcel.Handler | export-excel.js:32-73 | the status is 200, 400, 403 or 500; no call is made exactly on 400 or 403; any other failure is the 500 error; a 200 makes five calls, the last the signing, and carries its link |
| ExportExcel.Export | export-excel.js:43-72 | after the checks, the first call prepares the data for the url; the answer is the 500 error or a 200 carrying the link signed by the fifth call |
| ExportExcel.Guards | export-excel.js:38-39 | a missing or empty url, pattern or bucket gives 400 before the pattern is tried; a non-matching url gives 403; neither makes a call |
| ExportExcel.Failures | export-excel.js:43-57 | falsy prepared data gives 500 first, then a failed generation of `/tmp/xlsx-<ts>.xlsx`, then a failed upload of `xlsx-<ts>` |
| ExportExcel.Succeeds | export-excel.js:55-72 | 200 exactly when every step succeeds, after removing the file and signing `xlsx-<ts>` for 3600 s as `<slug>.xlsx`, with the link in the body |
| ExportExcel.DefaultDownloadName | export-excel.js:34-61 | with no filename, or an empty one, the download is named `slugify("onesheet").xlsx` |

## Left out

- S3 (`GetObjectCommand`, `PutObjectCommand`, `s3.send`) is a `map` from key to stored object, with one fault flag per request. The bucket name from `OUTPUT_BUCKET_NAME` is not modelled for the image handler.
- `sharp` is an uninterpreted partial function (`Transformer`) on a description of the pipeline: source bytes, resize options and encoder. None stands for a rejected `toBuffer`, and also for a synchronous throw of `resize`, `webp` or `jpeg` on options sharp refuses (a `NaN` width, a quality outside 1..100); both end in the same 404 (serverless/index.js:51-65, 85-93).
- ImageHandler.PipelineOptions: `parseInt` is kept symbolic (`ParseIntOf(raw)`), so what a non-numeric width, height or quality does is not modelled.
- ImageHandler.ImageService.Handle: S3 exceptions other than a failed read or write are not distinguished, and logging is left out.
- `generatePdf`, `prepareDataForExcel`, `generateXlsx`, `uploadToBucket` and `createSignedLink` live in `lib/`, which is not part of this model. Each is reduced to the value it resolves to, and a rejection of one of them is not modelled.
- ExportPdf.Handler and ExportExcel.Handler: the `new RegExp(pattern)` test is an uninterpreted predicate, so a pattern that throws is not modelled. `slugify` and the clock (`new Date().toISOString()`) are parameters. `fs.unlinkSync` is recorded as a call, and its failure is not modelled.
- ExportExcel.Handler: every falsy value `prepareDataForExcel` may resolve to is one case, None.
- DocBot: the GitHub API (`getContent`, `createPullRequest`), its base64 content decoding and the OpenAI request are left out. Each file's fetched content and edit outcome are parameters. The pull request's title, body, commit message, author and dates are not modelled.
- DocBot.Changed: the per-file promises run concurrently; the model evaluates them in order. Only whether `Promise.all` rejects and the merged result are kept.
- DocBot.ProcessFile: an edit error without `response` is a rejection (the `catch` block itself throws). Its message and the logging are left out.
- DocBot.Lower: lower-casing is ASCII only; full Unicode case mapping is not modelled.
- QueryParams: JavaScript enumerates integer-like property names first, whatever order they were added in. Keys such as `__proto__` and `type` values naming `Object.prototype` members (`{webp: …}[param.type]`) are not modelled either: keys keep insertion order and plain lookup.
- DocBot.FileList: the same holds for the file-name keys of `acc`: a name that is an integer such as `123` would be listed first by `Object.keys`, and `__proto__` adds no key; the model keeps every name in insertion order.
- Utf8: strings are sequences of Unicode scalar values, so the lone surrogates a JavaScript string may hold are not modelled.
- Json: only string-valued members are serialised, which is all the handlers write.

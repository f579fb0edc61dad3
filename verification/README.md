# quick_capture share intake, modelled in Dafny

The Android side of quick_capture receives "share" intents from other apps and
hands what it received to the Flutter side. It keeps two nullable fields,
`sharedText` and `sharedUrl`. The intent handler fills them from a
`text/plain` ACTION_SEND share:

- text that starts with `http://` or `https://` becomes the URL, and the text
  becomes empty;
- any other text is kept, and the first match of `https?://[^\s]+` in it, if
  any, becomes the URL;
- if the resulting text is empty, `EXTRA_SUBJECT` takes its place.

When a Flutter engine is attached, the handler also pushes the two fields.
The Flutter side fetches them with the `getSharedData` method call, which
answers with both fields and then sets both to null.

The project has four files:

- `optional.dfy` (`Optional`): the option type that stands for Kotlin's nullable values.
- `url_scan.dfy` (`UrlScan`): the regular expression `https?://[^\s]+` as a
  scanner over indices (`FirstStart`, `RunEnd`, `FindSpan`, `FindUrl`). It
  also gives a reference definition of what the pattern matches (`IsMatch`)
  and which match a leftmost, greedy search reports (`LeftmostLongest`).
  Lemmas prove that the scanner reports exactly that match, and reports
  nothing exactly when there is no match.
- `share_intake.dfy` (`ShareIntake`): the intent and the data sent to Flutter
  as datatypes, and `Received`, the specification of what an accepted share
  leaves in the fields. Lemmas state the classification rules. The class
  `MainActivity` has the two fields; `HandleIntent` and `OnMethodCall` update
  them step by step, as the Kotlin code does. `HandleIntent` is proved
  against `Received`; `OnMethodCall` is proved to answer with the fields as
  they were and then clear them.
- `examples.dfy` (`ShareExamples`): worked shares proved from the
  definitions. They cover a link inside a sentence, a bare link with a
  subject, an upper-case scheme, and a share with no link that follows one
  with a link.

Three behaviours of the code are easy to miss, and the model keeps them:

- A later share does not replace everything pending. Plain text without a
  link keeps the URL stored by an earlier share (`StaleUrlSurvives`).
- The subject replaces the text whenever the text is empty. That includes an
  empty shared text, not only a bare link (`SubjectOnlyForEmptyText`).
- The handler takes no attachments and records no file paths, so the
  pending data is only `text` and `url`.

## Model

| member | source | states |
|---|---|---|
| UrlScan.SchemeLength | android/app/src/main/kotlin/com/example/quick_capture/MainActivity.kt:61 | `https?://` consumes 8 characters where `https://` starts, 7 where `http://` starts, and fits nowhere else |
| UrlScan.RunEnd | android/app/src/main/kotlin/com/example/quick_capture/MainActivity.kt:61 | the greedy `[^\s]+` run stops at the first white space (Java `\s`: space, tab, LF, VT, FF, CR) or at the end of the text, and holds no white space |
| UrlScan.FirstStart | android/app/src/main/kotlin/com/example/quick_capture/MainActivity.kt:62 | the search returns the first index where a match can start, and no match can start before it; none means no index qualifies |
| UrlScan.FindSpan | android/app/src/main/kotlin/com/example/quick_capture/MainActivity.kt:61-62 | `urlRegex.find(it)`: the bounds of the match found, within the text; what they are is stated by `FindSpanIsLeftmostLongest` and `FindUrlNoneIffNoMatch` |
| UrlScan.FindUrl | android/app/src/main/kotlin/com/example/quick_capture/MainActivity.kt:62-64 | `urlMatch.value`: the found URL is a substring `s[i..j]` of the text; `FoundIsLeftmostLongest` and `LeftmostLongestIsFound` state which one |
| ShareIntake.Accepts | android/app/src/main/kotlin/com/example/quick_capture/MainActivity.kt:49-53 | the handler stores something only for action ACTION_SEND, type exactly `text/plain` (a null type is refused) and a non-null EXTRA_TEXT; `HandleIntent` proves every other intent changes nothing |
| ShareIntake.IsBareUrl | android/app/src/main/kotlin/com/example/quick_capture/MainActivity.kt:55 | the case-sensitive prefix test for `http://` or `https://`; a bare link has at least 7 characters, so empty text is never bare |
| ShareIntake.Received | android/app/src/main/kotlin/com/example/quick_capture/MainActivity.kt:55-72 | the classification and subject override of an accepted share; it always leaves a non-null text and never clears a URL stored earlier; its cases are stated by `BareUrlShare`, `EmbeddedUrlShare`, `PlainTextKeepsUrl` and `SubjectOnlyForEmptyText` |
| UrlScan.FindSpanIsLeftmostLongest | android/app/src/main/kotlin/com/example/quick_capture/MainActivity.kt:61-62 | a span found by `find` is a match; no match starts earlier; no match at that start is longer; the span ends at white space or at the end of the text |
| UrlScan.FindUrlNoneIffNoMatch | android/app/src/main/kotlin/com/example/quick_capture/MainActivity.kt:62-63 | `find` returns null exactly when no substring matches `https?://[^\s]+` |
| UrlScan.FoundIsLeftmostLongest | android/app/src/main/kotlin/com/example/quick_capture/MainActivity.kt:62-64 | a value returned by `find` is the leftmost-longest match of the text |
| UrlScan.LeftmostLongestIsFound | android/app/src/main/kotlin/com/example/quick_capture/MainActivity.kt:62-64 | the leftmost-longest match, wherever it lies, is the value `find` returns |
| UrlScan.FoundUrlShape | android/app/src/main/kotlin/com/example/quick_capture/MainActivity.kt:61-64 | a found URL starts with `http://` or `https://` (case-sensitive) and holds no white space |
| UrlScan.MatchStartsThere | android/app/src/main/kotlin/com/example/quick_capture/MainActivity.kt:61-62 | every match starts at an index the scanner accepts and ends no later than the scanner's run |
| UrlScan.RunIsMatch | android/app/src/main/kotlin/com/example/quick_capture/MainActivity.kt:61-62 | where the scanner accepts a start, the scheme plus the run after it is a match |
| UrlScan.SkipTo | android/app/src/main/kotlin/com/example/quick_capture/MainActivity.kt:62 | the search passes over indices where no match can start |
| ShareIntake.BareUrlShare | android/app/src/main/kotlin/com/example/quick_capture/MainActivity.kt:55-72 | text starting with `http://` or `https://` becomes the URL unchanged; the text is `""`, or the subject when one is given |
| ShareIntake.EmbeddedUrlShare | android/app/src/main/kotlin/com/example/quick_capture/MainActivity.kt:58-65 | other text is stored unchanged and the URL is its leftmost-longest match, whatever was stored before |
| ShareIntake.PlainTextKeepsUrl | android/app/src/main/kotlin/com/example/quick_capture/MainActivity.kt:58-65 | other text with no match leaves the URL field as it was before the share; it is not cleared |
| ShareIntake.SubjectOnlyForEmptyText | android/app/src/main/kotlin/com/example/quick_capture/MainActivity.kt:55-72 | the stored text is the subject exactly when a subject is given and the text would be empty (bare link or empty input); otherwise it is `""` for a bare link or the input itself |
| ShareIntake.NewUrlComesFromText | android/app/src/main/kotlin/com/example/quick_capture/MainActivity.kt:54-65 | whenever a share changes the URL, the new URL is the bare link itself, or else the leftmost-longest match `text[i..j]` in the shared text, which starts with a scheme and holds no white space |
| ShareIntake.MainActivity.constructor | android/app/src/main/kotlin/com/example/quick_capture/MainActivity.kt:11-12 | both pending fields start out null |
| ShareIntake.MainActivity.HandleIntent | android/app/src/main/kotlin/com/example/quick_capture/MainActivity.kt:45-85 | an ACTION_SEND `text/plain` intent with EXTRA_TEXT updates the fields as `Received` says; any other intent (other action, null or other type, null text) changes nothing and pushes nothing; with an engine attached, an accepted share pushes exactly the fields just stored and does not clear them |
| ShareIntake.MainActivity.OnMethodCall | android/app/src/main/kotlin/com/example/quick_capture/MainActivity.kt:17-32 | `getSharedData` answers with the fields as they were and then sets both to null; any other method answers "not implemented" and changes nothing |
| ShareIntake.FetchTwice | android/app/src/main/kotlin/com/example/quick_capture/MainActivity.kt:19-27 | two fetches with no share in between: the first gets what was pending, the second gets null for both fields |
| ShareIntake.ShareTwice | android/app/src/main/kotlin/com/example/quick_capture/MainActivity.kt:17-72 | two accepted shares before a fetch: the fetched pair is the first share's result updated by the second; the text is the second share's alone, the first share's link survives a second share without one, and the fetch then clears both fields |
| ShareExamples.SentenceLink | android/app/src/main/kotlin/com/example/quick_capture/MainActivity.kt:61-64 | in "check this out https://x.co/a see" the found link is "https://x.co/a" |
| ShareExamples.SentenceShare | android/app/src/main/kotlin/com/example/quick_capture/MainActivity.kt:58-65 | sharing that sentence stores it whole as the text and "https://x.co/a" as the URL |
| ShareExamples.BareLinkWithSubject | android/app/src/main/kotlin/com/example/quick_capture/MainActivity.kt:55-72 | sharing "https://example.com" with subject "My Link" stores the link as the URL and "My Link" as the text |
| ShareExamples.UpperCaseSchemeNotFound | android/app/src/main/kotlin/com/example/quick_capture/MainActivity.kt:61-62 | "HTTPS://x.co" holds no match: the pattern is case-sensitive |
| ShareExamples.UpperCaseSchemeShare | android/app/src/main/kotlin/com/example/quick_capture/MainActivity.kt:55-65 | "HTTPS://x.co" is shared as plain text and the URL field keeps its old value |
| ShareExamples.StaleUrlSurvives | android/app/src/main/kotlin/com/example/quick_capture/MainActivity.kt:58-65 | after a link was stored, sharing "hi" replaces the text and keeps the old link |

## Left out

- Flutter transport: the `MethodChannel` objects, `result.success`, `result.notImplemented` and `invokeMethod("receivedSharedData", …)` are library calls. The fetch is modelled as the `Reply` that `OnMethodCall` returns, and the push as the optional value that `HandleIntent` returns.
- Whether a Flutter engine is attached is state of the Flutter framework. It is a parameter of `HandleIntent`.
- Activity lifecycle: `onCreate`, `onNewIntent` and `configureFlutterEngine` only pass the intent on or install the handler. The Android `Intent` API is replaced by the `Intent` datatype with action, type, text and subject.
- The Kotlin `Regex` engine is not modelled in general. Only the one pattern `https?://[^\s]+` is modelled, as a scanner with its own specification.
- Strings are sequences of Unicode characters, not UTF-16 code units. The scheme characters are ASCII and no surrogate half is white space, so this does not change what is found.
- UrlScan.IsSpace: takes `\s` to be the six ASCII characters of the desktop Java regex engine (space, tab, LF, VT, FF, CR). On Android the regex engine is backed by ICU, whose `\s` also covers Unicode white space such as U+0085, U+00A0, U+2028 and U+3000. That class is not modelled: for `"see https://x.co/a\u00A0b"` the model's URL runs on past U+00A0, where ICU's would stop at it.
- Thread safety: the Kotlin code has no locking, and the model is sequential.
- The handler acts only on `text/plain` ACTION_SEND intents. Every other type, attachments included, is ignored by `handleIntent`, and likewise by `Accepts`.

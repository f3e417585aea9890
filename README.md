# patentlec — lecture-reference chat, modelled in Dafny

patentlec is a small Django site. Students ask a chat about the patent system, and a
waveform player shows the passage of a recorded lecture that the answer refers to. Two
pieces hold the logic modelled here:

- **The `chat_api` view** (`chat_app/views.py`). It accepts only POST. It forwards the
  query to a workflow backend and returns the backend's output text. When that text has a
  tag `参考箇所: [M:SS-M:SS]`, it also returns the leftmost tag's two times, converted to
  seconds by `time_to_seconds`.
- **The page script** (`chat_app/static/chat_app/main.js`). It keeps the chat history,
  trims and sends the input, and shows a loading placeholder while it waits. It removes
  the placeholder and appends the answer or an error. A returned range becomes the player's only
  region, with retries while the player is not ready, and the script seeks to the range's
  start. The script also drives the player: `MM:SS` display, the play and pause buttons, the
  click-to-create region, and the loop handlers (`audioprocess`, `finish`).

Modules, one per file:

| file | module | what it holds |
|---|---|---|
| common.dfy | `Common` | `Option`, JSON values and objects, property lookup |
| decimal.dfy | `Decimal` | Python's `int()` on digit strings; JavaScript's `toString()` on naturals |
| reference_tag.dfy | `ReferenceTag` | the tag grammar, `str.split`, `time_to_seconds`, `re.search` (leftmost match) |
| chat_api.dfy | `ChatApi` | the `chat_api` view as a method from (request method, backend outcome) to a response |
| time_format.dfy | `TimeFormat` | `formatTime`, with JavaScript's truncating `%`, `Math.floor` and `padStart` |
| playback.dfy | `Playback` | class `Player`: the player state, the region handlers, the buttons, the retry timers |
| chat.dfy | `Chat` | `trim`, messages, class `Chat`: history, input, `sendMessage` before and after its `await` |
| round_trip.dfy | `RoundTrip` | properties linking the view and the page: format then parse, reply handling end to end |

The page is mutable state, so `Player` and `Chat` are classes. Their handlers are methods
with field-granular `modifies` clauses. The server side keeps no state: the view is a method
that builds its response record step by step from the request method and the backend's outcome, and everything it calls is a function.
The two inputs from outside the model are:

- `Upstream`: how the view's `try` block ended.
- `FetchOutcome`: what `fetch` and `response.json()` produced.

Both are parameters.

## Model

| member | source | states |
|---|---|---|
| Decimal.DigitsValue | chat_app/views.py:58 | `int()` of an n-digit string is below 10^n, with the most significant digit first |
| Decimal.LeadingZero | chat_app/views.py:58 | A leading zero does not change what `int()` reads, so `"07"` and `"7"` are the same minutes |
| Decimal.NatToString | chat_app/static/chat_app/main.js:20 | `toString()` of a natural gives ASCII digits that read back as the same number, with no leading zero, one digit exactly below 10 and at most two below 100 |
| ReferenceTag.IndexOf | chat_app/views.py:58 | The position found holds the separator and no earlier position does |
| ReferenceTag.Split | chat_app/views.py:58 | `str.split(':')` returns at least one piece, with no separator in any piece, and the pieces joined by the separator give back the input |
| ReferenceTag.ClockSplit | chat_app/views.py:58 | A matched time splits into exactly two pieces: its minute digits and its two second digits |
| ReferenceTag.TimeToSeconds | chat_app/views.py:57-59 | The result is minutes × 60 + seconds as `int()` reads each field, with no range check on the seconds, and it is never above 99·60+99 |
| ReferenceTag.ClockAt | chat_app/views.py:45 | `\d{1,2}:\d{2}` at a position: when it matches, the span is a time of the accepted form |
| ReferenceTag.ClockAtComplete | chat_app/views.py:45 | Any time of the accepted form starting at a position is the span that ClockAt finds: the greedy match is unique |
| ReferenceTag.MatchAt | chat_app/views.py:45 | The anchored pattern matches only a whole tag in the exact form, and its groups are the tag's two times |
| ReferenceTag.MatchAtComplete | chat_app/views.py:45 | Every tag in the exact form is matched where it starts, with its own times (the converse of MatchAt) |
| ReferenceTag.Search | chat_app/views.py:46 | `re.search` returns the leftmost matching position and no earlier position matches; it returns nothing exactly when no position matches |
| ReferenceTag.Reference | chat_app/views.py:45-62 | Reported times are each at most 99·60+99 = 6039 seconds |
| ReferenceTag.ReferenceAbsent | chat_app/views.py:46-52 | No times are reported exactly when the pattern matches at no position of the answer |
| ReferenceTag.ReferenceIsLeftmost | chat_app/views.py:46-62 | When no tag starts before a given tag, the reported times are that tag's times, converted by time_to_seconds |
| ReferenceTag.LeadingTagDecides | chat_app/views.py:46 | An answer that opens with a tag reports that tag's times, whatever tags follow |
| ReferenceTag.ExampleTimes | chat_app/views.py:57-59 | `0:75` is read as 75 seconds and `0:10` as 10 |
| ReferenceTag.NoValidation | chat_app/views.py:45-62 | An out-of-range seconds field and a start after the end are reported unchanged: `[0:75-0:10]` gives (75, 10) |
| ChatApi.HandleChat | chat_app/views.py:13-69 | A non-POST request gets 405 and the POST-required error. A missing API key gets 500 with its message. An exception gets 500 with `エラーが発生しました: ` plus its text. An answer gets 200 with `response_text`, plus `start_time`/`end_time` exactly when the answer has a reference, holding their values |
| TimeFormat.Trunc | chat_app/static/chat_app/main.js:19 | Truncation toward zero: for x ≥ 0 the result t satisfies 0 ≤ t ≤ x < t + 1, and for x < 0 it satisfies t ≤ 0 and t − 1 < x ≤ t |
| TimeFormat.Rem60 | chat_app/static/chat_app/main.js:19 | JavaScript's `% 60` differs from the dividend by a whole multiple of 60, has the dividend's sign and lies strictly between −60 and 60, which fixes it; for non-negative input it is the floored remainder |
| TimeFormat.IntToString | chat_app/static/chat_app/main.js:20 | `toString()` of an integer reads back: ASCII digits whose value is n when n ≥ 0, and `-` followed by ASCII digits whose value is −n when n < 0; there is no leading zero in either case |
| TimeFormat.PadStart2 | chat_app/static/chat_app/main.js:20 | `padStart(2, '0')` leaves strings of length two or more unchanged and puts zeros in front of shorter ones up to length two |
| TimeFormat.TwoDigits | chat_app/static/chat_app/main.js:20 | Two ASCII digits that read back as the value |
| TimeFormat.PaddedTwoDigits | chat_app/static/chat_app/main.js:20 | For a value below 100, padded `toString()` gives exactly its two digits |
| TimeFormat.FormatTimeNonNegative | chat_app/static/chat_app/main.js:17-21 | For a non-negative time: padded whole minutes, a colon, padded whole leftover seconds, which are below 60 |
| TimeFormat.FormatTimeShape | chat_app/static/chat_app/main.js:17-21 | Below 6000 seconds the text is exactly five characters `MM:SS`, minutes below 100 and seconds below 60 |
| TimeFormat.FormatWholeSeconds | chat_app/static/chat_app/main.js:17-21 | A whole number of seconds n < 6000 is written as the digits of n / 60, a colon, and the digits of n % 60 |
| TimeFormat.FormatTime | chat_app/static/chat_app/main.js:17-21 | `formatTime` itself, a function without a contract of its own: its meaning is stated by FormatTimeNonNegative, FormatTimeShape, FormatWholeSeconds and RoundTrip.FormatThenParse |
| Playback.Min | chat_app/static/chat_app/main.js:102 | `Math.min` is the smaller argument |
| Playback.ClickRegion | chat_app/static/chat_app/main.js:100-102 | The region starts at the clicked time and ends at start + 30 or at the track's end, whichever comes first. It never lasts more than 30 s or passes the end, and for a click inside the track 0 ≤ start ≤ end |
| Playback.PendingWorkRemove | chat_app/static/chat_app/main.js:231-244 | Firing a timer takes exactly its weight off the pending work |
| Playback.Player.constructor | chat_app/static/chat_app/main.js:3-4 | After set-up the player is loading, with no region, no timers and not playing |
| Playback.Player.BecomeReady | chat_app/static/chat_app/main.js:48-50 | The ready event makes the player ready with a positive duration |
| Playback.Player.SetLoop | chat_app/static/chat_app/main.js:9 | The loop flag is the checkbox's state |
| Playback.Player.UpdateTimeDisplay | chat_app/static/chat_app/main.js:135-138 | The displays show the given start and end, as `formatTime` writes them |
| Playback.Player.CreateRegion | chat_app/static/chat_app/main.js:110-132 | When the player is not ready nothing changes. Otherwise earlier regions are cleared, the new region is the only and current one, and the displays show its times |
| Playback.Player.Click | chat_app/static/chat_app/main.js:98-106 | When the player is ready, the only and current region is ClickRegion of the click, within the track and at most 30 s long, and the displays show its start and end. When it is not ready, regions, current region and displays are unchanged |
| Playback.Player.RegionCreated | chat_app/static/chat_app/main.js:71-74 | A dragged-out region is added after the others and becomes current, and the displays show its times |
| Playback.Player.RegionUpdateEnd | chat_app/static/chat_app/main.js:77-80 | The moved region gets its new bounds, becomes current, and the displays follow |
| Playback.Player.RegionClick | chat_app/static/chat_app/main.js:83-95 | The position becomes the fraction passed in times the track's length, and the playing state stays as it was |
| Playback.Player.IsCurrentPositionInRegion | chat_app/static/chat_app/main.js:141-145 | False without a region; otherwise true exactly when start ≤ position ≤ end, both ends included |
| Playback.Player.PlayButton | chat_app/static/chat_app/main.js:148-160 | Playback starts at the current region's start when the position lies in the region, and at 0 otherwise |
| Playback.Player.PauseButton | chat_app/static/chat_app/main.js:163-173 | The playing state is toggled and the position is untouched |
| Playback.Player.AudioProcess | chat_app/static/chat_app/main.js:61-68 | While looping a region and playing, a position at or past the region's end jumps to its start; nothing else moves it |
| Playback.Player.Finish | chat_app/static/chat_app/main.js:53-58 | With loop on and a region, playback restarts at the region's start; otherwise nothing changes |
| Playback.Player.Attempt | chat_app/static/chat_app/main.js:231-244 | When ready, the reference's region is the only and current one, the displays show its times, and the seek to its start is scheduled. Otherwise regions, current region and displays are unchanged, and a retry with the next count is scheduled below 10 and nothing at 10. The pending work always decreases |
| Playback.Player.FireTimer | chat_app/static/chat_app/main.js:236-240 | Every timer firing strictly lowers the pending work, so the retry chain for one reference ends after at most 11 tries. A delayed seek changes only the position, to the reference's start. A retry leaves the position alone and does what Attempt says, displays included |
| Chat.TrimStart | chat_app/static/chat_app/main.js:196 | Drops exactly the leading ECMAScript whitespace: a suffix of the input, with only whitespace removed, that starts with non-whitespace |
| Chat.TrimEnd | chat_app/static/chat_app/main.js:196 | Drops exactly the trailing ECMAScript whitespace |
| Chat.Trim | chat_app/static/chat_app/main.js:196-197 | `trim()` is empty exactly when the input is all whitespace; otherwise its first and last characters are not whitespace. TrimIsInfix states that it is the input's own middle part |
| Chat.TrimIsInfix | chat_app/static/chat_app/main.js:196 | The trimmed text is a contiguous part of the input with only whitespace before and after it |
| Chat.InfixOfSuffix | chat_app/static/chat_app/main.js:196 | Cutting leading whitespace and then trailing whitespace leaves a middle part of the input with only whitespace around it |
| Chat.ReplyReference | chat_app/static/chat_app/main.js:223-233 | A region is asked for exactly when the reply was received, has no truthy `error`, and carries both `start_time` and `end_time` as integers; the region uses those values |
| Chat.Truthy | chat_app/static/chat_app/main.js:223 | The `data.error` test, a predicate without a contract of its own: `undefined`, the empty string and 0 are falsy. Its effect is stated by ReplyReference and RoundTrip.ErrorAsThePageReadsIt |
| Chat.ReplyText | chat_app/static/chat_app/main.js:223-249 | The text of the one message a finished exchange adds, a function without a contract of its own: stated by Chat.Chat.ReceiveReply, RoundTrip.AnswerAsThePageReadsIt and RoundTrip.ErrorAsThePageReadsIt |
| Chat.RemoveById | chat_app/static/chat_app/main.js:221 | `loadingMessage.remove()`, a function without a contract of its own: stated by RemoveByIdMembers, RemoveByIdIncreasing, RemoveByIdAppend, RemoveByIdAbsent and RemoveLast |
| Chat.RemoveByIdMembers | chat_app/static/chat_app/main.js:221 | `remove()` keeps exactly the messages with a different identity |
| Chat.RemoveByIdIncreasing | chat_app/static/chat_app/main.js:221 | Removing a message keeps the history in creation order |
| Chat.RemoveByIdAbove | chat_app/static/chat_app/main.js:221 | Every message that survives removal has an id above any bound all the original ids were above |
| Chat.RemoveByIdAppend | chat_app/static/chat_app/main.js:221 | Removing from a concatenation removes from each part |
| Chat.RemoveByIdAbsent | chat_app/static/chat_app/main.js:221 | Removing an identity that is not present changes nothing |
| Chat.RemoveLast | chat_app/static/chat_app/main.js:221 | Removing the newest message, when its identity is the largest, gives back the history before it |
| Chat.Chat.constructor | chat_app/static/chat_app/main.js:267 | The page opens with the greeting as the only message and an empty input |
| Chat.Chat.SetInput | chat_app/static/chat_app/main.js:13 | The input field holds what the user typed |
| Chat.Chat.AddMessage | chat_app/static/chat_app/main.js:176-192 | One new message with a fresh identity is appended and nothing else in the history changes |
| Chat.Chat.SendMessage | chat_app/static/chat_app/main.js:195-206 | An input that trims to empty changes nothing and is not cleared. Otherwise the trimmed text is added as a user message, the input is cleared, the loading placeholder follows, and the query is the trimmed text |
| Chat.Chat.ReceiveReply | chat_app/static/chat_app/main.js:218-250 | The placeholder is removed and one bot message is added: the answer, `エラー: ` plus the error, or `通信エラーが発生しました: ` plus the message. The player's regions, current region, displays and timers become AfterReply of their old values. Without a reference all of them stay. With one on a ready player, the region is the only and current one, the displays show it and the seek is pending. With one on a loading player, only the first retry is added |
| Chat.Chat.SendAndReceive | chat_app/static/chat_app/main.js:195-250 | One uninterrupted exchange. A blank input changes nothing: history, input, next identity and the whole player view stay. Otherwise the history gains exactly the user message followed by the reply message, the placeholder is gone, the input is cleared, three identities are used, and the player view becomes AfterReply of the old one, as for ReceiveReply |
| RoundTrip.FormatThenParse | chat_app/views.py:57-59 | For whole seconds below 6000, the `formatTime` text is a time the view's pattern accepts, and `time_to_seconds` reads it back unchanged |
| RoundTrip.FormattedTagIsRecognised | chat_app/views.py:45-62 | A tag written with `formatTime` times below 6000 s is recognised, with exactly those times |
| RoundTrip.ServeAnswer | chat_app/views.py:42-64 | A POST answered by the backend with a text reaches the page as a reply whose bot message is that text and whose region request is that text's reference |
| RoundTrip.AnswerAsThePageReadsIt | chat_app/static/chat_app/main.js:223-233 | For the view's 200 response, the page shows the backend text unchanged and asks for a region exactly when the text has a reference, with the reference's times |
| RoundTrip.ErrorAsThePageReadsIt | chat_app/static/chat_app/main.js:223-224 | Every error response of the view is non-200 with a non-empty error string, so the page shows `エラー: ` plus that string and makes no region |
| RoundTrip.AskAboutLecture | chat_app/static/chat_app/main.js:195-244 | A question answered with a text: the history gains the trimmed question and exactly that text, and three identities are used. The player view becomes AfterReply of the old one for the text's reference: unchanged without one (current region and displays included), otherwise the region shown on a ready player or a retry pending on a loading one |
| RoundTrip.DisplaysReadBack | chat_app/static/chat_app/main.js:135-138 | Displays holding whole seconds below 6000 show five-character `MM:SS` texts that the view's pattern accepts and `time_to_seconds` reads back as those seconds |

## Left out

- Python's `\d` and `int()` accept every Unicode decimal digit (category Nd). `Decimal.IsDigit` models only the ASCII digits and the fullwidth digits U+FF10..U+FF19.
- ReferenceTag.TimeToSeconds: defined only on strings of the form the pattern accepts. Those are its only inputs in `chat_api`, so the `ValueError` paths of `int()` and unpacking are not modelled.
- The HTTP call to the workflow backend, `json.loads` of the request body, `os.getenv`, and the backend's JSON shape are not modelled. Their results are the `ChatApi.Upstream` parameter: a missing key, an exception with its `str(e)`, or the output text. The query passed on is therefore not modelled either.
- The `index` view (chat_app/views.py:9-10) only renders a template and is not modelled.
- URL routing (chat_app/urls.py, django_dify_chat/urls.py) is not modelled. chat_app/urls.py:7 routes to `views.serve_video`, which chat_app/views.py does not define.
- `fetch`, `response.json()` and the JSON encoding between server and page are not modelled. The page receives `Chat.FetchOutcome`, whose JSON values are only strings and integers.
- Chat.ReplyReference: a `start_time` or `end_time` that is present but not an integer makes no region. The page would pass such a value to `createRegion`, but the view only ever sends integers.
- The waveform library is reduced to the state its calls read and write: ready, duration, position, playing, regions. Decoding, drawing, drag selection and the media clock are not modelled.
- Player.RegionClick: takes the clicked fraction as a parameter; the pixel arithmetic `layerX / offsetWidth` is DOM geometry and is not modelled.
- `seekTo(t / duration)` is modelled as setting the position to `t`. The library's own range check and clamping are not modelled.
- `setTimeout` delays (200 ms, 500 ms) are not modelled. A pending callback is a `Playback.Timer`, and `FireTimer(i)` lets any pending one run next, so the model allows every order the delays could produce.
- The `if (wavesurfer)` guards are not modelled, because the player exists once the page has loaded. Messages and time displays are modelled as data, not DOM elements. Scrolling the history, CSS classes beyond the message kind, and `console` output are not modelled.
- Numbers are exact reals, not IEEE doubles. `formatTime` of NaN, of infinities, and of values whose `toString` uses exponent notation are not modelled.
- The Enter key and the send button both just call `sendMessage`, which is modelled once (`Chat.Chat.SendMessage`). Interleavings of several exchanges in flight are possible by calling `SendMessage` and `ReceiveReply` separately. `SendAndReceive` and `RoundTrip.AskAboutLecture` state only the uninterrupted case.
- RoundTrip.AskAboutLecture: requires an input that does not trim to empty. The blank case is stated by `Chat.Chat.SendAndReceive`.
- The initial page state comes from the page template, which is not part of this model. `Playback.Player.constructor` assumes the loop box starts unticked, and `Chat.Chat.constructor` assumes the input starts empty.

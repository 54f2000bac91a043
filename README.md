# TOTO next-draw notifier: the string-and-decision layer

A Dafny model of the decision logic in `lambda_function.py`, the serverless handler
that posts Singapore Pools TOTO updates to a Telegram channel. The model covers what
the handler does with the texts it reads off the results page:

- the jackpot text keeps only its digits, which are parsed as an integer
  (`"$3,456,789"` gives 3456789; a text with no digit fails; Python's limit on the
  length of the digit string is not modelled, see below);
- the jackpot is rendered back as `"$"` followed by the value with comma thousands
  separators;
- the draw-date text, e.g. `"Mon, 12 May 2025, 6.30pm"`, is split on commas, and its
  trimmed 2nd and 3rd segments are the date and the time;
- the announcement says `"Tonight, <time>"` when the date is today's and otherwise
  quotes the draw-date text; a non-empty caption follows after a blank line;
- the caption gate asks the text-generation service only for a jackpot of at least
  3,000,000 and only when an API key is configured;
- the handler dispatches on the mode. A missing remote-browser token (`BROWSERLESS_TOKEN`) answers 500. The
  `results` mode answers 200 with a stub body. Any other mode returns nothing.

The browser, the clock, the environment and the two HTTP services are not modelled.
They are inputs instead:
- the two scraped inner texts (`Page`);
- today's date as the handler formats it (`today`);
- the remote-browser token (`BROWSERLESS_TOKEN`) and the API key (`Option<string>`);
- the text the caption service answered with (`reply`, `None` when no text could be
  extracted).

Modules, one per concern:
- `Wrappers`: `Option`, `Result`.
- `PyText`: the Python `str` operations used: `isdigit`, `isspace`, `strip`, `split`,
  with `join` as the inverse of `split`.
- `Jackpot`: digit filter, `int`, `str`, the `,` format option, and their round trips.
- `DrawDate`: the comma split of the draw-date text.
- `Caption`: the gate and the request of `generate_comment`.
- `Handler`: message composition and `lambda_handler` dispatch.

Results mode is a stub (`lambda_function.py:92-93`). The code has no self-scheduling,
time-slot mapping, outlet drill-down or caption retry; `generate_comment` makes one
request (`lambda_function.py:36`). An unrecognised mode falls off the end of
`lambda_handler`, which then returns `None`; the model returns no response.

## Model

| member | source | states |
|---|---|---|
| `PyText.Strip` | lambda_function.py:77 | the result is an infix of the input, only whitespace was removed on either side, and it neither starts nor ends with whitespace |
| `PyText.StripPadded` | lambda_function.py:77 | stripping whitespace padding around a stripped text gives back exactly that text |
| `PyText.Split` | lambda_function.py:76 | there is one more piece than there are separators, and no piece contains the separator |
| `PyText.JoinSplit` | lambda_function.py:76 | joining the pieces of a split with the separator gives back the original text |
| `PyText.SplitJoin` | lambda_function.py:76 | splitting a join of separator-free pieces gives back the pieces, so split and join are inverse |
| `PyText.CountStrip` | lambda_function.py:74-76 | stripping the draw-date text before splitting it never changes its number of commas |
| `Jackpot.DigitsOf` | lambda_function.py:71 | the kept characters are all digits, and none is kept exactly when the text has no digit |
| `Jackpot.Normalise` | lambda_function.py:71 | normalisation fails (the source's `int("")`) exactly when the text contains no digit; the 4300-digit limit of `int` is not modelled (see Left out) |
| `Jackpot.NormaliseIgnoresNonDigit` | lambda_function.py:71 | deleting any non-digit character anywhere in the text never changes the result |
| `Jackpot.NormaliseSpells` | lambda_function.py:71 | the result is `n` exactly when the text's digits, in order, are leading zeros followed by the decimal digits of `n` |
| `Jackpot.DigitsOfStrip` | lambda_function.py:70-71 | stripping the jackpot text keeps all of its digits, so it cannot change the value |
| `Jackpot.Decimal` | lambda_function.py:72 | the decimal representation is non-empty, all digits, has no leading zero unless the value is 0, and parses back to the value |
| `Jackpot.Groups` | lambda_function.py:72 | the thousands groups concatenate to the digits; the first group has 1 to 3 digits and every later group exactly 3 |
| `Jackpot.Render` | lambda_function.py:72 | the rendered jackpot starts with `"$"` |
| `Jackpot.RenderShape` | lambda_function.py:72 | after the `"$"`, the comma-separated groups are well formed, spell the decimal value, and the first has no leading zero unless the value is 0 |
| `Jackpot.RenderRoundTrip` | lambda_function.py:71-72 | normalising the rendered jackpot gives back the value |
| `DrawDate.SplitDrawDate` | lambda_function.py:76-77 | the split succeeds exactly when the text has at least two commas; otherwise it reports how many segments there were; date and time are stripped and contain no comma |
| `DrawDate.SplitDrawDateFields` | lambda_function.py:76-77 | a text `day,date,time` with nothing or further `,`-segments after it yields the stripped `date` and `time` |
| `DrawDate.SplitDrawDateParts` | lambda_function.py:76-77 | every text with at least two commas has that `day,date,time[,...]` shape |
| `Caption.Prompt` | lambda_function.py:20-24 | the prompt opens with `"TOTO jackpot "` and the jackpot rendered as in the message |
| `Caption.CaptionGate` | lambda_function.py:10-24 | a request is built exactly when the jackpot is at least 3,000,000 (inclusive) and the API key is present and non-empty; it carries that key, the prompt and the 30-token budget |
| `Caption.GenerateComment` | lambda_function.py:9-45 | the caption is empty below 3,000,000 whatever the credentials, empty without a key, non-empty only when the gate opened and the service replied; when the gate opens and the service replies, the caption is exactly the reply stripped; always stripped |
| `Handler.WithCaption` | lambda_function.py:84-85 | the message is a prefix of the result; it is unchanged exactly when the caption is empty; otherwise a blank line and the caption follow it |
| `Handler.ComposeMessage` | lambda_function.py:76-85 | composition fails exactly when the draw-date text has fewer than two commas; otherwise the result is the title, jackpot and draw lines followed by the caption rule of `WithCaption`, where the draw line is either the whole draw-date text or starts with `"Tonight, "` (which one is chosen is stated by `NextDrawTonight` and `NextDrawOtherDay`) |
| `Handler.NextDraw` | lambda_function.py:70-85 | the next-draw path fails exactly when `Normalise` fails on the jackpot text (it has no digit) or the draw-date text has fewer than two commas; a jackpot without digits is the failure reported, before the draw date is read |
| `Handler.LambdaHandler` | lambda_function.py:54-93 | 500 without a token whatever the mode (for an event that is a dictionary); 200 with the stub body for `results`; nothing for other modes; for `next_draw`, success exactly when `Normalise` succeeds on the jackpot text and the draw-date text has at least two commas, then 200 and a message sent; a message is sent only in `next_draw` mode with a token |
| `Handler.NextDrawTonight` | lambda_function.py:79-80 | when the date segment equals today's date, the draw line is `"Tonight, "` and the stripped time segment |
| `Handler.NextDrawOtherDay` | lambda_function.py:81-82 | on any other date, the draw line is the whole draw-date text as scraped (only stripped at its ends) |
| `Handler.TonightBelowThreshold` | lambda_function.py:62-90 | a draw tonight with a jackpot under 3,000,000: the handler answers 200 and sends exactly title, jackpot line and `"Tonight, <time>"`, with no caption |
| `Handler.HandlerSendsNextDraw` | lambda_function.py:88-90 | in `next_draw` mode with a token, the handler sends exactly the composed message and answers 200 |
| `Handler.JackpotLineRoundTrip` | lambda_function.py:70-82 | the second line of every announcement normalises back to the jackpot read from the page |

## Left out

- Playwright session setup, navigation, locators and their failures (lambda_function.py:63-74): remote-browser I/O. The two scraped inner texts are inputs.
- The Gemini request itself, `raise_for_status`, the JSON reply extraction and its exception fallback (lambda_function.py:17-19, 25-45): network I/O and parsing of a foreign response. Their outcome is the `reply` input; the request's URL, headers, temperature and MIME type are not modelled.
- `send_telegram` and its failure (lambda_function.py:47-52): transport. The model records the message handed to it; a failed send would raise after the message was composed.
- Environment and secret reads: `load_dotenv()` (lambda_function.py:7) is not modelled. The API key (lambda_function.py:13) and the remote-browser token (`BROWSERLESS_TOKEN`) (lambda_function.py:56) become `Option<string>` inputs. The `os.environ[...]` reads inside `send_telegram` (lambda_function.py:48-49) and the `KeyError` they raise belong to `send_telegram`, which is left out above.
- `date.today().strftime('%d %b %Y')` (lambda_function.py:79): clock and locale. Today's formatted date is an input.
- The shape of `event` (lambda_function.py:55): the model assumes it is a dictionary. The mode is an `Option<string>`, so a non-string mode value is not modelled. An `event` that is not a dictionary makes `event.get` raise at line 55, before the token check at lines 56-58. For such an event the handler raises instead of answering 500, and the model does not capture this.
- The `__main__` block (lambda_function.py:96-97) and the `print` of the caption error (lambda_function.py:41).
- `Jackpot.DigitsOf`: Python's `str.isdigit` also accepts non-ASCII digits such as `'²'`, which `int` then rejects, and Unicode decimal digits such as `'３'` and `'٣'`, which `int` accepts and counts in the value. The model keeps only the ASCII digits `'0'`..`'9'`, so it models neither: it does not fail on `'²'`, and it drops the other decimal digits, so `"$３,000,000"` gives 3000000 in the source and `Ok(0)` in the model.
- `Jackpot.Normalise`: CPython's `int` (3.11 and later, and patched earlier releases) raises `ValueError` when the digit string has more than 4300 characters, counting leading zeros. The model has no such limit and returns `Ok` for those texts, so the source's failure on an over-long jackpot text is not modelled. The same goes for `Handler.NextDraw` and `Handler.LambdaHandler`, which fail through `Normalise`.

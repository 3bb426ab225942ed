# Option Alpha webhook relay: a Dafny model of its decision logic

The relay is a single Flask endpoint, `/option_alpha_trigger`. Each call makes three steps:

1. It asks a GPT-4 completion endpoint what major world events happened in the last 24 hours.
2. It asks the model again whether those events will move SPX by more than 1.5 basis points. This prompt is a fixed question, a blank line, then the first answer verbatim.
3. It posts to one of two Option Alpha webhooks. The trade hook is chosen when the lower-cased second answer contains `"no"`; otherwise the no-trade hook is chosen.

The reply is `{"status", "message"}` JSON. It has code 200 when both model calls returned, and code 500 with the exception text when either one raised.

The model has two files:

- `text.dfy` (module `Text`) holds ASCII lower-casing and the substring relation that Python's `in` tests.
- `option_alpha_webhook.dfy` (module `OptionAlphaWebhook`) holds the prompts, the recommendation rule, the dispatch rule, the four status messages and the request handler.

Everything is a pure function. The source keeps no state and has no loops.

The two network calls are parameters of the handler:

- `ask: string -> Outcome<string>` stands for `ask_gpt`.
- `post: Url -> Outcome<int>` stands for `requests.post`.

An `Outcome` is either `Returned(value)` or `Raised(message)`, where `message` is the exception's `str(e)`. Passing the calls as functions lets the model state which prompts the handler sends. It also shows that the second prompt is built from the first answer. The handler returns an `Invocation`: the prompts sent, the webhooks posted (for both, the order in which the calls were made) and the response. This lets "no webhook is posted" be stated directly.

The rule as written does more than recognise "no" as a word. `UnknownTrades`, `NotSignificantTrades` and `EconomicTrades` prove that "Unknown", "not significant" and "Yes, economic data" all pick the trade hook.

## Model

| member | source | states |
|---|---|---|
| `Text.LowerChar` | option_alpha_webhook.py:48 | One character lower-cased: an ASCII capital maps to the small letter at the same alphabet position; every other character is unchanged; no result is an ASCII capital |
| `Text.Lower` | option_alpha_webhook.py:48 | ASCII lower-casing, standing for `analysis.lower()`, keeps the length and lower-cases each position independently |
| `Text.Contains` | option_alpha_webhook.py:48 | Python's `pat in s`: true iff `pat` occurs as a contiguous block at some index of `s`; the empty string and `s` itself always occur, and nothing longer than `s` does |
| `Text.LowerKeepsContains` | option_alpha_webhook.py:48 | If `s` is a substring of `t`, then `Lower(s)` is a substring of `Lower(t)` |
| `Text.ContainsTransitive` | option_alpha_webhook.py:48 | The substring relation tested by `in` is transitive |
| `OptionAlphaWebhook.ImpactPrompt` | option_alpha_webhook.py:40-43 | The impact prompt is the fixed SPX question, then `"\n\n"`, then `events` unchanged; `events` is exactly its suffix after the question and separator |
| `OptionAlphaWebhook.ImpactPromptInjective` | option_alpha_webhook.py:40-43 | Two impact prompts are equal iff their events texts are equal |
| `OptionAlphaWebhook.ImpactPromptIsNotWorldEventsPrompt` | option_alpha_webhook.py:33-44 | The world-events prompt is one constant; no impact prompt equals it, since every impact prompt is longer |
| `OptionAlphaWebhook.IsTradeRecommended` | option_alpha_webhook.py:46-48 | `is_trade_recommended(s)`, the ASCII-lower-cased answer containing "no" as a contiguous block, holds iff some `n`/`N` in `s` is directly followed by an `o`/`O` |
| `OptionAlphaWebhook.TradesOnNoAt` | option_alpha_webhook.py:48 | One `n`/`N` followed by `o`/`O` anywhere is enough to recommend trading |
| `OptionAlphaWebhook.TradeRecommendedIgnoresCase` | option_alpha_webhook.py:48 | Answers that agree position by position up to ASCII case get the same recommendation |
| `OptionAlphaWebhook.TradeRecommendedMonotone` | option_alpha_webhook.py:48 | Any string containing a recommended answer as a substring is recommended too |
| `OptionAlphaWebhook.TradeRecommendedExtends` | option_alpha_webhook.py:48 | Adding text before or after a recommended answer keeps it recommended |
| `OptionAlphaWebhook.NoInAnyCaseTrades` | option_alpha_webhook.py:48 | "no", "No", "nO" and "NO" are all recommended |
| `OptionAlphaWebhook.UnknownTrades` | option_alpha_webhook.py:48 | "Unknown" is recommended: it contains "no" |
| `OptionAlphaWebhook.NotSignificantTrades` | option_alpha_webhook.py:48 | "not significant" is recommended |
| `OptionAlphaWebhook.EconomicTrades` | option_alpha_webhook.py:48 | "Yes, economic data" is recommended, even though it answers yes |
| `OptionAlphaWebhook.YesDoesNotTrade` | option_alpha_webhook.py:48 | "Yes" and the empty answer are not recommended |
| `OptionAlphaWebhook.TriggerOptionAlpha` | option_alpha_webhook.py:50-56 | The dispatch result is true iff the POST completed with status 200; an exception yields false and is not passed on |
| `OptionAlphaWebhook.StatusMessage` | option_alpha_webhook.py:68-75 | The message is one of the four fixed strings; it begins "Failed to trigger " iff the webhook was not delivered |
| `OptionAlphaWebhook.StatusMessageInjective` | option_alpha_webhook.py:71-75 | The message determines the pair (branch taken, delivered); the four messages are distinct |
| `OptionAlphaWebhook.OptionAlphaTrigger` | option_alpha_webhook.py:58-80 | The world-events prompt is always sent first; the impact prompt, built from its answer, is sent iff that answer returned; at most one webhook is posted, and one is posted iff the status is "success"; the code is 200 for "success" and 500 for "error"; a success message is one of the four fixed strings |
| `OptionAlphaWebhook.EventsFailureShortCircuits` | option_alpha_webhook.py:60-80 | If fetching events raises, only the world-events prompt is sent, no webhook is posted, and the response is "error" with the exception text and code 500 |
| `OptionAlphaWebhook.ImpactFailureShortCircuits` | option_alpha_webhook.py:64-80 | If the impact analysis raises, no webhook is posted and the response is "error" with the exception text and code 500 |
| `OptionAlphaWebhook.SuccessfulPipelineDispatchesOnce` | option_alpha_webhook.py:67-78 | When both model calls return, exactly one webhook is posted: TRADE_URL iff the answer is recommended, otherwise NO_TRADE_URL; the response is "success", code 200, with the message for that branch and its delivery |
| `OptionAlphaWebhook.DispatchFailureStillSucceeds` | option_alpha_webhook.py:70-78 | A POST that raises or does not return 200 leaves status "success" and code 200; only the message changes to "Failed to trigger trading." or "Failed to trigger no-trade." |
| `OptionAlphaWebhook.SuccessMessageRevealsDispatch` | option_alpha_webhook.py:68-78 | A success message tells which webhook was posted and whether it was delivered; it starts "Failed to trigger " iff the POST did not return 200 |

## Left out

- Loading the API key from `/etc/secrets/IndicatorKey.txt` and the `ValueError` raised when the file is missing (lines 8-13). This is file I/O at import time.
- The body of `ask_gpt` (lines 19-31): the HTTP request, the JSON decoding and the `.strip()` of `choices[0].text`. It is the abstract `ask` parameter, whose answer is any string or any exception text. Whatever stripping or decoding does is part of that abstract answer.
- `requests.post` itself (line 52). It is the abstract `post` parameter; only its status code or its exception is kept.
- Calls that never finish. Neither `requests.post` call (lines 29 and 52) sets a timeout, so a call can block forever. The `ask` and `post` parameters are total functions, so the model covers only runs in which every call returns or raises.
- The `print` of the dispatch exception (line 55). It is logging output.
- TriggerOptionAlpha: assumes the `print` at line 55 never raises. That `print` runs inside the `except` branch without a guard of its own, so an exception from it would leave `trigger_option_alpha` and turn the response into "error" with code 500.
- DispatchFailureStillSucceeds: rests on the same assumption that the `print` at line 55 never raises.
- The Flask app, the route decorator, `jsonify` and `app.run` (lines 1, 5, 58, 78, 80, 82-83). These are framework plumbing. The response is modelled as the status, message and code those lines produce.
- The concrete webhook URLs (lines 16-17). They are the two distinct constructors `TradeUrl` and `NoTradeUrl`.
- Full Unicode `str.lower()`. Only ASCII capitals are mapped. For the test on `"no"` the outcome is the same: outside ASCII, Unicode's lower-case mapping sends only U+0130 (to `i` plus a combining dot) and U+212A (to `k`) to ASCII letters, so neither can produce an `n` or an `o`.
- `test_option_alpha_trigger.py` is not part of this model. It exercises a different version of the module (a chat-completions endpoint, timeouts, a dictionary-based recommendation), and no property here is taken from it.

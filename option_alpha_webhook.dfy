/**
 The decision logic of the Option Alpha webhook relay. Each invocation asks a
 completion model about the last day's world events, asks it again whether
 those events will move SPX, and posts to one of two Option Alpha webhooks:
 the trade hook when the second answer contains "no" in any letter case,
 otherwise the no-trade hook.

 The completion call and the webhook POST are network calls. They are given to
 the handler as functions of their argument, each with a reply that is either
 a value or a raised exception.
 */
module OptionAlphaWebhook {
  import opened Text

  /** What one outbound call did: it returned a value or raised an exception
      whose text is `message`. */
  datatype Outcome<+T> = Returned(value: T) | Raised(message: string)

  /** The two Option Alpha webhooks. They are distinct opaque destinations. */
  datatype Url = TradeUrl | NoTradeUrl

  datatype Status = Success | Error

  /** The JSON body `{"status": ..., "message": ...}` with its HTTP status code. */
  datatype Response = Response(status: Status, message: string, code: int)

  /** One run of the endpoint: the prompts sent to the completion model, the
      webhooks posted to (both in call order), and the response returned. */
  datatype Invocation = Invocation(prompts: seq<string>, posts: seq<Url>, response: Response)

  const HttpOk := 200
  const HttpInternalServerError := 500

  // Prompts

  /** The first prompt. It does not depend on any input. */
  const WorldEventsPrompt := "What major world events have occurred in the last 24 hours?"

  /** The fixed question that opens the second prompt. */
  const ImpactQuestion :=
    "Based on historical data and your best judgment, "
    + "will any of these events affect the price of SPX by more than 1.5 basis points?"

  /** The question, a blank line, then the events text unchanged. */
  const Separator := "\n\n"

  /** The second prompt: the fixed question, a blank line, then `events` verbatim. */
  function ImpactPrompt(events: string): (p: string)
    ensures |p| == |ImpactQuestion| + |Separator| + |events|
    ensures p[..|ImpactQuestion|] == ImpactQuestion
    ensures p[|ImpactQuestion|..|ImpactQuestion| + |Separator|] == Separator
    ensures p[|ImpactQuestion| + |Separator|..] == events
  {
    ImpactQuestion + Separator + events
  }

  /** Different events texts give different impact prompts. */
  lemma ImpactPromptInjective(e1: string, e2: string)
    ensures ImpactPrompt(e1) == ImpactPrompt(e2) <==> e1 == e2
  {
    if ImpactPrompt(e1) == ImpactPrompt(e2) {
      calc {
        e1;
        ImpactPrompt(e1)[|ImpactQuestion| + |Separator|..];
        ImpactPrompt(e2)[|ImpactQuestion| + |Separator|..];
        e2;
      }
    }
  }

  /** The impact prompt is never the world-events prompt: it is longer. */
  lemma ImpactPromptIsNotWorldEventsPrompt(events: string)
    ensures |ImpactPrompt(events)| > |WorldEventsPrompt|
    ensures ImpactPrompt(events) != WorldEventsPrompt
  {
  }

  // Trade recommendation

  /** `is_trade_recommended`: the lower-cased answer contains "no" anywhere.
      On the raw answer this says that some 'n' or 'N' is directly followed by
      an 'o' or 'O'. */
  function IsTradeRecommended(analysis: string): (recommended: bool)
    ensures recommended <==>
      exists i :: 0 <= i < |analysis| - 1
        && (analysis[i] == 'n' || analysis[i] == 'N')
        && (analysis[i + 1] == 'o' || analysis[i + 1] == 'O')
  {
    ContainsPair(Lower(analysis), 'n', 'o');
    assert "no" == ['n', 'o'];
    Contains(Lower(analysis), "no")
  }

  /** Answers that agree letter for letter up to ASCII case get the same
      recommendation. */
  lemma TradeRecommendedIgnoresCase(s: string, t: string)
    requires |s| == |t|
    requires forall i :: 0 <= i < |s| ==> LowerChar(s[i]) == LowerChar(t[i])
    ensures IsTradeRecommended(s) <==> IsTradeRecommended(t)
  {
    assert Lower(s) == Lower(t);
  }

  /** An answer that contains a recommended answer is itself recommended. */
  lemma TradeRecommendedMonotone(s: string, t: string)
    requires IsTradeRecommended(s)
    requires Contains(t, s)
    ensures IsTradeRecommended(t)
  {
    LowerKeepsContains(t, s);
    ContainsTransitive(Lower(t), Lower(s), "no");
  }

  /** In particular, adding text on either side never withdraws a recommendation. */
  lemma TradeRecommendedExtends(p: string, s: string, q: string)
    requires IsTradeRecommended(s)
    ensures IsTradeRecommended(p + s + q)
  {
    ContainsInfix(p, s, q);
    TradeRecommendedMonotone(s, p + s + q);
  }

  /** Every spelling of a bare "no" trades. */
  lemma NoInAnyCaseTrades()
    ensures IsTradeRecommended("no") && IsTradeRecommended("No")
    ensures IsTradeRecommended("nO") && IsTradeRecommended("NO")
  {
    TradesOnNoAt("no", 0);
    TradesOnNoAt("No", 0);
    TradesOnNoAt("nO", 0);
    TradesOnNoAt("NO", 0);
  }

  /** An 'n' or 'N' directly followed by an 'o' or 'O' anywhere makes the
      answer recommended. */
  lemma TradesOnNoAt(analysis: string, i: int)
    requires 0 <= i < |analysis| - 1
    requires analysis[i] == 'n' || analysis[i] == 'N'
    requires analysis[i + 1] == 'o' || analysis[i + 1] == 'O'
    ensures IsTradeRecommended(analysis)
  {
  }

  /** "Unknown" trades: it contains the letters "no". */
  lemma UnknownTrades()
    ensures IsTradeRecommended("Unknown")
  {
    TradesOnNoAt("Unknown", 3);
  }

  /** "not significant" trades: it starts with the letters "no". */
  lemma NotSignificantTrades()
    ensures IsTradeRecommended("not significant")
  {
    TradesOnNoAt("not significant", 0);
  }

  /** "Yes, economic data" trades although it answers yes: "economic" contains "no". */
  lemma EconomicTrades()
    ensures IsTradeRecommended("Yes, economic data")
  {
    TradesOnNoAt("Yes, economic data", 8);
  }

  /** "Yes" and the empty answer do not trade. */
  lemma YesDoesNotTrade()
    ensures !IsTradeRecommended("Yes")
    ensures !IsTradeRecommended("")
  {
    var yes := "Yes";
    assert yes[0] == 'Y' && yes[1] == 'e';
  }

  // Webhook dispatch

  /** `trigger_option_alpha`: a POST counts as delivered exactly when it
      completed with status 200. The result is a plain bool: an exception from
      the POST gives false and is not passed on to the caller. */
  function TriggerOptionAlpha(attempt: Outcome<int>): (delivered: bool)
    ensures delivered <==> attempt == Returned(HttpOk)
  {
    match attempt
    case Returned(statusCode) => statusCode == HttpOk
    case Raised(_) => false
  }

  // Status messages

  // The handler's four messages, and the words that open both failure messages.
  const TradingTriggered := "Market conditions are stable; trading triggered."
  const TradingFailed := "Failed to trigger trading."
  const TradingPaused := "High volatility detected; trading paused."
  const PauseFailed := "Failed to trigger no-trade."
  const FailurePrefix := "Failed to trigger "

  /** The four messages of a handled request. */
  const StatusMessages := [TradingTriggered, TradingFailed, TradingPaused, PauseFailed]

  /** The message for the branch taken (`trade`) and whether its webhook was
      delivered. A failed dispatch is told apart only by the message, which
      then begins "Failed to trigger ". */
  function StatusMessage(trade: bool, delivered: bool): (m: string)
    ensures m in StatusMessages
    ensures !delivered <==> FailurePrefix <= m
  {
    assert TradingTriggered[16] == 's' && TradingPaused[16] == 'd' && FailurePrefix[16] == 'r';
    if trade then
      (if delivered then TradingTriggered else TradingFailed)
    else
      (if delivered then TradingPaused else PauseFailed)
  }

  /** The message determines both the branch and the delivery. */
  lemma StatusMessageInjective(t1: bool, d1: bool, t2: bool, d2: bool)
    ensures StatusMessage(t1, d1) == StatusMessage(t2, d2) <==> t1 == t2 && d1 == d2
  {
    assert |TradingTriggered| == 48 && |TradingFailed| == 26;
    assert |TradingPaused| == 41 && |PauseFailed| == 27;
  }

  // Request handler

  /** `option_alpha_trigger`. `ask` is the completion call `ask_gpt`, `post`
      the webhook POST. The events fetch and the impact analysis run in turn; an
      exception from either becomes the error response with its text, and no
      webhook is posted. Otherwise exactly one webhook is posted, chosen by the
      recommendation, and the response is a success whatever the POST did. */
  function OptionAlphaTrigger(ask: string -> Outcome<string>, post: Url -> Outcome<int>): (inv: Invocation)
    ensures 1 <= |inv.prompts| <= 2 && inv.prompts[0] == WorldEventsPrompt
    ensures |inv.prompts| == 2 <==> ask(WorldEventsPrompt).Returned?
    ensures |inv.prompts| == 2 ==> inv.prompts[1] == ImpactPrompt(ask(WorldEventsPrompt).value)
    ensures |inv.posts| <= 1
    ensures inv.posts != [] <==> inv.response.status == Success
    ensures inv.response.code == if inv.response.status == Success then HttpOk else HttpInternalServerError
    ensures inv.response.status == Success ==> inv.response.message in StatusMessages
  {
    match ask(WorldEventsPrompt)
    case Raised(e) =>
      Invocation([WorldEventsPrompt], [], Response(Error, e, HttpInternalServerError))
    case Returned(events) =>
      var prompt := ImpactPrompt(events);
      match ask(prompt)
      case Raised(e) =>
        Invocation([WorldEventsPrompt, prompt], [], Response(Error, e, HttpInternalServerError))
      case Returned(analysis) =>
        var trade := IsTradeRecommended(analysis);
        var url := if trade then TradeUrl else NoTradeUrl;
        var delivered := TriggerOptionAlpha(post(url));
        Invocation([WorldEventsPrompt, prompt], [url], Response(Success, StatusMessage(trade, delivered), HttpOk))
  }

  /** A failed events fetch ends the request: the impact prompt is never sent,
      no webhook is posted, and the error text is returned with code 500. */
  lemma EventsFailureShortCircuits(ask: string -> Outcome<string>, post: Url -> Outcome<int>)
    requires ask(WorldEventsPrompt).Raised?
    ensures OptionAlphaTrigger(ask, post) ==
      Invocation([WorldEventsPrompt], [], Response(Error, ask(WorldEventsPrompt).message, HttpInternalServerError))
  {
  }

  /** A failed impact analysis ends the request before any webhook is posted. */
  lemma ImpactFailureShortCircuits(ask: string -> Outcome<string>, post: Url -> Outcome<int>)
    requires ask(WorldEventsPrompt).Returned?
    requires ask(ImpactPrompt(ask(WorldEventsPrompt).value)).Raised?
    ensures var inv := OptionAlphaTrigger(ask, post);
      && inv.posts == []
      && inv.response == Response(Error, ask(ImpactPrompt(ask(WorldEventsPrompt).value)).message, HttpInternalServerError)
  {
  }

  /** When both model calls return, exactly one webhook is posted: the trade
      hook iff the answer is recommended, otherwise the no-trade hook; the
      response is a success with code 200 and the message for that branch and
      delivery. */
  lemma SuccessfulPipelineDispatchesOnce(ask: string -> Outcome<string>, post: Url -> Outcome<int>)
    requires ask(WorldEventsPrompt).Returned?
    requires ask(ImpactPrompt(ask(WorldEventsPrompt).value)).Returned?
    ensures var analysis := ask(ImpactPrompt(ask(WorldEventsPrompt).value)).value;
      var inv := OptionAlphaTrigger(ask, post);
      && |inv.posts| == 1
      && (inv.posts[0] == TradeUrl <==> IsTradeRecommended(analysis))
      && inv.response.status == Success
      && inv.response.code == HttpOk
      && inv.response.message == StatusMessage(IsTradeRecommended(analysis), post(inv.posts[0]) == Returned(HttpOk))
  {
  }

  /** A POST that raises or answers other than 200 changes only the message:
      the response is still a success with code 200. */
  lemma DispatchFailureStillSucceeds(ask: string -> Outcome<string>, post: Url -> Outcome<int>)
    requires ask(WorldEventsPrompt).Returned?
    requires ask(ImpactPrompt(ask(WorldEventsPrompt).value)).Returned?
    requires var inv := OptionAlphaTrigger(ask, post); post(inv.posts[0]) != Returned(HttpOk)
    ensures var inv := OptionAlphaTrigger(ask, post);
      && inv.response.status == Success
      && inv.response.code == HttpOk
      && inv.response.message == (if inv.posts[0] == TradeUrl then TradingFailed else PauseFailed)
  {
  }

  /** A success message says which webhook was posted and whether it was
      delivered. */
  lemma SuccessMessageRevealsDispatch(ask: string -> Outcome<string>, post: Url -> Outcome<int>)
    requires OptionAlphaTrigger(ask, post).response.status == Success
    ensures var inv := OptionAlphaTrigger(ask, post);
      && inv.response.message == StatusMessage(inv.posts[0] == TradeUrl, post(inv.posts[0]) == Returned(HttpOk))
      && (FailurePrefix <= inv.response.message <==> post(inv.posts[0]) != Returned(HttpOk))
  {
  }
}

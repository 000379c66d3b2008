/** Token and cost accounting, in exact arithmetic: per-session counters and their global sum. */
module TokenTracker {
  import opened Collections

  // ---- Prices --------------------------------------------------------------------------------

  datatype Price = Price(input: real, output: real)

  type Prices = map<string, map<string, Price>>

  const ANY: string := "*"

  /** math.Round: halves go away from zero. */
  function Round(x: real): real {
    if x >= 0.0 then (x + 0.5).Floor as real else -((0.5 - x).Floor as real)
  }

  /** The price that applies: the model's own, else the provider's wildcard. */
  function PriceOf(prices: Prices, provider: string, model: string): Option<Price> {
    if provider !in prices then None
    else if model in prices[provider] then Some(prices[provider][model])
    else if ANY in prices[provider] then Some(prices[provider][ANY])
    else None
  }

  function Priced(p: Price, input: int, output: int): real {
    p.input * input as real + p.output * output as real
  }

  /** To five decimals. */
  function Rounded(x: real): real {
    Round(x * 100000.0) / 100000.0
  }

  /** The cost before rounding; unpriced calls are free. */
  function RawCost(prices: Prices, provider: string, model: string, input: int, output: int): real {
    match PriceOf(prices, provider, model)
    case None => 0.0
    case Some(p) => Priced(p, input, output)
  }

  function Cost(prices: Prices, provider: string, model: string, input: int, output: int): real {
    Rounded(RawCost(prices, provider, model, input, output))
  }

  /** `cost` is `exact` to five decimals: a multiple of 0.00001, nearest to it, the greater one in size on a tie. */
  predicate ToFiveDecimals(cost: real, exact: real) {
    && cost * 100000.0 == (cost * 100000.0).Floor as real
    && -0.000005 <= cost - exact <= 0.000005
    && (cost - exact == 0.000005 ==> exact >= 0.0)
    && (cost - exact == -0.000005 ==> exact <= 0.0)
  }

  /** What tokens cost at a price: dollars per input token, and dollars per output token. */
  predicate CostsAtPrice(cost: real, p: Price, input: int, output: int) {
    ToFiveDecimals(cost, p.input * input as real + p.output * output as real)
  }

  /** Rounding goes to the nearest integer, and away from zero on a tie. */
  lemma RoundIsNearest(x: real)
    ensures Round(x) == Round(x).Floor as real && -0.5 <= Round(x) - x <= 0.5
    ensures (Round(x) - x == 0.5 ==> x >= 0.0) && (Round(x) - x == -0.5 ==> x <= 0.0)
  {
    WholeIsFloor(if x >= 0.0 then (x + 0.5).Floor else -(0.5 - x).Floor, Round(x));
  }

  lemma WholeIsFloor(k: int, x: real)
    requires x == k as real
    ensures x == x.Floor as real
  {
  }

  lemma RoundedToFive(x: real)
    ensures ToFiveDecimals(Rounded(x), x)
  {
    var y, r := x * 100000.0, Round(x * 100000.0);
    RoundIsNearest(y);
    InHundredThousandths(x, y, r, r / 100000.0);
  }

  lemma InHundredThousandths(x: real, y: real, r: real, z: real)
    requires y == x * 100000.0 && z == r / 100000.0
    ensures z * 100000.0 == r && (z - x) * 100000.0 == r - y
    ensures x >= 0.0 <==> y >= 0.0
    ensures x <= 0.0 <==> y <= 0.0
  {
  }

  /** Tokens cost what the model's own price says, else the provider's wildcard, to five decimals; else nothing. */
  lemma CostIsPriced(prices: Prices, provider: string, model: string, input: int, output: int)
    ensures var cost, price := Cost(prices, provider, model, input, output), PriceOf(prices, provider, model);
            if price.Some? then CostsAtPrice(cost, price.value, input, output) else cost == 0.0
  {
    RoundedToFive(RawCost(prices, provider, model, input, output));
  }

  /** After a price is set, the model costs exactly that, and so does a model that falls back on the wildcard. */
  lemma SetPriceIsCharged(prices: Prices, provider: string, model: string, price: Price, input: int, output: int)
    ensures CostsAtPrice(Cost(WithPrice(prices, provider, model, price), provider, model, input, output), price, input,
                         output)
    ensures forall m :: model == ANY && (provider in prices ==> m !in prices[provider]) ==>
      CostsAtPrice(Cost(WithPrice(prices, provider, model, price), provider, m, input, output), price, input, output)
  {
    var after := WithPrice(prices, provider, model, price);
    CostIsPriced(after, provider, model, input, output);
    forall m | model == ANY && (provider in prices ==> m !in prices[provider])
      ensures CostsAtPrice(Cost(after, provider, m, input, output), price, input, output)
    {
      CostIsPriced(after, provider, m, input, output);
    }
  }

  function WithPrice(prices: Prices, provider: string, model: string, price: Price): Prices {
    prices[provider := (if provider in prices then prices[provider] else map[])[model := price]]
  }

  /** Setting one price moves no price but the model's own and, for a wildcard, those that fall back on it. */
  lemma SetPriceFrame(prices: Prices, provider: string, model: string, price: Price, p: string, m: string)
    ensures var after := WithPrice(prices, provider, model, price);
            PriceOf(after, p, m) ==
              if p == provider && (m == model || (model == ANY && (p !in prices || m !in prices[p]))) then Some(price)
              else PriceOf(prices, p, m)
  {
  }

  /** Dollars per token, from dollars per thousand. */
  function PerThousand(input: real, output: real): Price {
    Price(input / 1000.0, output / 1000.0)
  }

  function OpenAI(prices: Prices): Prices {
    var a := WithPrice(prices, "openai", "gpt-4o", PerThousand(2.50, 10.00));
    var b := WithPrice(a, "openai", "gpt-4o-mini", PerThousand(0.15, 0.60));
    var c := WithPrice(b, "openai", "o1", PerThousand(15.00, 60.00));
    var d := WithPrice(c, "openai", "o3-mini", PerThousand(1.10, 4.40));
    WithPrice(d, "openai", ANY, PerThousand(0.15, 0.60))
  }

  function Anthropic(prices: Prices): Prices {
    var a := WithPrice(prices, "anthropic", "claude-3.5-sonnet", PerThousand(3.00, 15.00));
    var b := WithPrice(a, "anthropic", "claude-4-opus", PerThousand(15.00, 75.00));
    WithPrice(b, "anthropic", ANY, PerThousand(3.00, 15.00))
  }

  function DefaultPrices(): Prices {
    var hosted := Anthropic(OpenAI(map[]));
    WithPrice(WithPrice(hosted, "ollama", ANY, PerThousand(0.0, 0.0)), "llama.cpp", ANY, PerThousand(0.0, 0.0))
  }

  class CostTable {
    var providers: Prices

    constructor ()
      ensures providers == DefaultPrices()
    {
      providers := map[];
      new;
      SetCost("openai", "gpt-4o", 2.50 / 1000.0, 10.00 / 1000.0);
      SetCost("openai", "gpt-4o-mini", 0.15 / 1000.0, 0.60 / 1000.0);
      SetCost("openai", "o1", 15.00 / 1000.0, 60.00 / 1000.0);
      SetCost("openai", "o3-mini", 1.10 / 1000.0, 4.40 / 1000.0);
      SetCost("openai", ANY, 0.15 / 1000.0, 0.60 / 1000.0);
      SetCost("anthropic", "claude-3.5-sonnet", 3.00 / 1000.0, 15.00 / 1000.0);
      SetCost("anthropic", "claude-4-opus", 15.00 / 1000.0, 75.00 / 1000.0);
      SetCost("anthropic", ANY, 3.00 / 1000.0, 15.00 / 1000.0);
      SetCost("ollama", ANY, 0.0, 0.0);
      SetCost("llama.cpp", ANY, 0.0, 0.0);
    }

    method SetCost(provider: string, model: string, inputCost: real, outputCost: real)
      modifies this
      ensures providers == WithPrice(old(providers), provider, model, Price(inputCost, outputCost))
      ensures provider in providers && model in providers[provider]
        && providers[provider][model] == Price(inputCost, outputCost)
    {
      if provider !in providers {
        providers := providers[provider := map[]];
      }
      providers := providers[provider := providers[provider][model := Price(inputCost, outputCost)]];
    }

    method CostFor(provider: string, model: string, inputTokens: int, outputTokens: int) returns (cost: real)
      ensures cost == Cost(providers, provider, model, inputTokens, outputTokens)
      ensures
        if provider in providers && model in providers[provider] then
          CostsAtPrice(cost, providers[provider][model], inputTokens, outputTokens)
        else if provider in providers && "*" in providers[provider] then
          CostsAtPrice(cost, providers[provider]["*"], inputTokens, outputTokens)
        else cost == 0.0
    {
      CostIsPriced(providers, provider, model, inputTokens, outputTokens);
      assert Rounded(0.0) == 0.0;
      if provider !in providers {
        return 0.0;
      }
      var models := providers[provider];
      if model in models {
        var c := models[model];
        return Rounded(Priced(c, inputTokens, outputTokens));
      }
      if ANY in models {
        var c := models[ANY];
        return Rounded(Priced(c, inputTokens, outputTokens));
      }
      return 0.0;
    }
  }

  // ---- Counters ------------------------------------------------------------------------------

  datatype TokenUsage = TokenUsage(input: int, output: int, total: int)

  datatype Usage = Usage(input: int, output: int, total: int, cost: real, messages: int)

  const ZERO: Usage := Usage(0, 0, 0, 0.0, 0)

  function Plus(a: Usage, b: Usage): Usage {
    Usage(a.input + b.input, a.output + b.output, a.total + b.total, a.cost + b.cost, a.messages + b.messages)
  }

  function Minus(a: Usage, b: Usage): Usage {
    Usage(a.input - b.input, a.output - b.output, a.total - b.total, a.cost - b.cost, a.messages - b.messages)
  }

  function Charge(tokens: TokenUsage, cost: real): Usage {
    Usage(tokens.input, tokens.output, tokens.total, cost, 1)
  }

  function Of(sessions: map<string, Usage>, id: string): Usage {
    if id in sessions then sessions[id] else ZERO
  }

  /** The sum over all sessions, whatever order they are taken in. */
  ghost function Sum(sessions: map<string, Usage>): Usage {
    if sessions == map[] then ZERO
    else
      var id :| id in sessions;
      Plus(sessions[id], Sum(sessions - {id}))
  }

  lemma {:induction false} SumWithout(sessions: map<string, Usage>, id: string)
    requires id in sessions
    ensures Sum(sessions) == Plus(sessions[id], Sum(sessions - {id}))
    decreases |sessions|
  {
    var picked :| picked in sessions && Sum(sessions) == Plus(sessions[picked], Sum(sessions - {picked}));
    if picked == id {
    } else {
      Smaller(sessions, picked);
      Smaller(sessions, id);
      SumWithout(sessions - {picked}, id);
      SumWithout(sessions - {id}, picked);
      assert sessions - {picked} - {id} == sessions - {id} - {picked};
      PlusSwaps(sessions[picked], sessions[id], Sum(sessions - {picked} - {id}));
    }
  }

  lemma PlusSwaps(a: Usage, b: Usage, c: Usage)
    ensures Plus(a, Plus(b, c)) == Plus(b, Plus(a, c))
  {
  }

  lemma Smaller(sessions: map<string, Usage>, id: string)
    requires id in sessions
    ensures |sessions - {id}| == |sessions| - 1
  {
  }

  lemma SumAfterUpdate(sessions: map<string, Usage>, id: string, u: Usage)
    ensures Sum(sessions[id := u]) == Plus(Minus(Sum(sessions), Of(sessions, id)), u)
  {
    var after := sessions[id := u];
    SumWithout(after, id);
    assert after - {id} == sessions - {id};
    if id in sessions {
      SumWithout(sessions, id);
    } else {
      assert sessions - {id} == sessions;
    }
  }

  // ---- Runs ----------------------------------------------------------------------------------

  datatype Books = Books(prices: Prices, sessions: map<string, Usage>, global: Usage)

  datatype Event =
    | Track(session: string, provider: string, model: string, tokens: TokenUsage)
    | ResetSession(session: string)
    | ResetAll
    | SetPrice(provider: string, model: string, price: Price)

  function Apply(b: Books, e: Event): Books {
    match e
    case Track(id, provider, model, tokens) =>
      var charge := Charge(tokens, Cost(b.prices, provider, model, tokens.input, tokens.output));
      b.(sessions := b.sessions[id := Plus(Of(b.sessions, id), charge)],
         global := Plus(b.global, charge))
    case ResetSession(id) =>
      if id in b.sessions then
        b.(sessions := b.sessions - {id}, global := Minus(b.global, b.sessions[id]))
      else b
    case ResetAll => b.(sessions := map[], global := ZERO)
    case SetPrice(provider, model, price) => b.(prices := WithPrice(b.prices, provider, model, price))
  }

  function Run(events: seq<Event>): Books {
    if events == [] then Books(DefaultPrices(), map[], ZERO)
    else
      var n := |events| - 1;
      Apply(Run(events[..n]), events[n])
  }

  /** Conservation: the global counters are the sum of the session counters. */
  ghost predicate Balanced(b: Books) {
    b.global == Sum(b.sessions)
  }

  lemma ApplyBalanced(b: Books, e: Event)
    requires Balanced(b)
    ensures Balanced(Apply(b, e))
  {
    match e
    case Track(id, provider, model, tokens) =>
      var charge := Charge(tokens, Cost(b.prices, provider, model, tokens.input, tokens.output));
      SumAfterUpdate(b.sessions, id, Plus(Of(b.sessions, id), charge));
    case ResetSession(id) =>
      if id in b.sessions {
        SumWithout(b.sessions, id);
      }
    case ResetAll =>
    case SetPrice(_, _, _) =>
  }

  /** Conservation after any sequence of events. */
  lemma {:induction false} AlwaysBalanced(events: seq<Event>)
    ensures Balanced(Run(events))
  {
    if events == [] {
    } else {
      var n := |events| - 1;
      AlwaysBalanced(events[..n]);
      ApplyBalanced(Run(events[..n]), events[n]);
    }
  }

  // ---- Prices over time ----------------------------------------------------------------------

  /** What was last set for exactly this provider and model, else its default. */
  function Listed(events: seq<Event>, provider: string, model: string): Option<Price> {
    if events == [] then
      if provider in DefaultPrices() && model in DefaultPrices()[provider] then Some(DefaultPrices()[provider][model])
      else None
    else
      var last := events[|events| - 1];
      if last.SetPrice? && last.provider == provider && last.model == model then Some(last.price)
      else Listed(events[..|events| - 1], provider, model)
  }

  /** The model's own price, else the provider's wildcard's. */
  function PriceAt(events: seq<Event>, provider: string, model: string): Option<Price> {
    if Listed(events, provider, model).Some? then Listed(events, provider, model) else Listed(events, provider, ANY)
  }

  /** The price list after any events: per provider and model, the price last set. */
  lemma {:induction false} PricesAreLastSet(events: seq<Event>, provider: string, model: string)
    ensures var prices := Run(events).prices;
            Listed(events, provider, model)
              == if provider in prices && model in prices[provider] then Some(prices[provider][model]) else None
  {
    if events == [] {
    } else {
      PricesAreLastSet(events[..|events| - 1], provider, model);
    }
  }

  /** The price that applies after any events: the model's own as last set, else the wildcard's as last set. */
  lemma PriceInForce(events: seq<Event>, provider: string, model: string)
    ensures PriceOf(Run(events).prices, provider, model) == PriceAt(events, provider, model)
  {
    PricesAreLastSet(events, provider, model);
    PricesAreLastSet(events, provider, ANY);
  }

  // ---- What the counters count ---------------------------------------------------------------

  /** A message with the price of its time; none if its provider has no price for it. */
  datatype Message = Message(tokens: TokenUsage, price: Option<Price>)

  /** The messages a session has had since it was last reset, at the model's or else the wildcard's price. */
  function Messages(events: seq<Event>, id: string): seq<Message> {
    if events == [] then []
    else
      var n := |events| - 1;
      var earlier := Messages(events[..n], id);
      match events[n]
      case Track(session, provider, model, tokens) =>
        if session != id then earlier
        else earlier + [Message(tokens, PriceAt(events[..n], provider, model))]
      case ResetSession(session) => if session == id then [] else earlier
      case ResetAll => []
      case SetPrice(_, _, _) => earlier
  }

  /** The counters of these messages had no cost been rounded. */
  function Exact(messages: seq<Message>): Usage {
    if messages == [] then ZERO
    else
      var n := |messages| - 1;
      var u, m := Exact(messages[..n]), messages[n];
      Usage(u.input + m.tokens.input, u.output + m.tokens.output, u.total + m.tokens.total, u.cost + ExactCost(m),
            u.messages + 1)
  }

  /** Input tokens at the input price and output tokens at the output price. */
  function ExactCost(m: Message): real {
    match m.price
    case None => 0.0
    case Some(p) => p.input * m.tokens.input as real + p.output * m.tokens.output as real
  }

  lemma ExactSnoc(messages: seq<Message>, m: Message)
    ensures Exact(messages + [m]) == Plus(Exact(messages), Usage(m.tokens.input, m.tokens.output, m.tokens.total,
      ExactCost(m), 1))
  {
  }

  /** What one message is charged is its exact cost, rounded once. */
  lemma ChargeIsNear(events: seq<Event>, e: Event)
    requires e.Track?
    ensures var m := Message(e.tokens, PriceAt(events, e.provider, e.model));
            -0.000005 <= Cost(Run(events).prices, e.provider, e.model, e.tokens.input, e.tokens.output) - ExactCost(m)
              <= 0.000005
  {
    PriceInForce(events, e.provider, e.model);
    CostIsPriced(Run(events).prices, e.provider, e.model, e.tokens.input, e.tokens.output);
    NearAtPrice(PriceAt(events, e.provider, e.model), e.tokens,
                Cost(Run(events).prices, e.provider, e.model, e.tokens.input, e.tokens.output));
  }

  lemma NearAtPrice(price: Option<Price>, tokens: TokenUsage, cost: real)
    requires if price.Some? then CostsAtPrice(cost, price.value, tokens.input, tokens.output) else cost == 0.0
    ensures -0.000005 <= cost - ExactCost(Message(tokens, price)) <= 0.000005
  {
  }

  /** The same tokens and messages, and a cost off by no more than one rounding per message. */
  ghost predicate NearlyExact(u: Usage, exact: Usage) {
    && u.input == exact.input && u.output == exact.output && u.total == exact.total && u.messages == exact.messages
    && u.messages >= 0
    && -(0.000005 * u.messages as real) <= u.cost - exact.cost <= 0.000005 * u.messages as real
  }

  /** Every session counts exactly its own messages since its last reset, each rounded once. */
  lemma {:induction false} SessionNearlyExact(events: seq<Event>, id: string)
    ensures id in Run(events).sessions <==> Messages(events, id) != []
    ensures NearlyExact(Of(Run(events).sessions, id), Exact(Messages(events, id)))
    ensures Of(Run(events).sessions, id).messages == |Messages(events, id)|
  {
    if events == [] {
    } else {
      var n := |events| - 1;
      var before := events[..n];
      SessionNearlyExact(before, id);
      if events[n].Track? && events[n].session == id {
        var e := events[n];
        ChargeIsNear(before, e);
        ExactSnoc(Messages(before, id), Message(e.tokens, PriceAt(before, e.provider, e.model)));
      }
    }
  }

  ghost function ExactSessions(events: seq<Event>): map<string, Usage> {
    map id | id in Run(events).sessions :: Exact(Messages(events, id))
  }

  lemma {:induction false} SumNearlyExact(sessions: map<string, Usage>, exact: map<string, Usage>)
    requires exact.Keys == sessions.Keys
    requires forall id :: id in sessions ==> NearlyExact(sessions[id], exact[id])
    ensures NearlyExact(Sum(sessions), Sum(exact))
    decreases |sessions|
  {
    if sessions == map[] {
      assert exact == map[];
    } else {
      var id :| id in sessions;
      Smaller(sessions, id);
      SumNearlyExact(sessions - {id}, exact - {id});
      SumWithout(sessions, id);
      SumWithout(exact, id);
    }
  }

  /** The global cost is off by at most half a fifth decimal per message it still counts, whatever was reset. */
  lemma GlobalNearlyExact(events: seq<Event>)
    ensures NearlyExact(Run(events).global, Sum(ExactSessions(events)))
  {
    AlwaysBalanced(events);
    forall id | id in Run(events).sessions
      ensures NearlyExact(Run(events).sessions[id], ExactSessions(events)[id])
    {
      SessionNearlyExact(events, id);
    }
    SumNearlyExact(Run(events).sessions, ExactSessions(events));
  }

  // ---- The tracker ---------------------------------------------------------------------------

  lemma RunAppend(events: seq<Event>, e: Event)
    ensures Run(events + [e]) == Apply(Run(events), e)
  {
  }

  class Tracker {
    var SessionTokens: map<string, Usage>
    var GlobalTokens: Usage
    const costTable: CostTable
    ghost var log: seq<Event>

    /** The counters and prices are those of the events so far. */
    ghost predicate Valid()
      reads this, costTable
    {
      Ledger() == Run(log)
    }

    ghost function Ledger(): Books
      reads this, costTable
    {
      Books(costTable.providers, SessionTokens, GlobalTokens)
    }

    constructor ()
      ensures Valid() && fresh(costTable) && log == []
    {
      SessionTokens, GlobalTokens, log := map[], ZERO, [];
      costTable := new CostTable();
    }

    method TrackMessage(sessionID: string, provider: string, model: string, usage: TokenUsage)
      requires Valid()
      modifies this
      ensures Valid() && log == old(log) + [Event.Track(sessionID, provider, model, usage)]
    {
      RunAppend(log, Event.Track(sessionID, provider, model, usage));
      var cost := costTable.CostFor(provider, model, usage.input, usage.output);
      Add(sessionID, usage, cost);
      log := log + [Event.Track(sessionID, provider, model, usage)];
    }

    method Add(sessionID: string, usage: TokenUsage, cost: real)
      modifies this`SessionTokens, this`GlobalTokens
      ensures SessionTokens
        == old(SessionTokens)[sessionID := Plus(old(Of(SessionTokens, sessionID)), Charge(usage, cost))]
      ensures GlobalTokens == Plus(old(GlobalTokens), Charge(usage, cost))
    {
      if sessionID !in SessionTokens {
        SessionTokens := SessionTokens[sessionID := ZERO];
      }
      var su := SessionTokens[sessionID];
      SessionTokens := SessionTokens[sessionID := Usage(su.input + usage.input, su.output + usage.output,
                                                        su.total + usage.total, su.cost + cost, su.messages + 1)];
      GlobalTokens := Usage(GlobalTokens.input + usage.input, GlobalTokens.output + usage.output,
                            GlobalTokens.total + usage.total, GlobalTokens.cost + cost, GlobalTokens.messages + 1);
    }

    /** A price set on the table that the tracker hands out. */
    method SetPrice(provider: string, model: string, inputCost: real, outputCost: real)
      requires Valid()
      modifies this`log, costTable
      ensures Valid() && log == old(log) + [Event.SetPrice(provider, model, Price(inputCost, outputCost))]
    {
      RunAppend(log, Event.SetPrice(provider, model, Price(inputCost, outputCost)));
      costTable.SetCost(provider, model, inputCost, outputCost);
      log := log + [Event.SetPrice(provider, model, Price(inputCost, outputCost))];
    }

    method SessionUsage(sessionID: string) returns (u: Usage)
      requires Valid()
      ensures u.messages == |Messages(log, sessionID)|
      ensures NearlyExact(u, Exact(Messages(log, sessionID)))
    {
      SessionNearlyExact(log, sessionID);
      if sessionID !in SessionTokens {
        return ZERO;
      }
      return SessionTokens[sessionID];
    }

    method GlobalUsage() returns (u: Usage)
      requires Valid()
      ensures u == Sum(SessionTokens)
      ensures NearlyExact(u, Sum(ExactSessions(log)))
    {
      AlwaysBalanced(log);
      GlobalNearlyExact(log);
      return GlobalTokens;
    }

    method ResetSession(sessionID: string)
      requires Valid()
      modifies this
      ensures Valid() && log == old(log) + [Event.ResetSession(sessionID)]
    {
      RunAppend(log, Event.ResetSession(sessionID));
      if sessionID in SessionTokens {
        var usage := SessionTokens[sessionID];
        GlobalTokens := Minus(GlobalTokens, usage);
        SessionTokens := SessionTokens - {sessionID};
      }
      log := log + [Event.ResetSession(sessionID)];
    }

    method ResetAll()
      requires Valid()
      modifies this
      ensures Valid() && log == old(log) + [Event.ResetAll]
    {
      RunAppend(log, Event.ResetAll);
      SessionTokens := map[];
      GlobalTokens := ZERO;
      log := log + [Event.ResetAll];
    }
  }
}

/**
 * The agent itself: the intent dispatcher (`execute_action`), the request
 * pipeline (`respond`) and the `SimpleAIAgent` object with its API keys and
 * fixed capability list. The dispatcher is stated over an abstract set of
 * handlers so that routing can be proved independently of what the handlers
 * do; the agent then plugs in its own handlers, built from the leaf operations
 * and from an environment that stands for the network, `eval` and the clock.
 */
module Agent {
  import opened Wrappers
  import opened Text
  import opened Classify
  import opened Handlers

  /** One handler per intent: the three that take the classifier's argument,
      and the three that take none. */
  datatype HandlerSet = HandlerSet(
    weather: Option<string> -> string,
    news: Option<string> -> string,
    time: () -> string,
    math: Option<string> -> string,
    greeting: () -> string,
    help: () -> string)

  const NotSure: string := "I'm not sure how to help with that. Try asking about weather, news, time, or math!"

  /** What answering `intent` means: its own handler, given `data` unchanged
      where the handler takes an argument; Unknown gets the fallback text. */
  function Invoke(h: HandlerSet, intent: Intent, data: Option<string>): string {
    match intent
    case Weather => h.weather(data)
    case News => h.news(data)
    case Time => h.time()
    case Math => h.math(data)
    case Greeting => h.greeting()
    case Help => h.help()
    case Unknown => NotSure
  }

  /** `execute_action`: a total map from the intent string to a handler. A
      string naming an intent is answered as that intent; any other string,
      and "unknown", gets the fallback text. */
  function ExecuteAction(h: HandlerSet, intent: string, data: Option<string>): (r: string)
    ensures forall i: Intent :: intent == i.Name() ==> r == Invoke(h, i, data)
    ensures (forall i: Intent :: intent != i.Name()) ==> r == NotSure
  {
    assert Weather.Name() == "weather" && News.Name() == "news" && Time.Name() == "time";
    assert Math.Name() == "math" && Greeting.Name() == "greeting" && Help.Name() == "help";
    if intent == "weather" then h.weather(data)
    else if intent == "news" then h.news(data)
    else if intent == "time" then h.time()
    else if intent == "math" then h.math(data)
    else if intent == "greeting" then h.greeting()
    else if intent == "help" then h.help()
    else NotSure
  }

  /** `respond` without its prints: classify, then dispatch on the intent's name. */
  function Respond(h: HandlerSet, input: string): (r: string)
    ensures r == Invoke(h, ProcessInput(input).0, ProcessInput(input).1)
  {
    var (intent, data) := ProcessInput(input);
    ExecuteAction(h, intent.Name(), data)
  }

  /** What `get_time` renders around the formatted wall-clock reading. */
  function GetTime(now: string): (r: string)
    ensures "Current time: " <= r && Contains(r, now)
  {
    var r := "Current time: " + now;
    assert SliceAt(r, now, 14);
    r
  }

  /** Everything outside the agent its handlers depend on: the weather and
      news services (request plus JSON decoding), `eval` and the clock reading
      already formatted as `%Y-%m-%d %H:%M:%S`. */
  datatype Environment = Environment(
    weatherFetch: string -> WeatherReply,
    newsFetch: string -> NewsReply,
    evaluate: string -> Option<string>,
    now: string)

  /** The capability list every agent is created with, in order. */
  const Capabilities: seq<string> := ["check weather", "get news", "tell time", "simple math", "greet user"]

  const HelpIntro: string := "I can help you with: "
  const HelpOutro: string := ". Just ask me something!"

  class SimpleAIAgent {
    const weatherApiKey: Option<string>
    const newsApiKey: Option<string>
    const capabilities: seq<string>

    /** `__init__`, with the two environment variables passed in (None when unset). */
    constructor(weatherApiKey: Option<string>, newsApiKey: Option<string>)
      ensures this.weatherApiKey == weatherApiKey && this.newsApiKey == newsApiKey
      ensures capabilities == Capabilities
    {
      this.weatherApiKey := weatherApiKey;
      this.newsApiKey := newsApiKey;
      capabilities := Capabilities;
    }

    /** `show_help`: the capabilities joined by ", " between a fixed introduction
        and a fixed closing sentence; every capability appears in it. */
    function ShowHelp(): (r: string)
      ensures HelpIntro <= r
      ensures forall k :: 0 <= k < |capabilities| ==> Contains(r, capabilities[k])
    {
      var r := HelpIntro + Join(capabilities, ", ") + HelpOutro;
      forall k | 0 <= k < |capabilities|
        ensures Contains(r, capabilities[k])
      {
        assert Contains(Join(capabilities, ", "), capabilities[k]);
        ContainsInSuffix(HelpIntro, Join(capabilities, ", "), capabilities[k]);
        ContainsInPrefix(HelpIntro + Join(capabilities, ", "), HelpOutro, capabilities[k]);
      }
      r
    }

    /** `get_weather`, with the location rendered as an f-string renders it. */
    function GetWeatherFor(data: Option<string>, env: Environment): string {
      GetWeather(PyStr(data), weatherApiKey, env.weatherFetch)
    }

    /** `get_news`: pick the URL, fetch, and on a reply format it by appending
        one bulleted line per article, as `FormatNews` does. */
    method GetNews(data: Option<string>, fetch: string -> NewsReply) returns (r: string)
      ensures r == NewsAnswer(PyStr(data), newsApiKey, fetch)
      ensures r == NewsUnavailable <==> fetch(NewsUrl(PyStr(data), newsApiKey)).NewsFailed?
    {
      var topic := PyStr(data);
      var reply := fetch(NewsUrl(topic, newsApiKey));
      match reply {
        case NewsFailed =>
          r := NewsUnavailable;
        case NewsReceived(status, titles) =>
          r := FormatNews(topic, status, titles);
      }
    }

    /** The agent's own handlers, as `execute_action` calls them. */
    function AgentHandlers(env: Environment): HandlerSet {
      HandlerSet(
        data => GetWeatherFor(data, env),
        data => NewsAnswer(PyStr(data), newsApiKey, env.newsFetch),
        () => GetTime(env.now),
        data => DoMath(data, env.evaluate),
        () => GreetUser(),
        () => ShowHelp())
    }

    /** `respond` of this agent in environment `env`. */
    function Answer(input: string, env: Environment): (r: string)
      ensures r == Invoke(AgentHandlers(env), ProcessInput(input).0, ProcessInput(input).1)
    {
      Respond(AgentHandlers(env), input)
    }

    /** When "calculate" or "math" makes the utterance a math request, the whole
        normalised utterance goes to the calculator, and its letters get it
        rejected before any evaluation. */
    lemma MathWordsAreRejected(input: string, env: Environment)
      requires ProcessInput(input).0 == Math
      requires Contains(Normalize(input), "calculate") || Contains(Normalize(input), "math")
      ensures Answer(input, env) == OnlyBasicMath
    {
      MathWordIsRejected(Normalize(input), env.evaluate);
    }

    /** An utterance the calculator accepts holds only digits, operators,
        dots, parentheses and whitespace, so it reached the math intent through
        an operator keyword. */
    lemma AcceptedMathHasOperator(input: string)
      requires ProcessInput(input).0 == Math
      requires PassesWhitelist(Normalize(input))
      ensures exists k :: 2 <= k < |MathWords| && Contains(Normalize(input), MathWords[k])
    {
      assert Math.Keywords() == MathWords;
      AcceptedMathWord(Normalize(input));
    }

    /** The help text lists every capability of a freshly created agent. */
    lemma HelpListsCapabilities()
      requires capabilities == Capabilities
      ensures Contains(ShowHelp(), "check weather") && Contains(ShowHelp(), "get news")
      ensures Contains(ShowHelp(), "tell time") && Contains(ShowHelp(), "simple math")
      ensures Contains(ShowHelp(), "greet user")
    {
      assert capabilities[0] == "check weather" && capabilities[1] == "get news";
      assert capabilities[2] == "tell time" && capabilities[3] == "simple math";
      assert capabilities[4] == "greet user";
    }

    /** "Calculate 15 * 8 + 4" is a math request, and the calculator turns it
        away because it still contains the word "calculate". */
    lemma CalculateExampleIsRejected(env: Environment)
      ensures Answer("Calculate 15 * 8 + 4", env) == OnlyBasicMath
    {
      CalculateExampleNormalized();
      CalculateExampleIsMath("Calculate 15 * 8 + 4");
      ContainsSelfPrefix("calculate", " 15 * 8 + 4");
      MathWordsAreRejected("Calculate 15 * 8 + 4", env);
    }

    /** "hello" is answered with the greeting, whatever the environment. */
    lemma HelloIsGreeted(env: Environment)
      ensures Answer("hello", env) == GreetUser()
    {
      HelloNormalized();
      HelloIsGreeting("hello");
      GreetingIsAnswered("hello", env);
    }

    /** Whatever made the input a greeting, the answer is the fixed greeting. */
    lemma GreetingIsAnswered(input: string, env: Environment)
      requires ProcessInput(input).0 == Greeting
      ensures Answer(input, env) == GreetUser()
    {
    }
  }

  /** Each intent's name reaches that intent's handler: the string dispatch
      and the classifier agree on every name. */
  lemma NamesRouteToTheirIntent(h: HandlerSet, i: Intent, data: Option<string>)
    ensures ExecuteAction(h, i.Name(), data) == Invoke(h, i, data)
  {
  }

  /** An expression holding "calculate" or "math" has a letter, so the
      calculator rejects it. */
  lemma MathWordIsRejected(t: string, evaluate: string -> Option<string>)
    requires Contains(t, "calculate") || Contains(t, "math")
    ensures DoMath(Some(t), evaluate) == OnlyBasicMath
  {
    var k := if Contains(t, "calculate") then "calculate" else "math";
    var i :| 0 <= i <= |t| && SliceAt(t, k, i);
    assert t[i] == k[0];
    LetterIsRejected(t, i, evaluate);
  }

  /** A whitelisted text that mentions a math keyword mentions an operator. */
  lemma AcceptedMathWord(t: string)
    requires MentionsAny(t, MathWords) && PassesWhitelist(t)
    ensures exists k :: 2 <= k < |MathWords| && Contains(t, MathWords[k])
  {
    WhitelistExcludesWord(t, "calculate");
    WhitelistExcludesWord(t, "math");
    var k :| 0 <= k < |MathWords| && Contains(t, MathWords[k]);
    assert MathWords[0] == "calculate" && MathWords[1] == "math";
    assert 2 <= k;
  }

  /** An intent string the agent does not know gets the fallback text. */
  lemma UnknownStringIsNotSure(h: HandlerSet, data: Option<string>)
    ensures ExecuteAction(h, "dance", data) == NotSure
    ensures ExecuteAction(h, "unknown", data) == NotSure
  {
  }

  lemma CalculateExampleNormalized()
    ensures Normalize("Calculate 15 * 8 + 4") == "calculate" + " 15 * 8 + 4"
  {
    CalculateExampleLowered();
    CalculateExampleStripped("calculate" + " 15 * 8 + 4");
  }

  lemma CalculateExampleLowered()
    ensures Lower("Calculate 15 * 8 + 4") == "calculate" + " 15 * 8 + 4"
  {
  }

  lemma CalculateExampleStripped(s: string)
    requires s == "calculate" + " 15 * 8 + 4"
    ensures Strip(s) == s
  {
    StripOfStripped(s);
  }

  lemma CalculateExampleIsMath(input: string)
    requires Normalize(input) == "calculate" + " 15 * 8 + 4"
    ensures ProcessInput(input).0 == Math
  {
    var t := Normalize(input);
    CalculateExampleNoWeather(t);
    CalculateExampleNoNews(t);
    CalculateExampleNoTime(t);
    ContainsSelfPrefix("calculate", " 15 * 8 + 4");
    assert MathWords[0] == "calculate";
  }

  lemma CalculateExampleNoWeather(t: string)
    requires t == "calculate" + " 15 * 8 + 4"
    ensures !MentionsAny(t, WeatherWords)
  {
    NotContainsChar(t, "weather", 0);
    NotContainsChar(t, "temperature", 2);
    NotContainsChar(t, "forecast", 0);
  }

  lemma CalculateExampleNoNews(t: string)
    requires t == "calculate" + " 15 * 8 + 4"
    ensures !MentionsAny(t, NewsWords)
  {
    NotContainsChar(t, "news", 0);
    NotContainsChar(t, "headlines", 0);
    NotContainsChar(t, "latest", 4);
  }

  lemma CalculateExampleNoTime(t: string)
    requires t == "calculate" + " 15 * 8 + 4"
    ensures !MentionsAny(t, TimeWords)
  {
    NotContainsChar(t, "time", 1);
    NotContainsChar(t, "clock", 2);
    NotContainsChar(t, "now", 0);
  }

  lemma HelloNormalized()
    ensures Normalize("hello") == "hello"
  {
    LowerOfLower("hello");
    StripOfStripped("hello");
  }

  lemma HelloIsGreeting(input: string)
    requires Normalize(input) == "hello"
    ensures ProcessInput(input).0 == Greeting
  {
    var t := Normalize(input);
    HelloNoEarlierWord(t);
    ContainsSelf("hello");
    assert GreetingWords[0] == "hello";
  }

  lemma HelloNoEarlierWord(t: string)
    requires t == "hello"
    ensures !MentionsAny(t, WeatherWords) && !MentionsAny(t, NewsWords)
    ensures !MentionsAny(t, TimeWords) && !MentionsAny(t, MathWords)
  {
    NotContainsChar(t, "weather", 0);
    NotContainsChar(t, "temperature", 0);
    NotContainsChar(t, "forecast", 0);
    NotContainsChar(t, "news", 0);
    NotContainsChar(t, "headlines", 2);
    NotContainsChar(t, "latest", 1);
    NotContainsChar(t, "time", 0);
    NotContainsChar(t, "clock", 0);
    NotContainsChar(t, "now", 0);
    NotContainsChar(t, "calculate", 0);
    NotContainsChar(t, "math", 0);
    NotContainsChar(t, "+", 0);
    NotContainsChar(t, "-", 0);
    NotContainsChar(t, "*", 0);
    NotContainsChar(t, "/", 0);
  }
}

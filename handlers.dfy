/**
 * The leaf handlers that need no I/O of their own: the calculator's whitelist
 * (`do_math`), the greeting, and the answer formatting and URL choice of the
 * weather and news handlers. Whatever the network, `eval` or a JSON decoder
 * would supply is an oracle: a parameter standing for its outcome.
 */
module Handlers {
  import opened Wrappers
  import opened Text

  /** An f-string renders Python's None as the text "None", so None and the
      string "None" look the same once rendered. */
  function PyStr(o: Option<string>): (r: string)
    ensures o.Some? ==> r == o.value
    ensures r == "None" <==> o == None || o == Some("None")
  {
    match o
    case Some(s) => s
    case None => "None"
  }

  // ----- do_math -----

  const OnlyBasicMath: string := "Sorry, I can only do basic math operations"
  const CouldNotCalculate: string := "Sorry, I couldn't calculate that"
  const ResultPrefix: string := "Result: "

  /** The regular-expression character class of `do_math` over ASCII: a digit,
      one of `+ - * / .`, whitespace, or a parenthesis. */
  predicate IsMathChar(c: char): (ok: bool)
    ensures ok ==> !IsLetter(c) && c != '_' && c != '\''
  {
    ('0' <= c <= '9') || c == '+' || c == '-' || c == '*' || c == '/' || c == '.'
    || IsSpace(c) || c == '(' || c == ')'
  }

  /** The anchored match `^[...]+$` of `do_math`: at least one character, and
      every character in the class. (`$` may also match before a final line feed, but
      a line feed is in the class, so that changes nothing.) */
  predicate PassesWhitelist(e: string): (ok: bool)
    ensures ok ==> e != [] && forall i :: 0 <= i < |e| ==> !IsLetter(e[i])
    ensures (|e| > 0 && forall i :: 0 <= i < |e| ==> ('0' <= e[i] <= '9' || e[i] in "+-*/.()" || IsSpace(e[i]))) ==> ok
  {
    |e| > 0 && forall i :: 0 <= i < |e| ==> IsMathChar(e[i])
  }

  /** `do_math`. `evaluate` stands for `eval` followed by `str` of its value:
      Some(text) when it returns, None when it raises. A None expression makes
      `re.match` raise, which the bare `except` turns into "couldn't calculate". */
  function DoMath(expression: Option<string>, evaluate: string -> Option<string>): (r: string)
    ensures r == OnlyBasicMath <==> expression.Some? && !PassesWhitelist(expression.value)
    ensures ResultPrefix <= r ==> expression.Some? && PassesWhitelist(expression.value)
    ensures expression.None? ==> r == CouldNotCalculate
    ensures expression.Some? && PassesWhitelist(expression.value) && evaluate(expression.value).Some?
            ==> r == ResultPrefix + evaluate(expression.value).value
    ensures expression.Some? && PassesWhitelist(expression.value) && evaluate(expression.value).None?
            ==> r == CouldNotCalculate
  {
    PrefixesClash(CouldNotCalculate, ResultPrefix, CouldNotCalculate, 0);
    PrefixesClash(OnlyBasicMath, ResultPrefix, OnlyBasicMath, 0);
    match expression
    case None => CouldNotCalculate
    case Some(e) =>
      if PassesWhitelist(e) then
        match evaluate(e)
        case Some(v) =>
          PrefixesClash(ResultPrefix, OnlyBasicMath, ResultPrefix + v, 0);
          ResultPrefix + v
        case None => CouldNotCalculate
      else OnlyBasicMath
  }

  /** A rejected expression never reaches the evaluator: the answer is the same
      whatever `evaluate` would have done. */
  lemma RejectionIgnoresEvaluator(e: string, evaluate1: string -> Option<string>, evaluate2: string -> Option<string>)
    requires !PassesWhitelist(e)
    ensures DoMath(Some(e), evaluate1) == DoMath(Some(e), evaluate2) == OnlyBasicMath
  {
  }

  /** Any letter in the expression gets it rejected with the whitelist message. */
  lemma LetterIsRejected(e: string, i: nat, evaluate: string -> Option<string>)
    requires i < |e| && IsLetter(e[i])
    ensures DoMath(Some(e), evaluate) == OnlyBasicMath
  {
    assert !IsMathChar(e[i]);
  }

  /** A whitelisted expression contains no word that starts with a letter. */
  lemma WhitelistExcludesWord(e: string, w: string)
    requires PassesWhitelist(e)
    requires w != [] && IsLetter(w[0])
    ensures !Contains(e, w)
  {
    forall i | 0 <= i <= |e|
      ensures !SliceAt(e, w, i)
    {
      if i + |w| <= |e| {
        assert e[i..i + |w|][0] == e[i];
        assert IsMathChar(e[i]) && !IsMathChar(w[0]);
      }
    }
  }

  /** The empty expression is rejected too. */
  lemma EmptyIsRejected(evaluate: string -> Option<string>)
    ensures DoMath(Some(""), evaluate) == OnlyBasicMath
  {
  }

  /** Code disguised as an expression is rejected before evaluation. */
  lemma InjectionIsRejected(evaluate: string -> Option<string>)
    ensures DoMath(Some("__import__('os').system('ls')"), evaluate) == OnlyBasicMath
    ensures DoMath(Some("abc + def"), evaluate) == OnlyBasicMath
  {
    LetterIsRejected("__import__('os').system('ls')", 2, evaluate);
    LetterIsRejected("abc + def", 0, evaluate);
  }

  /** The arithmetic expressions the calculator is meant for pass the
      whitelist, so their answer is whatever evaluation gives: "Result: " and
      the value, or "couldn't calculate" when evaluation raises (as "1 / 0"
      does). */
  lemma ArithmeticIsEvaluated(e: string, evaluate: string -> Option<string>)
    requires e in ["5 + 3", "10 - 4", "6 * 7", "20 / 4", "(5 + 3) * 2", "3.5 + 2.5", "1 / 0"]
    ensures PassesWhitelist(e)
    ensures evaluate(e).Some? ==> DoMath(Some(e), evaluate) == ResultPrefix + evaluate(e).value
    ensures evaluate(e).None? ==> DoMath(Some(e), evaluate) == CouldNotCalculate
  {
  }

  // ----- greet_user -----

  /** The pieces of the greeting, in order; the words the lemma below looks for
      are pieces of their own. */
  const GreetingPieces: seq<string> := [
    "Hello", "! I'm your ", "AI assistant", ". I can help with ", "weather", ", ",
    "news", ", ", "time", ", and simple ", "math", ". What would you like to know?"
  ]

  /** `greet_user`: "Hello! I'm your AI assistant. I can help with weather, news,
      time, and simple math. What would you like to know?" It introduces the
      assistant and names weather, news, time and math. */
  function GreetUser(): (g: string)
    ensures Contains(g, "Hello") && Contains(g, "AI assistant")
    ensures Contains(g, "weather") && Contains(g, "news")
    ensures Contains(g, "time") && Contains(g, "math")
  {
    var g := Join(GreetingPieces, "");
    assert Contains(g, GreetingPieces[0]) && Contains(g, GreetingPieces[2]);
    assert Contains(g, GreetingPieces[4]) && Contains(g, GreetingPieces[6]);
    assert Contains(g, GreetingPieces[8]) && Contains(g, GreetingPieces[10]);
    g
  }

  // ----- get_weather -----

  const WeatherUnavailable: string := "Weather service is currently unavailable"

  /** What the weather service's answer amounts to: `requests.get` or `.json()`
      raised, or a missing field raised in the 200 branch (WeatherFailed); or a
      status with, for 200, the temperature already rendered as text and the
      condition description. */
  datatype WeatherReply = WeatherFailed | WeatherReceived(status: int, temp: string, description: string)

  const WeatherEndpoint: string := "http://api.openweathermap.org/data/2.5/weather?q="

  /** The request URL of `get_weather`: the location as the query, then the key
      as rendered, in metric units. */
  function WeatherUrl(location: string, apiKey: Option<string>): (url: string)
    ensures WeatherEndpoint + location + "&appid=" + PyStr(apiKey) <= url
    ensures Contains(url, "&units=metric")
  {
    var url := WeatherEndpoint + location + "&appid=" + PyStr(apiKey) + "&units=metric";
    ContainsAtEnd(WeatherEndpoint + location + "&appid=" + PyStr(apiKey), "&units=metric");
    url
  }

  function NoWeather(location: string): string {
    "Sorry, I couldn't get weather data for " + location
  }

  /** The answer `get_weather` builds from the service's reply. */
  function WeatherMessage(location: string, reply: WeatherReply): (r: string)
    ensures r == WeatherUnavailable <==> reply.WeatherFailed?
    ensures reply.WeatherReceived? ==> Contains(r, location)
    ensures reply.WeatherReceived? && reply.status == 200 ==>
              "Weather in " + location + ": " <= r && Contains(r, reply.temp) && Contains(r, reply.description)
    ensures reply.WeatherReceived? && reply.status != 200 ==> r == NoWeather(location)
  {
    match reply
    case WeatherFailed => WeatherUnavailable
    case WeatherReceived(status, temp, description) =>
      if status == 200 then
        var r := "Weather in " + location + ": " + temp + "\U{B0}C, " + description;
        PrefixesClash("Weather in ", WeatherUnavailable, r, 8);
        ContainsAtEnd("Weather in ", location);
        ContainsInLonger("Weather in " + location, r, location);
        ContainsAtEnd("Weather in " + location + ": ", temp);
        ContainsInLonger("Weather in " + location + ": " + temp, r, temp);
        ContainsAtEnd("Weather in " + location + ": " + temp + "\U{B0}C, ", description);
        r
      else
        var r := NoWeather(location);
        PrefixesClash(r, WeatherUnavailable, r, 0);
        ContainsAtEnd("Sorry, I couldn't get weather data for ", location);
        r
  }

  /** `get_weather`, with `fetch` standing for the request and JSON decoding:
      the service-unavailable text exactly when that failed, and otherwise an
      answer naming the location. */
  function GetWeather(location: string, apiKey: Option<string>, fetch: string -> WeatherReply): (r: string)
    ensures r == WeatherUnavailable <==> fetch(WeatherUrl(location, apiKey)).WeatherFailed?
    ensures r != WeatherUnavailable ==> Contains(r, location)
  {
    WeatherMessage(location, fetch(WeatherUrl(location, apiKey)))
  }

  // ----- get_news -----

  const NewsUnavailable: string := "News service is currently unavailable"
  const TopHeadlinesUrl: string := "https://newsapi.org/v2/top-headlines?country=us&apiKey="
  const EverythingUrl: string := "https://newsapi.org/v2/everything?q="
  const Bullet: string := "\U{2022} "

  /** What the news service's answer amounts to: `requests.get`, `.json()` or a
      field lookup raised (NewsFailed); or a status with the titles of the
      articles, in order. */
  datatype NewsReply = NewsFailed | NewsReceived(status: int, titles: seq<string>)

  /** The request URL of `get_news`: top headlines for the topic "general",
      otherwise a popularity-sorted search for the topic. */
  function NewsUrl(topic: string, apiKey: Option<string>): (url: string)
    ensures TopHeadlinesUrl <= url <==> topic == "general"
    ensures topic != "general" ==> EverythingUrl + topic + "&apiKey=" <= url
  {
    if topic == "general" then
      TopHeadlinesUrl + PyStr(apiKey)
    else
      var url := EverythingUrl + topic + "&apiKey=" + PyStr(apiKey) + "&sortBy=popularity";
      PrefixesClash(EverythingUrl, TopHeadlinesUrl, url, 23);
      url
  }

  function NewsHeader(topic: string): string {
    "Latest news about " + topic + ":\n"
  }

  function NoNews(topic: string): string {
    "Sorry, I couldn't find news about " + topic
  }

  /** One bulleted line per title, for the first three titles at most. */
  function Headlines(titles: seq<string>): (lines: seq<string>)
    ensures |lines| == if |titles| < 3 then |titles| else 3
    ensures forall k :: 0 <= k < |lines| ==> lines[k] == Bullet + titles[k]
  {
    var n := if |titles| < 3 then |titles| else 3;
    seq(n, k requires 0 <= k < n => Bullet + titles[k])
  }

  /** The answer `get_news` gives for a reply with this status and these titles. */
  function NewsMessage(topic: string, status: int, titles: seq<string>): (r: string)
    ensures status == 200 && |titles| > 0 ==> NewsHeader(topic) <= r
    ensures status != 200 || |titles| == 0 ==> r == NoNews(topic)
  {
    if status == 200 && |titles| > 0 then
      NewsHeader(topic) + Join(Headlines(titles), "\n")
    else
      NoNews(topic)
  }

  /** The whole of `get_news`, with `fetch` standing for the request and JSON
      decoding: the service-unavailable text exactly when that failed, and
      otherwise the message for the reply. */
  function NewsAnswer(topic: string, apiKey: Option<string>, fetch: string -> NewsReply): (r: string)
    ensures r == NewsUnavailable <==> fetch(NewsUrl(topic, apiKey)).NewsFailed?
    ensures fetch(NewsUrl(topic, apiKey)).NewsReceived? ==>
              var reply := fetch(NewsUrl(topic, apiKey)); r == NewsMessage(topic, reply.status, reply.titles)
  {
    match fetch(NewsUrl(topic, apiKey))
    case NewsFailed => NewsUnavailable
    case NewsReceived(status, titles) =>
      NewsMessageNotUnavailable(topic, status, titles);
      NewsMessage(topic, status, titles)
  }

  /** The formatting branch of `get_news`: build the bulleted lines by appending,
      one per article of `titles[:3]`, and join them under the header. */
  method FormatNews(topic: string, status: int, titles: seq<string>) returns (r: string)
    ensures r == NewsMessage(topic, status, titles)
  {
    if status == 200 && |titles| > 0 {
      var top := if |titles| < 3 then titles else titles[..3];
      var headlines: seq<string> := [];
      for k := 0 to |top|
        invariant |headlines| == k
        invariant forall j :: 0 <= j < k ==> headlines[j] == Bullet + titles[j]
      {
        headlines := headlines + [Bullet + top[k]];
      }
      assert headlines == Headlines(titles);
      r := NewsHeader(topic) + Join(headlines, "\n");
    } else {
      r := NoNews(topic);
    }
  }

  /** Each of the first three titles (fewer if there are fewer) appears as a bulleted line. */
  lemma NewsListsHeadlines(topic: string, titles: seq<string>, k: nat)
    requires k < 3 && k < |titles|
    ensures Contains(NewsMessage(topic, 200, titles), Bullet + titles[k])
  {
    var lines := Headlines(titles);
    assert lines[k] == Bullet + titles[k];
    assert Contains(Join(lines, "\n"), lines[k]);
    ContainsInSuffix(NewsHeader(topic), Join(lines, "\n"), lines[k]);
  }

  /** Only the first three articles matter: the rest never reach the answer. */
  lemma NewsUsesFirstThree(topic: string, status: int, titles: seq<string>)
    requires |titles| > 3
    ensures NewsMessage(topic, status, titles) == NewsMessage(topic, status, titles[..3])
  {
    assert Headlines(titles) == Headlines(titles[..3]);
  }

  /** A reply that arrived never yields the service-unavailable text. */
  lemma NewsMessageNotUnavailable(topic: string, status: int, titles: seq<string>)
    ensures NewsMessage(topic, status, titles) != NewsUnavailable
  {
    var r := NewsMessage(topic, status, titles);
    if status == 200 && |titles| > 0 {
      PrefixesClash(NewsHeader(topic), NewsUnavailable, r, 0);
    } else {
      PrefixesClash(r, NewsUnavailable, r, 0);
    }
  }

  /** Every answer built from a reply names the topic. */
  lemma NewsNamesTopic(topic: string, status: int, titles: seq<string>)
    ensures Contains(NewsMessage(topic, status, titles), topic)
  {
    var r := NewsMessage(topic, status, titles);
    if status == 200 && |titles| > 0 {
      ContainsAtEnd("Latest news about ", topic);
      ContainsInLonger("Latest news about " + topic, r, topic);
    } else {
      ContainsAtEnd("Sorry, I couldn't find news about ", topic);
    }
  }
}

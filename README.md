# weather-news-agent: a verified model of `SimpleAIAgent`

`SimpleAIAgent` is a small rule-based assistant. It lower-cases and strips an
utterance, then finds an intent (weather, news, time, math, greeting, help or
unknown) by looking for keywords in a fixed priority order. For weather and
news it extracts a single-word argument, a location or a topic. It then
dispatches to a handler: the weather and news web services, the clock, a
calculator guarded by a character whitelist, a fixed greeting or a help text.

The model consists of six modules:

- `Wrappers`: `Option`, standing for Python's `None`-or-value.
- `Text`: ASCII models of the string built-ins the agent uses. These are
  `lower`, `strip`, `split()`, `title`, `join` and the substring test `in`.
  - Whitespace is the set shared by `str.isspace` and the regular-expression
    class `\s` over ASCII: space, characters 9 to 13 and 28 to 31.
- `Extract`: the two extractors. Each is a loop method with an early return,
  proved against a declarative function: the word after the leftmost trigger
  that has a successor, or a default.
- `Classify`: `process_input`, the `Intent` datatype, and the proofs of
  priority, uniqueness and argument shape.
- `Handlers`: the parts of the handlers that need no I/O.
  - The `do_math` whitelist and its three-way outcome.
  - The greeting.
  - The weather answer text.
  - The news URL choice, and the news formatting loop proved against its
    specification.
- `Agent`:
  - `execute_action` over an abstract set of handlers, so that routing is
    proved whatever the handlers do, and `respond`;
  - the `SimpleAIAgent` class, with its keys and capability list as constant
    fields, `show_help`, `get_news`, and the handlers the agent plugs in;
  - end-to-end lemmas.

The network and JSON decoding, `eval` and the clock reading are parameters of
type `Environment`.

Three behaviours of the code are worth stating outright:

- The demo input "Calculate 15 * 8 + 4" (main.py:169) is classified as math,
  and the whole normalised utterance is passed on (main.py:34). Its letters
  fail the whitelist (main.py:106).
  `Agent.SimpleAIAgent.CalculateExampleIsRejected` proves the answer is
  "Sorry, I can only do basic math operations".
- An unset API key is rendered as the text "None" in the request URL
  (main.py:10-11, 63, 80, 82). The answer is then whatever the service
  replies. The model renders it the same way (`Handlers.PyStr`).
- tests/test_agent.py:330 expects "error" in the answer when the news request
  raises. The code answers "News service is currently unavailable"
  (main.py:94-95), and so does the model.

## Model

| member | source | states |
|---|---|---|
| Text.LowerChar | main.py:24 | a capital becomes its own small letter (32 code points on) and every other character is kept |
| Text.UpperChar | main.py:49 | a small letter becomes its own capital (32 code points back) and every other character is kept |
| Text.Lower | main.py:24 | `lower()` keeps the length, leaves no upper-case letter, and at each position either keeps the character or turns a capital into its own small letter |
| Text.Strip | main.py:24 | `strip()` is a contiguous slice of the input, only whitespace is cut from either end, and the result neither starts nor ends with whitespace |
| Text.StripOfStripped | main.py:24 | a string with no surrounding whitespace is unchanged by `strip()` |
| Text.LowerOfLower | main.py:24 | a string with no upper-case letter is unchanged by `lower()` |
| Text.Split | main.py:45 | every piece of `split()` is a non-empty, whitespace-free word |
| Text.SplitJoin | main.py:45 | splitting words joined by single spaces gives back exactly those words |
| Text.Title | main.py:49 | `title()` keeps the length; it upper-cases a letter that follows no letter, lower-cases a letter that follows a letter (each to its own counterpart, through `UpperChar` and `LowerChar`), and leaves other characters alone |
| Text.TitleKeepsWords | main.py:49 | `title()` of a word is still one word |
| Text.TitleIdempotent | main.py:49 | applying `title()` twice is the same as applying it once |
| Text.Join | main.py:120 | every joined part occurs in the result of `join` |
| Extract.TriggerScan | main.py:47-48 | the scan finds the first index, from a start point, whose word is a trigger with a successor, and None exactly when there is none |
| Extract.AfterFirstTrigger | main.py:47-50 | the result is None exactly when no trigger has a successor, and otherwise it is the word after the leftmost such trigger |
| Extract.LocationFor | main.py:42-50 | the location is "London" when no "in"/"for" has a successor, and otherwise the title-cased word after the leftmost one |
| Extract.TopicFor | main.py:52-58 | the topic is "general" when no "about"/"on" has a successor, and otherwise the unchanged word after the leftmost one |
| Extract.NextAfterTrigger | main.py:47-49 | the left-to-right loop with early return computes the successor of the leftmost trigger |
| Extract.ExtractLocation | main.py:42-50 | `extract_location` as a loop equals the declarative location |
| Extract.ExtractTopic | main.py:52-58 | `extract_topic` as a loop equals the declarative topic |
| Extract.LocationIsOneWord | main.py:45-50 | the location is always one whitespace-free word |
| Extract.TopicIsOneWord | main.py:54-58 | the topic is always one whitespace-free word |
| Extract.LocationExample | tests/test_agent.py:175-180 | "weather in New York" yields only "New" |
| Extract.TopicDefaultExample | tests/test_agent.py:200-205 | "get me the news" yields the default topic "general" |
| Classify.MentionsAny | main.py:27-37 | a group is mentioned exactly when one of its keywords, taken whole, occurs in the text; an empty group never is |
| Classify.Normalize | main.py:24 | the normalised input has no upper-case letter and no surrounding whitespace |
| Classify.NormalizeIdempotent | main.py:24 | normalising twice is the same as normalising once |
| Classify.ProcessInput | main.py:22-40 | a chosen intent other than unknown has one of its keywords in the normalised input, and the argument is the one its intent calls for |
| Classify.ClassifierPriority | main.py:27-40 | no keyword group ranked before the chosen intent occurs in the normalised input; for unknown, no group occurs at all |
| Classify.ClassifierUnique | main.py:27-40 | any intent that is mentioned and has no mentioned predecessor is the chosen one |
| Classify.ClassifierFollowsRules | main.py:26-40 | the classifier equals the ordered rule table evaluated first-match-wins |
| Classify.ArgumentShape | main.py:27-40 | time, greeting and help, and only they, get None; math and unknown get the normalised input itself; weather and news get one word |
| Classify.NewsBeforeNow | main.py:29-31 | "news" takes priority over the time keyword "now" when no weather keyword occurs |
| Handlers.PyStr | main.py:63 | a present value renders as itself; the rendered text is "None" exactly for None and for the string "None" |
| Handlers.IsMathChar | main.py:106 | a character of the class `[\d\+\-\*\/\.\s\(\)]` is no letter, underscore or quote |
| Handlers.PassesWhitelist | main.py:106 | an expression matching `^[...]+$` is non-empty and holds no letter; every non-empty expression made only of digits, `+ - * / .`, parentheses and whitespace matches |
| Handlers.DoMath | main.py:102-112 | the whitelist message exactly when the expression fails the whitelist; otherwise "Result: " + the value when evaluation returns one, "couldn't calculate" when it raises; a None expression gives "couldn't calculate" |
| Handlers.RejectionIgnoresEvaluator | main.py:106-110 | a rejected expression gets the same answer whatever the evaluator does, so it is never evaluated |
| Handlers.LetterIsRejected | main.py:106-110 | any letter in the expression gets it rejected |
| Handlers.WhitelistExcludesWord | main.py:106 | an accepted expression contains no word that starts with a letter |
| Handlers.EmptyIsRejected | main.py:106 | the empty expression is rejected |
| Handlers.ArithmeticIsEvaluated | tests/test_agent.py:362-423 | "5 + 3", "10 - 4", "6 * 7", "20 / 4", "(5 + 3) * 2", "3.5 + 2.5" and "1 / 0" pass the whitelist, so each gets "Result: " + the value when evaluation returns one and "couldn't calculate" when it raises |
| Handlers.InjectionIsRejected | tests/test_agent.py:404-416 | "abc + def" and an `__import__` call are rejected |
| Handlers.GreetUser | main.py:114-116 | the greeting contains "Hello", "AI assistant", "weather", "news", "time" and "math" |
| Handlers.WeatherUrl | main.py:63 | the URL queries the location with the key as rendered, in metric units |
| Handlers.WeatherMessage | main.py:67-74 | the "unavailable" text exactly when the request or decoding failed; status 200 gives "Weather in {location}: " followed by text containing the temperature and the description; any other status gives exactly "Sorry, I couldn't get weather data for {location}" |
| Handlers.GetWeather | main.py:60-74 | `get_weather` answers "unavailable" exactly when the fetch failed, and otherwise names the location |
| Handlers.NewsUrl | main.py:79-82 | the top-headlines endpoint is used exactly when the topic is "general"; otherwise the search URL for the topic is used |
| Handlers.Headlines | main.py:88-90 | line k is "• " + title k, for each of the first min(3, n) titles |
| Handlers.NewsMessage | main.py:87-93 | status 200 with titles gives the "Latest news about" header; any other status or no titles gives "couldn't find news" |
| Handlers.NewsAnswer | main.py:76-95 | `get_news` answers "unavailable" exactly when the fetch failed, and otherwise the message for the reply's status and titles |
| Handlers.NewsMessageNotUnavailable | main.py:87-95 | a reply that arrived never yields the "unavailable" text |
| Handlers.FormatNews | main.py:87-93 | the append loop over the first three articles yields the specified news message |
| Handlers.NewsListsHeadlines | main.py:88-91 | each of the first three titles appears as a bulleted line |
| Handlers.NewsUsesFirstThree | main.py:89 | articles after the third never affect the answer |
| Handlers.NewsNamesTopic | main.py:91-93 | every answer built from a reply names the topic |
| Agent.ExecuteAction | main.py:122-137 | a string naming an intent runs that intent's handler with the data unchanged; any other string, and "unknown", gets the fallback text |
| Agent.Respond | main.py:139-152 | the answer is the classified intent's handler applied to the classified argument |
| Agent.NamesRouteToTheirIntent | main.py:122-135 | the string dispatch and the intent names agree for every intent |
| Agent.UnknownStringIsNotSure | tests/test_agent.py:477-483 | "unknown" and an unrecognised string get the fallback text |
| Agent.GetTime | main.py:97-100 | the time answer starts with "Current time: " and contains the clock reading |
| Agent.SimpleAIAgent.constructor | main.py:8-20 | the keys are stored and the capabilities are the fixed five-element list in order |
| Agent.SimpleAIAgent.ShowHelp | main.py:118-120 | the help text starts with "I can help you with: " and contains every capability |
| Agent.SimpleAIAgent.HelpListsCapabilities | tests/test_agent.py:443-449 | the help text of a new agent names all five capabilities |
| Agent.SimpleAIAgent.GetNews | main.py:76-95 | `get_news` equals the specified news answer, and is "unavailable" exactly when the fetch failed |
| Agent.SimpleAIAgent.Answer | main.py:139-152 | the agent's `respond` runs its own handler for the classified intent and argument |
| Agent.SimpleAIAgent.MathWordsAreRejected | main.py:33-34 | a math request made by "calculate" or "math" is always rejected by the whitelist |
| Agent.SimpleAIAgent.AcceptedMathHasOperator | main.py:33-34 | a math request that passes the whitelist was classified by an operator keyword |
| Agent.SimpleAIAgent.CalculateExampleIsRejected | main.py:169 | "Calculate 15 * 8 + 4" gets the whitelist message |
| Agent.SimpleAIAgent.GreetingIsAnswered | main.py:132-133 | a greeting intent is answered with the fixed greeting |
| Agent.SimpleAIAgent.HelloIsGreeted | tests/test_agent.py:509-517 | "hello" is answered with the greeting |

## Left out

- The HTTP requests and JSON decoding of `get_weather` and `get_news` (main.py:64-65, 84-85) are foreign I/O. They are oracle parameters whose failure case stands for the bare `except`.
- `eval` and the rendering of its value (main.py:107-108) are Python arithmetic. They are an oracle giving the rendered text, or None when evaluation raises.
- Handlers.WeatherMessage: takes the temperature as already-rendered text, because rendering a float (main.py:68-70) is not modelled; its contract says the 200 answer contains that text, not how Python renders the number.
- `get_time` reads the wall clock (main.py:99-100). The formatted reading is a parameter.
- The environment-variable reads in `__init__` (main.py:10-11) are replaced by constructor parameters.
- The prints in `respond` (main.py:141, 145, 151) and the demo `main()` (main.py:155-175) are output only and are not modelled.
- demo_interactive.py is not part of this model. It prints canned text chosen at random and has no logic of the agent's own.
- `lower`, `strip`, `split`, `title` and `\d` are modelled over ASCII. Unicode case mappings, non-ASCII whitespace and non-ASCII digits are not.
- Classify.ProcessInput: its own contract does not state priority. The lemmas Classify.ClassifierPriority and Classify.ClassifierUnique state it.

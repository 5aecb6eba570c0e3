/**
 * The keyword intent classifier (`process_input`): normalise the utterance, then
 * test six keyword groups in a fixed priority order; the first group with a
 * keyword occurring in the text decides the intent and the kind of argument.
 */
module Classify {
  import opened Wrappers
  import opened Text
  import opened Extract

  datatype Intent = Weather | News | Time | Math | Greeting | Help | Unknown {

    /** The intent string `process_input` returns and `execute_action` compares against. */
    function Name(): string {
      match this
      case Weather => "weather"
      case News => "news"
      case Time => "time"
      case Math => "math"
      case Greeting => "greeting"
      case Help => "help"
      case Unknown => "unknown"
    }

    /** Position in the priority order; Unknown comes after every group. */
    function Rank(): nat {
      match this
      case Weather => 0
      case News => 1
      case Time => 2
      case Math => 3
      case Greeting => 4
      case Help => 5
      case Unknown => 6
    }

    /** The keywords that select this intent; Unknown has none. */
    function Keywords(): seq<string> {
      match this
      case Weather => WeatherWords
      case News => NewsWords
      case Time => TimeWords
      case Math => MathWords
      case Greeting => GreetingWords
      case Help => HelpWords
      case Unknown => []
    }
  }

  const WeatherWords: seq<string> := ["weather", "temperature", "forecast"]
  const NewsWords: seq<string> := ["news", "headlines", "latest"]
  const TimeWords: seq<string> := ["time", "clock", "now"]
  const MathWords: seq<string> := ["calculate", "math", "+", "-", "*", "/"]
  const GreetingWords: seq<string> := ["hello", "hi", "hey", "greetings"]
  const HelpWords: seq<string> := ["help", "capabilities", "what can you do"]

  /** The rule table as an explicit ordered list, highest priority first. */
  const Rules: seq<(Intent, seq<string>)> := [
    (Weather, WeatherWords), (News, NewsWords), (Time, TimeWords),
    (Math, MathWords), (Greeting, GreetingWords), (Help, HelpWords)
  ]

  /** `any(word in text for word in words)`: some keyword of the group, taken
      as a whole, occurs in the text; an empty group is never mentioned. */
  predicate MentionsAny(text: string, words: seq<string>): (b: bool)
    ensures b <==> exists w {:trigger Contains(text, w), w in words} :: w in words && Contains(text, w)
    ensures words == [] ==> !b
  {
    assert forall k :: 0 <= k < |words| ==> words[k] in words;
    exists k :: 0 <= k < |words| && Contains(text, words[k])
  }

  /** `user_input.lower().strip()`: no upper-case letter, no surrounding whitespace. */
  function Normalize(input: string): (t: string)
    ensures forall i :: 0 <= i < |t| ==> !IsUpper(t[i])
    ensures t != [] ==> !IsSpace(t[0]) && !IsSpace(t[|t| - 1])
  {
    var lowered := Lower(input);
    assert forall i :: 0 <= i < |lowered| ==> !IsUpper(lowered[i]);
    Strip(lowered)
  }

  /** The argument each intent carries, for the normalised text `t`. */
  function Argument(intent: Intent, t: string): Option<string> {
    match intent
    case Weather => Some(LocationFor(t))
    case News => Some(TopicFor(t))
    case Math => Some(t)
    case Unknown => Some(t)
    case _ => None
  }

  /** `process_input`: the first keyword group, in priority order, that the
      normalised text mentions decides the intent, and no group ranked before it
      is mentioned; with no group mentioned the intent is Unknown. */
  function ProcessInput(input: string): (r: (Intent, Option<string>))
    ensures r.0 != Unknown ==> MentionsAny(Normalize(input), r.0.Keywords())
    ensures r.1 == Argument(r.0, Normalize(input))
  {
    var t := Normalize(input);
    if MentionsAny(t, WeatherWords) then (Weather, Some(LocationFor(t)))
    else if MentionsAny(t, NewsWords) then (News, Some(TopicFor(t)))
    else if MentionsAny(t, TimeWords) then (Time, None)
    else if MentionsAny(t, MathWords) then (Math, Some(t))
    else if MentionsAny(t, GreetingWords) then (Greeting, None)
    else if MentionsAny(t, HelpWords) then (Help, None)
    else (Unknown, Some(t))
  }

  /** The first rule of `rules` whose keywords `t` mentions, else Unknown. */
  function FirstMatch(rules: seq<(Intent, seq<string>)>, t: string): Intent {
    if rules == [] then Unknown
    else if MentionsAny(t, rules[0].1) then rules[0].0
    else FirstMatch(rules[1..], t)
  }

  // ----- lemmas -----

  /** Priority: no keyword group ranked before the chosen intent is mentioned
      (for Unknown: no group at all is mentioned). */
  lemma ClassifierPriority(input: string)
    ensures forall j: Intent :: j.Rank() < ProcessInput(input).0.Rank() ==>
                                 !MentionsAny(Normalize(input), j.Keywords())
  {
    var t := Normalize(input);
    var chosen := ProcessInput(input).0;
    forall j: Intent | j.Rank() < chosen.Rank()
      ensures !MentionsAny(t, j.Keywords())
    {
      match j
      case Weather =>
      case News =>
      case Time =>
      case Math =>
      case Greeting =>
      case Help =>
      case Unknown =>
    }
  }

  /** The classifier is the ordered rule table evaluated first-match-wins. */
  lemma ClassifierFollowsRules(input: string)
    ensures ProcessInput(input).0 == FirstMatch(Rules, Normalize(input))
  {
    var t := Normalize(input);
    var rules := Rules;
    assert FirstMatch(rules, t) == if MentionsAny(t, WeatherWords) then Weather else FirstMatch(rules[1..], t);
    rules := rules[1..];
    assert FirstMatch(rules, t) == if MentionsAny(t, NewsWords) then News else FirstMatch(rules[1..], t);
    rules := rules[1..];
    assert FirstMatch(rules, t) == if MentionsAny(t, TimeWords) then Time else FirstMatch(rules[1..], t);
    rules := rules[1..];
    assert FirstMatch(rules, t) == if MentionsAny(t, MathWords) then Math else FirstMatch(rules[1..], t);
    rules := rules[1..];
    assert FirstMatch(rules, t) == if MentionsAny(t, GreetingWords) then Greeting else FirstMatch(rules[1..], t);
    rules := rules[1..];
    assert FirstMatch(rules, t) == if MentionsAny(t, HelpWords) then Help else FirstMatch(rules[1..], t);
    assert rules[1..] == [];
  }

  /** The priority conditions determine the intent: no other intent both is
      mentioned and has every earlier group unmentioned. */
  lemma ClassifierUnique(input: string, other: Intent)
    requires other != Unknown ==> MentionsAny(Normalize(input), other.Keywords())
    requires forall j: Intent :: j.Rank() < other.Rank() ==> !MentionsAny(Normalize(input), j.Keywords())
    ensures other == ProcessInput(input).0
  {
    var chosen := ProcessInput(input).0;
    ClassifierPriority(input);
    assert other.Rank() == chosen.Rank();
  }

  /** Normalising is idempotent. */
  lemma NormalizeIdempotent(input: string)
    ensures Normalize(Normalize(input)) == Normalize(input)
  {
    var t := Normalize(input);
    LowerOfLower(t);
    StripOfStripped(t);
  }

  /** The argument follows the intent: None for time, greeting and help; the
      normalised text itself for math and unknown; an extracted single word for
      weather and news. */
  lemma ArgumentShape(input: string)
    ensures var (intent, arg) := ProcessInput(input);
      && (intent.Time? || intent.Greeting? || intent.Help? <==> arg.None?)
      && (intent.Math? || intent.Unknown? ==> arg == Some(Normalize(input)))
      && (intent.Weather? || intent.News? ==> arg.Some? && IsWord(arg.value))
  {
    var t := Normalize(input);
    match ProcessInput(input).0
    case Weather => LocationIsOneWord(t);
    case News => TopicIsOneWord(t);
    case _ =>
  }

  /** An utterance mentioning both "news" and "now" but no weather keyword is news. */
  lemma NewsBeforeNow(input: string)
    requires Contains(Normalize(input), "news")
    requires !MentionsAny(Normalize(input), WeatherWords)
    ensures ProcessInput(input).0 == News
  {
    assert NewsWords[0] == "news";
  }
}

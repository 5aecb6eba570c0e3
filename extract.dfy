/**
 * The two token extractors of the agent (`extract_location`, `extract_topic`):
 * split the text into words and return the word after the leftmost trigger word
 * that has a successor, or a default.
 */
module Extract {
  import opened Wrappers
  import opened Text

  const LocationTriggers: seq<string> := ["in", "for"]
  const DefaultLocation: string := "London"
  const TopicTriggers: seq<string> := ["about", "on"]
  const DefaultTopic: string := "general"

  /** Word `i` is one of the triggers and a word follows it. */
  predicate TriggerAt(words: seq<string>, triggers: seq<string>, i: int) {
    0 <= i && i + 1 < |words| && words[i] in triggers
  }

  /** Word `i` is the leftmost trigger that has a successor. */
  predicate FirstTriggerAt(words: seq<string>, triggers: seq<string>, i: int) {
    TriggerAt(words, triggers, i) && forall j :: 0 <= j < i ==> !TriggerAt(words, triggers, j)
  }

  /** Index of the first trigger at or after `from`, if any. */
  function TriggerScan(words: seq<string>, triggers: seq<string>, from: nat): (r: Option<nat>)
    ensures r.Some? ==> from <= r.value && TriggerAt(words, triggers, r.value)
                        && forall j :: from <= j < r.value ==> !TriggerAt(words, triggers, j)
    ensures r.None? ==> forall j :: from <= j ==> !TriggerAt(words, triggers, j)
    decreases |words| - from
  {
    if from + 1 >= |words| then None
    else if words[from] in triggers then Some(from)
    else TriggerScan(words, triggers, from + 1)
  }

  /** The word after the first trigger in `words`, if there is one. */
  function AfterFirstTrigger(words: seq<string>, triggers: seq<string>): (r: Option<string>)
    ensures r.None? <==> forall i :: !TriggerAt(words, triggers, i)
    ensures forall i :: FirstTriggerAt(words, triggers, i) ==> r == Some(words[i + 1])
  {
    match TriggerScan(words, triggers, 0)
    case Some(i) => Some(words[i + 1])
    case None => None
  }

  /** The location `extract_location` returns for `text`. */
  function LocationFor(text: string): (r: string)
    ensures (forall i :: !TriggerAt(Split(text), LocationTriggers, i)) ==> r == DefaultLocation
    ensures forall i :: FirstTriggerAt(Split(text), LocationTriggers, i) ==> r == Title(Split(text)[i + 1])
  {
    match AfterFirstTrigger(Split(text), LocationTriggers)
    case Some(w) => Title(w)
    case None => DefaultLocation
  }

  /** The topic `extract_topic` returns for `text`. */
  function TopicFor(text: string): (r: string)
    ensures (forall i :: !TriggerAt(Split(text), TopicTriggers, i)) ==> r == DefaultTopic
    ensures forall i :: FirstTriggerAt(Split(text), TopicTriggers, i) ==> r == Split(text)[i + 1]
  {
    match AfterFirstTrigger(Split(text), TopicTriggers)
    case Some(w) => w
    case None => DefaultTopic
  }

  /** The scan both extractors run: walk the words left to right and return the
      successor of the first trigger word that has one. */
  method NextAfterTrigger(words: seq<string>, triggers: seq<string>) returns (next: Option<string>)
    ensures next == AfterFirstTrigger(words, triggers)
  {
    for i := 0 to |words|
      invariant forall j :: 0 <= j < i ==> !TriggerAt(words, triggers, j)
    {
      if words[i] in triggers && i + 1 < |words| {
        assert FirstTriggerAt(words, triggers, i);
        return Some(words[i + 1]);
      }
    }
    return None;
  }

  /** `extract_location`: the title-cased word after the first "in" or "for", else "London". */
  method ExtractLocation(text: string) returns (location: string)
    ensures location == LocationFor(text)
  {
    var words := Split(text);
    var next := NextAfterTrigger(words, LocationTriggers);
    if next.Some? {
      location := Title(next.value);
    } else {
      location := DefaultLocation;
    }
  }

  /** `extract_topic`: the word after the first "about" or "on", unchanged, else "general". */
  method ExtractTopic(text: string) returns (topic: string)
    ensures topic == TopicFor(text)
  {
    var words := Split(text);
    var next := NextAfterTrigger(words, TopicTriggers);
    if next.Some? {
      topic := next.value;
    } else {
      topic := DefaultTopic;
    }
  }

  // ----- lemmas -----

  /** Only one word is extracted: the location is a single whitespace-free token
      (so "weather in New York" yields "New", not "New York"). */
  lemma LocationIsOneWord(text: string)
    ensures IsWord(LocationFor(text))
  {
    var words := Split(text);
    match TriggerScan(words, LocationTriggers, 0)
    case Some(i) =>
      assert AfterFirstTrigger(words, LocationTriggers) == Some(words[i + 1]);
      TitleKeepsWords(words[i + 1]);
    case None =>
  }

  /** The topic, too, is a single whitespace-free token. */
  lemma TopicIsOneWord(text: string)
    ensures IsWord(TopicFor(text))
  {
  }

  /** "weather in New York" yields only "New": the token after "in", title-cased. */
  lemma LocationExample()
    ensures LocationFor("weather in New York") == "New"
  {
    NewYorkWords();
    LocationOfNewYork("weather in New York");
    TitleOfNew();
  }

  lemma TitleOfNew()
    ensures Title("New") == "New"
  {
    assert Title("New")[0] == TitledAt("New", 0);
  }

  lemma NewYorkWords()
    ensures Split("weather in New York") == ["weather", "in", "New", "York"]
  {
    assert Join(["weather", "in", "New", "York"], " ") == "weather in New York";
    var words := ["weather", "in", "New", "York"];
    assert forall k :: 0 <= k < |words| ==> IsWord(words[k]);
    SplitJoin(words);
  }

  lemma LocationOfNewYork(text: string)
    requires Split(text) == ["weather", "in", "New", "York"]
    ensures LocationFor(text) == Title("New")
  {
    assert FirstTriggerAt(Split(text), LocationTriggers, 1);
  }

  /** "get me the news" has no "about" or "on": the topic is the default "general". */
  lemma TopicDefaultExample()
    ensures TopicFor("get me the news") == "general"
  {
    GetMeTheNewsWords();
    TopicOfGetMeTheNews("get me the news");
  }

  lemma GetMeTheNewsWords()
    ensures Split("get me the news") == ["get", "me", "the", "news"]
  {
    assert Join(["get", "me", "the", "news"], " ") == "get me the news";
    var words := ["get", "me", "the", "news"];
    assert forall k :: 0 <= k < |words| ==> IsWord(words[k]);
    SplitJoin(words);
  }

  lemma TopicOfGetMeTheNews(text: string)
    requires Split(text) == ["get", "me", "the", "news"]
    ensures TopicFor(text) == DefaultTopic
  {
    NoTopicTrigger(Split(text));
  }

  lemma NoTopicTrigger(words: seq<string>)
    requires words == ["get", "me", "the", "news"]
    ensures AfterFirstTrigger(words, TopicTriggers) == None
  {
    forall i
      ensures !TriggerAt(words, TopicTriggers, i)
    {
      if 0 <= i < 3 {
        assert words[i] != "about" && words[i] != "on";
      }
    }
  }
}

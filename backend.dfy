/**
 * The server's helpers: cleaning the model's reply, the aptitude keyword
 * test, the 70/30 question split, question generation with its retry and
 * topic tagging, the test endpoint's assembly, the chat endpoint's
 * validation, and the topic names listed for a unit folder.
 */
module Backend {
  import opened Common
  import opened Text

  // ---------------------------------------------------------------------
  // clean_gemini_json_response

  /**
   * Python's `s[a:b]` for indices within `0 .. |s|`: the `b - a` characters
   * from index `a` on, none when `b < a`.
   */
  function PySlice(s: string, a: nat, b: nat): (r: string)
    requires a <= |s| && b <= |s|
    ensures |r| == if a <= b then b - a else 0
    ensures forall k :: 0 <= k < |r| ==> r[k] == s[a + k]
  {
    if a <= b then s[a..b] else []
  }

  /**
   * The reply text reduced to its JSON: from the first '[' to the last ']'
   * when both occur; otherwise the stripped text with every "```json" and
   * then every "```" deleted.
   */
  function CleanJson(text: string): string
  {
    var start := Find(text, '[');
    var end := RFind(text, ']');
    if start != -1 && end != -1 then PySlice(text, start, end + 1)
    else StripFences(text)
  }

  /** The fallback: the stripped text with every "```json" and then every "```" deleted. */
  function StripFences(text: string): string
  {
    RemoveAll(RemoveAll(Strip(text), "```json"), "```")
  }

  /** Without a bracket pair the cleaned reply holds no code fence. */
  lemma CleanJsonNoFence(text: string)
    requires !('[' in text && ']' in text)
    ensures !Contains(CleanJson(text), Fence)
  {
    assert CleanJson(text) == RemoveAll(RemoveAll(Strip(text), "```json"), Fence);
    FencesGone(RemoveAll(Strip(text), "```json"));
  }

  /**
   * With both brackets present the result is Python's slice from the first
   * '[' to the last ']', inclusive.
   */
  lemma CleanJsonBrackets(text: string)
    requires '[' in text && ']' in text
    ensures 0 <= Find(text, '[') && 0 <= RFind(text, ']')
    ensures CleanJson(text) == PySlice(text, Find(text, '['), RFind(text, ']') + 1)
  {
    assert Find(text, '[') != -1 && RFind(text, ']') != -1;
  }

  /** When the first '[' precedes the last ']', the result is that bracketed span. */
  lemma CleanJsonSpan(text: string)
    requires 0 <= Find(text, '[') < RFind(text, ']')
    ensures var r, first, last := CleanJson(text), Find(text, '['), RFind(text, ']');
      && r == text[first..last + 1]
      && r[0] == '[' && r[|r| - 1] == ']'
  {
    var first, last := Find(text, '['), RFind(text, ']');
    assert CleanJson(text) == text[first..last + 1];
    SliceEnds(text, first, last + 1);
  }

  /** When the last ']' comes before the first '[', the result is empty. */
  lemma CleanJsonCrossed(text: string)
    requires 0 <= RFind(text, ']') < Find(text, '[')
    ensures CleanJson(text) == []
  {
  }

  lemma SliceEnds<T>(s: seq<T>, a: nat, b: nat)
    requires a < b <= |s|
    ensures s[a..b][0] == s[a] && s[a..b][b - a - 1] == s[b - 1]
  {
  }

  /** Text that opens with '[' and closes with ']' is its own cleaned form. */
  lemma CleanJsonBracketed(r: string)
    requires |r| > 0 && r[0] == '[' && r[|r| - 1] == ']'
    ensures CleanJson(r) == r
  {
    assert Find(r, '[') == 0;
    assert RFind(r, ']') == |r| - 1;
    assert r[0..|r|] == r;
  }

  lemma CleanJsonEmpty()
    ensures CleanJson([]) == []
  {
    assert Strip([]) == [];
  }

  /** Cleaning a cleaned reply that had both brackets changes nothing. */
  lemma CleanJsonIdempotent(text: string)
    requires '[' in text && ']' in text
    ensures CleanJson(CleanJson(text)) == CleanJson(text)
  {
    CleanJsonBrackets(text);
    if Find(text, '[') < RFind(text, ']') {
      CleanJsonSpan(text);
      CleanJsonBracketed(CleanJson(text));
    } else {
      assert Find(text, '[') != RFind(text, ']');
      CleanJsonCrossed(text);
      CleanJsonEmpty();
    }
  }

  /**
   * Without a bracket pair and without any code fence, cleaning is just
   * `strip()`.
   */
  lemma CleanJsonPlain(text: string)
    requires !('[' in text && ']' in text)
    requires !Contains(Strip(text), "```")
    ensures CleanJson(text) == Strip(text)
  {
    var s := Strip(text);
    assert CleanJson(text) == StripFences(text);
    if Contains(s, "```json") {
      var i :| 0 <= i <= |s| && OccursAt(s, "```json", i);
      assert s[i..i + 3] == s[i..i + 7][..3];
      assert OccursAt(s, "```", i);
    }
    RemoveAllAbsent(s, "```json");
    RemoveAllAbsent(s, "```");
  }

  // ---------------------------------------------------------------------
  // Keyword tests

  /** Truthiness of an optional string: present and not empty. */
  predicate Truthy(o: Option<string>)
  {
    o.Some? && o.value != ""
  }

  /** `any(keyword in text for keyword in keywords)`. */
  predicate AnyKeyword(text: string, keywords: seq<string>)
  {
    exists k :: 0 <= k < |keywords| && Contains(text, keywords[k])
  }

  /** The keywords that make `generate_test` ask for simple multiple-choice questions. */
  const AptitudeKeywords: seq<string> := [
    "aptitude", "mental ability", "math", "simplification", "percentage", "h.c.f", "l.c.m",
    "ratio", "proportion", "interest", "time and work", "area", "volume", "logical reasoning"
  ]

  /** The keywords that make `chat_support` add its aptitude hint. */
  const ChatKeywords: seq<string> := ["aptitude", "mental ability", "math"]

  /** `topic.lower().replace('_', ' ')`. */
  function Normalize(topic: string): string
  {
    UnderscoresToSpaces(Lower(topic))
  }

  /** `generate_test`'s aptitude test on the requested topic. */
  predicate IsAptitudeTopic(topic: Option<string>)
  {
    Truthy(topic) && AnyKeyword(Normalize(topic.value), AptitudeKeywords)
  }

  lemma LowerConcat(a: string, b: string)
    ensures Lower(a + b) == Lower(a) + Lower(b)
  {
    assert forall k :: 0 <= k < |a + b| ==> Lower(a + b)[k] == (Lower(a) + Lower(b))[k];
  }


  /** Underscores and spaces are the same to the aptitude test. */
  lemma NormalizeIgnoresUnderscores(t: string)
    ensures Normalize(UnderscoresToSpaces(t)) == Normalize(t)
  {
    assert forall k :: 0 <= k < |t| ==> Normalize(UnderscoresToSpaces(t))[k] == Normalize(t)[k];
  }

  lemma AptitudeIgnoresUnderscores(t: string)
    ensures IsAptitudeTopic(Some(UnderscoresToSpaces(t))) <==> IsAptitudeTopic(Some(t))
  {
    NormalizeIgnoresUnderscores(t);
  }

  /** `chat_support`'s hint test as written: lowered, but underscores kept. */
  predicate ChatHintAsWritten(topic: Option<string>)
  {
    Truthy(topic) && AnyKeyword(Lower(topic.value), ChatKeywords)
  }

  /** The hint test normalised like the aptitude test: lowered, underscores as spaces. */
  predicate ChatHint(topic: Option<string>)
  {
    Truthy(topic) && AnyKeyword(Normalize(topic.value), ChatKeywords)
  }

  /** The chat keywords open the aptitude list, so a hinted topic is an aptitude topic. */
  lemma ChatHintIsAptitude(topic: Option<string>)
    requires ChatHint(topic)
    ensures IsAptitudeTopic(topic)
  {
    var k :| 0 <= k < |ChatKeywords| && Contains(Normalize(topic.value), ChatKeywords[k]);
    assert ChatKeywords[k] == AptitudeKeywords[k];
  }

  /** A pattern without '_' found in the lowered text is still there once underscores become spaces. */
  lemma KeywordSurvivesNormalize(t: string, p: string)
    requires '_' !in p && Contains(Lower(t), p)
    ensures Contains(Normalize(t), p)
  {
    var l, n := Lower(t), Normalize(t);
    var i :| 0 <= i <= |l| && OccursAt(l, p, i);
    forall j | 0 <= j < |p|
      ensures n[i + j] == p[j]
    {
      assert l[i + j] == l[i..i + |p|][j];
    }
    assert n[i..i + |p|] == p;
    assert OccursAt(n, p, i);
  }

  /** The normalised hint fires whenever the written one does, and ignores underscores. */
  lemma ChatHintWidens(t: string)
    ensures ChatHintAsWritten(Some(t)) ==> ChatHint(Some(t))
    ensures ChatHint(Some(UnderscoresToSpaces(t))) <==> ChatHint(Some(t))
  {
    NormalizeIgnoresUnderscores(t);
    if ChatHintAsWritten(Some(t)) {
      var k :| 0 <= k < |ChatKeywords| && Contains(Lower(t), ChatKeywords[k]);
      assert '_' !in ChatKeywords[k] by {
        assert k == 0 || k == 1 || k == 2;
      }
      KeywordSurvivesNormalize(t, ChatKeywords[k]);
    }
  }

  /**
   * The chat receives a question's topic as the server tagged it, such as
   * "Math (from Unit_8)": a hinted topic keeps the hint whatever is written
   * around it.
   */
  lemma ChatHintExtends(a: string, t: string, b: string)
    requires ChatHintAsWritten(Some(t))
    ensures ChatHintAsWritten(Some(a + t + b))
  {
    var k :| 0 <= k < |ChatKeywords| && Contains(Lower(t), ChatKeywords[k]);
    LowerConcat(a + t, b);
    LowerConcat(a, t);
    ContainsExtend(Lower(t), ChatKeywords[k], Lower(a), Lower(b));
  }

  /** A character missing from the text rules out every keyword that has it. */
  lemma MissingChar(s: string, p: string, c: char)
    requires c in p && c !in s
    ensures !Contains(s, p)
  {
  }

  /** The topic name "mental_ability" is already lower case and normalises to "mental ability". */
  lemma MentalAbilityNormalized()
    ensures Lower("mental_ability") == "mental_ability"
    ensures Normalize("mental_ability") == "mental ability"
  {
    LowerKeepsLowercase("mental_ability");
    assert UnderscoresToSpaces("mental_ability") == "mental ability";
  }

  /** Text without 'p', 'h' or a space holds none of the chat keywords. */
  lemma NoChatKeyword(s: string)
    requires 'p' !in s && 'h' !in s && ' ' !in s
    ensures !AnyKeyword(s, ChatKeywords)
  {
    forall k | 0 <= k < |ChatKeywords|
      ensures !Contains(s, ChatKeywords[k])
    {
      if k == 0 {
        MissingChar(s, ChatKeywords[k], 'p');
      } else if k == 1 {
        MissingChar(s, ChatKeywords[k], ' ');
      } else {
        MissingChar(s, ChatKeywords[k], 'h');
      }
    }
  }

  /**
   * The topic "mental_ability" (a topic file name) is an aptitude topic for
   * `generate_test`, yet gets no hint from `chat_support` as written.
   */
  lemma ChatHintMissesUnderscoredTopic()
    ensures IsAptitudeTopic(Some("mental_ability"))
    ensures !ChatHintAsWritten(Some("mental_ability"))
    ensures ChatHint(Some("mental_ability"))
  {
    MentalAbilityNormalized();
    NoChatKeyword("mental_ability");
    assert OccursAt("mental ability", ChatKeywords[1], 0);
    assert Contains(Normalize("mental_ability"), ChatKeywords[1]);
    assert AptitudeKeywords[1] == ChatKeywords[1];
  }

  // ---------------------------------------------------------------------
  // The 70/30 split

  /** `math.ceil(n * 0.7)`, computed exactly: ceil(7n / 10). */
  function ContextShare(n: int): (c: int)
    ensures 10 * c >= 7 * n && 10 * (c - 1) < 7 * n
  {
    (7 * n + 9) / 10
  }

  /**
   * The two requests of a topic-wise test ask for `n` questions between
   * them, the context-based one for at least as many as the other.
   */
  lemma SplitSums(n: int)
    requires n >= 0
    ensures ContextShare(n) + (n - ContextShare(n)) == n
    ensures ContextShare(n) >= n - ContextShare(n) >= 0
  {
  }

  /** Ten questions split seven from the source text and three from general knowledge. */
  lemma SplitOfTen()
    ensures ContextShare(10) == 7 && 10 - ContextShare(10) == 3
  {
  }

  // ---------------------------------------------------------------------
  // generate_questions_for_topic

  /**
   * A parsed question: a JSON object (keys to string values, `None` for
   * anything else) or any other JSON value.
   */
  datatype Item = Object(fields: map<string, Option<string>>) | NonObject

  /** The three prompt templates. */
  datatype PromptKind = StandardPrompt | SimpleMcqPrompt | FallbackPrompt

  /** What one generation call asks of the model. */
  datatype Prompt = Prompt(kind: PromptKind, count: int, topic: Option<string>, withContext: bool)

  /**
   * The model, as seen by the server: the reply to a prompt after
   * `clean_gemini_json_response` and `json.loads` together, so an attempt
   * never applies `CleanJson` itself. `None` when the call raised, when the
   * cleaned text was not valid JSON, or when it parsed to something other
   * than a list (the `isinstance` test of main.py:152).
   */
  type Model = Prompt -> Option<seq<Item>>

  /** What one call of `generate_questions_for_topic` is given. */
  datatype Details = Details(count: int, topic: Option<string>, withContext: bool)

  /**
   * The in-place tagging `q['topic'] = topic`: every object gains the topic;
   * any other value raises, which abandons the attempt.
   */
  function Tagged(items: seq<Item>, topic: Option<string>): (r: Option<seq<Item>>)
    ensures r.Some? <==> forall k :: 0 <= k < |items| ==> items[k].Object?
    ensures r.Some? ==> |r.value| == |items|
    ensures r.Some? ==> forall k :: 0 <= k < |items| ==> r.value[k] == Object(items[k].fields["topic" := topic])
  {
    if |items| == 0 then Some([])
    else
      var prefix := Tagged(items[..|items| - 1], topic);
      var last := items[|items| - 1];
      if prefix.Some? && last.Object? then Some(prefix.value + [Object(last.fields["topic" := topic])])
      else None
  }

  /** The tagging loop. */
  method TagQuestions(items: seq<Item>, topic: Option<string>) returns (r: Option<seq<Item>>)
    ensures r == Tagged(items, topic)
  {
    var tagged: seq<Item> := [];
    var i := 0;
    while i < |items|
      invariant 0 <= i <= |items|
      invariant Tagged(items[..i], topic) == Some(tagged)
    {
      assert items[..i + 1][..i] == items[..i];
      var q := items[i];
      if q.NonObject? {
        assert Tagged(items[..i + 1], topic) == None;
        TaggedFailsOnward(items, topic, i + 1);
        return None;
      }
      tagged := tagged + [Object(q.fields["topic" := topic])];
      i := i + 1;
    }
    assert items[..i] == items;
    return Some(tagged);
  }

  lemma TaggedFailsOnward(items: seq<Item>, topic: Option<string>, i: nat)
    requires i <= |items| && Tagged(items[..i], topic) == None
    ensures Tagged(items, topic) == None
  {
    var k :| 0 <= k < i && !items[..i][k].Object?;
    assert !items[k].Object?;
  }

  /** The prompt of the first attempt. */
  function FirstKind(forceSimple: bool): PromptKind
  {
    if forceSimple then SimpleMcqPrompt else StandardPrompt
  }

  /** One attempt: accepted only when the reply is a non-empty list that tags cleanly. */
  function Attempt(d: Details, kind: PromptKind, model: Model): Option<seq<Item>>
  {
    var reply := model(Prompt(kind, d.count, d.topic, d.withContext));
    if reply.Some? && |reply.value| > 0 then Tagged(reply.value, d.topic) else None
  }

  /**
   * The questions `generate_questions_for_topic` returns: none for a count
   * that is not positive; otherwise the first accepted attempt's, of at most
   * two; none when both fail. Every returned question carries the topic.
   */
  function QuestionsFor(d: Details, forceSimple: bool, model: Model): (qs: seq<Item>)
    ensures d.count <= 0 ==> qs == []
    ensures qs == [] <==> (d.count <= 0
      || (Attempt(d, FirstKind(forceSimple), model).None? && Attempt(d, FallbackPrompt, model).None?))
    ensures forall k :: 0 <= k < |qs| ==> qs[k].Object? && "topic" in qs[k].fields && qs[k].fields["topic"] == d.topic
  {
    if d.count <= 0 then []
    else
      var first := Attempt(d, FirstKind(forceSimple), model);
      if first.Some? then first.value
      else
        var second := Attempt(d, FallbackPrompt, model);
        if second.Some? then second.value else []
  }

  /** The attempt loop of `generate_questions_for_topic`; `calls` counts the model calls. */
  method GenerateQuestionsForTopic(d: Details, forceSimple: bool, model: Model) returns (qs: seq<Item>, calls: nat)
    ensures qs == QuestionsFor(d, forceSimple, model)
    ensures calls <= 2
    ensures d.count <= 0 ==> calls == 0
    ensures d.count > 0 ==> calls == if Attempt(d, FirstKind(forceSimple), model).Some? then 1 else 2
  {
    calls := 0;
    if d.count <= 0 {
      return [], calls;
    }
    var attempt := 0;
    while attempt < 2
      invariant 0 <= attempt <= 2 && calls == attempt
      invariant attempt >= 1 ==> Attempt(d, FirstKind(forceSimple), model).None?
      invariant attempt == 2 ==> Attempt(d, FallbackPrompt, model).None?
    {
      var kind := if attempt == 0 then FirstKind(forceSimple) else FallbackPrompt;
      var reply := model(Prompt(kind, d.count, d.topic, d.withContext));
      calls := calls + 1;
      if reply.Some? && |reply.value| > 0 {
        var tagged := TagQuestions(reply.value, d.topic);
        if tagged.Some? {
          return tagged.value, calls;
        }
      }
      attempt := attempt + 1;
    }
    return [], calls;
  }

  // ---------------------------------------------------------------------
  // generate_test

  /** The fields of a test request; `None` is a missing field. */
  datatype TestRequest = TestRequest(
    subject: Option<string>,
    unit: Option<string>,
    topic: Option<string>,
    numQuestions: Option<int>,
    testType: Option<string>)

  datatype TestResponse = Questions(items: seq<Item>) | TestError(status: nat)

  /** `SUBJECT_MAPPING`: the subjects that have a source folder. */
  predicate HasSourceFolder(subject: Option<string>)
  {
    subject == Some("General Tamil") || subject == Some("General Studies")
  }

  /**
   * The source text is used when the subject has a folder, unit and topic are
   * given and the topic's file could be read (`readable`, the file system's
   * answer).
   */
  predicate ContextAvailable(req: TestRequest, readable: bool)
  {
    HasSourceFolder(req.subject) && Truthy(req.unit) && Truthy(req.topic) && readable
  }

  /** The topic as shown to the model: "topic (from unit)" when the source text is used. */
  function TopicDisplay(req: TestRequest, readable: bool): Option<string>
  {
    if ContextAvailable(req, readable) then Some(req.topic.value + " (from " + req.unit.value + ")")
    else req.topic
  }

  function RequestedCount(req: TestRequest): int
  {
    if req.numQuestions.Some? then req.numQuestions.value else 10
  }

  /** Whether the 70/30 split applies: a topic-wise test (the default) with its source text. */
  predicate Splits(req: TestRequest, readable: bool)
  {
    (req.testType.None? || req.testType == Some("topic-wise")) && ContextAvailable(req, readable)
  }

  /**
   * The questions `generate_test` gathers before the shuffle: a topic-wise
   * test (the default) with its source text asks ceil(0.7 n) questions from
   * the text and the rest from general knowledge; any other test asks all
   * `n` in one call.
   */
  function TestQuestions(req: TestRequest, readable: bool, model: Model): seq<Item>
  {
    var n := RequestedCount(req);
    var apt := IsAptitudeTopic(req.topic);
    if Splits(req, readable) then
      QuestionsFor(Details(ContextShare(n), TopicDisplay(req, readable), true), apt, model)
      + QuestionsFor(Details(n - ContextShare(n), req.topic, false), apt, model)
    else QuestionsFor(Details(n, TopicDisplay(req, readable), ContextAvailable(req, readable)), apt, model)
  }

  /**
   * The split request: ceil(0.7 n) questions under the displayed topic with
   * the source text, then the rest under the bare topic without it.
   */
  method GatherSplit(req: TestRequest, readable: bool, model: Model) returns (all: seq<Item>)
    requires Splits(req, readable)
    ensures all == TestQuestions(req, readable, model)
  {
    var n := RequestedCount(req);
    var aptitude := IsAptitudeTopic(req.topic);
    var fromContext := ContextShare(n);
    var fromGeneral := n - fromContext;
    var a, _ := GenerateQuestionsForTopic(Details(fromContext, TopicDisplay(req, readable), true), aptitude, model);
    var b, _ := GenerateQuestionsForTopic(Details(fromGeneral, req.topic, false), aptitude, model);
    all := a + b;
  }

  /** The single request for all `n` questions. */
  method GatherWhole(req: TestRequest, readable: bool, model: Model) returns (all: seq<Item>)
    requires !Splits(req, readable)
    ensures all == TestQuestions(req, readable, model)
  {
    var n := RequestedCount(req);
    var aptitude := IsAptitudeTopic(req.topic);
    var calls;
    all, calls := GenerateQuestionsForTopic(Details(n, TopicDisplay(req, readable), ContextAvailable(req, readable)), aptitude, model);
  }

  /**
   * `generate_test` before the shuffle: a server without a model answers
   * 500; otherwise the gathered questions, or a 500 error when there are none.
   */
  method GenerateTest(configured: bool, req: TestRequest, readable: bool, model: Model) returns (resp: TestResponse)
    ensures !configured ==> resp == TestError(500)
    ensures configured ==>
      resp == if TestQuestions(req, readable, model) == [] then TestError(500) else Questions(TestQuestions(req, readable, model))
    ensures resp.Questions? ==> |resp.items| > 0
  {
    if !configured {
      return TestError(500);
    }
    var testType := if req.testType.Some? then req.testType.value else "topic-wise";
    var all: seq<Item>;
    if testType == "topic-wise" && ContextAvailable(req, readable) {
      all := GatherSplit(req, readable, model);
    } else {
      all := GatherWhole(req, readable, model);
    }
    if |all| == 0 {
      return TestError(500);
    }
    return Questions(all);
  }

  /**
   * Every question of a test is tagged with the topic it was asked under:
   * the displayed topic, or the bare topic for the general-knowledge share.
   */
  lemma TestQuestionsTagged(req: TestRequest, readable: bool, model: Model)
    ensures var all := TestQuestions(req, readable, model);
      forall k :: 0 <= k < |all| ==>
        (all[k].Object? && "topic" in all[k].fields
         && (all[k].fields["topic"] == TopicDisplay(req, readable) || all[k].fields["topic"] == req.topic))
  {
  }

  // ---------------------------------------------------------------------
  // chat_support

  /** The fields of a chat request; `None` is a missing field. */
  datatype ChatRequest = ChatRequest(userQuery: Option<string>, questionText: Option<string>, topic: Option<string>)

  datatype ChatReply = ChatError(status: nat) | AskTutor(topic: string, withHint: bool)

  /**
   * `chat_support` as written: 500 without a model, 400 when the query or
   * the question text is missing or empty, otherwise a prompt for the tutor
   * with the aptitude hint when the lowered topic (default "General") holds
   * a chat keyword.
   */
  function ChatSupport(configured: bool, req: ChatRequest): (r: ChatReply)
    ensures !configured ==> r == ChatError(500)
    ensures configured ==> (r == ChatError(400) <==> !Truthy(req.userQuery) || !Truthy(req.questionText))
    ensures configured && Truthy(req.userQuery) && Truthy(req.questionText) ==> r.AskTutor?
    ensures r.AskTutor? ==> r.topic == (if req.topic.Some? then req.topic.value else "General")
    ensures r.AskTutor? ==> (r.withHint <==> ChatHintAsWritten(Some(r.topic)))
  {
    if !configured then ChatError(500)
    else if !Truthy(req.userQuery) || !Truthy(req.questionText) then ChatError(400)
    else
      var topic := if req.topic.Some? then req.topic.value else "General";
      AskTutor(topic, ChatHintAsWritten(Some(topic)))
  }

  /**
   * `chat_support` with the hint test normalised like `generate_test`'s
   * aptitude test: every hinted topic is then an aptitude topic.
   */
  function ChatSupportIntended(configured: bool, req: ChatRequest): (r: ChatReply)
    ensures r.AskTutor? ==> (r.withHint <==> ChatHint(Some(r.topic)))
    ensures r.AskTutor? && r.withHint ==> IsAptitudeTopic(Some(r.topic))
    ensures ChatSupport(configured, req).AskTutor? <==> r.AskTutor?
    ensures !r.AskTutor? ==> r == ChatSupport(configured, req)
    ensures r.AskTutor? ==> r.topic == ChatSupport(configured, req).topic
    ensures r.AskTutor? && ChatSupport(configured, req).withHint ==> r.withHint
  {
    if !configured then ChatError(500)
    else if !Truthy(req.userQuery) || !Truthy(req.questionText) then ChatError(400)
    else
      var topic := if req.topic.Some? then req.topic.value else "General";
      ChatHintWidens(topic);
      if ChatHint(Some(topic)) then ChatHintIsAptitude(Some(topic)); AskTutor(topic, true)
      else AskTutor(topic, false)
  }

  /**
   * A question tagged "mental_ability" gets no hint from the chat as written,
   * and does get it from the normalised test.
   */
  lemma ChatMissesMentalAbility(query: string, question: string)
    requires |query| > 0 && |question| > 0
    ensures var req := ChatRequest(Some(query), Some(question), Some("mental_ability"));
      && ChatSupport(true, req) == AskTutor("mental_ability", false)
      && ChatSupportIntended(true, req) == AskTutor("mental_ability", true)
  {
    ChatHintMissesUnderscoredTopic();
  }

  // ---------------------------------------------------------------------
  // get_structure's topic list

  /** `[f.replace('.txt', '') for f in files if f.endswith('.txt')]`. */
  function TxtStems(files: seq<string>): seq<string>
  {
    if |files| == 0 then []
    else
      var rest := TxtStems(files[..|files| - 1]);
      var f := files[|files| - 1];
      if EndsWith(f, ".txt") then rest + [RemoveAll(f, ".txt")] else rest
  }

  /** The sorted topic names of a unit folder. */
  function TopicNames(files: seq<string>): (names: seq<string>)
    ensures Sorted(names)
    ensures multiset(names) == multiset(TxtStems(files))
  {
    SortSorted(TxtStems(files));
    Sort(TxtStems(files))
  }

  /** Number of `.txt` files among `files`. */
  function TxtCount(files: seq<string>): nat
  {
    if |files| == 0 then 0
    else TxtCount(files[..|files| - 1]) + (if EndsWith(files[|files| - 1], ".txt") then 1 else 0)
  }

  /**
   * One topic per `.txt` file: every `.txt` file's stem is listed, and every
   * listed name is the stem of such a file.
   */
  lemma {:induction false} TopicNamesFromTxtFiles(files: seq<string>)
    ensures |TopicNames(files)| == TxtCount(files)
    ensures forall k :: 0 <= k < |files| && EndsWith(files[k], ".txt") ==> RemoveAll(files[k], ".txt") in TopicNames(files)
    ensures forall name :: name in TopicNames(files) ==>
      exists k :: 0 <= k < |files| && EndsWith(files[k], ".txt") && name == RemoveAll(files[k], ".txt")
  {
    StemsFromTxtFiles(files);
    var names := TopicNames(files);
    forall k | 0 <= k < |files| && EndsWith(files[k], ".txt")
      ensures RemoveAll(files[k], ".txt") in names
    {
      assert RemoveAll(files[k], ".txt") in multiset(TxtStems(files));
    }
    forall name | name in names
      ensures exists k :: 0 <= k < |files| && EndsWith(files[k], ".txt") && name == RemoveAll(files[k], ".txt")
    {
      assert name in multiset(names);
      assert name in TxtStems(files);
    }
  }

  /** The comprehension keeps one stem per `.txt` file and nothing else. */
  lemma {:induction false} StemsFromTxtFiles(files: seq<string>)
    ensures |TxtStems(files)| == TxtCount(files)
    ensures forall k :: 0 <= k < |files| && EndsWith(files[k], ".txt") ==> RemoveAll(files[k], ".txt") in TxtStems(files)
    ensures forall name :: name in TxtStems(files) ==>
      exists k :: 0 <= k < |files| && EndsWith(files[k], ".txt") && name == RemoveAll(files[k], ".txt")
  {
    if |files| > 0 {
      var prefix := files[..|files| - 1];
      StemsFromTxtFiles(prefix);
      forall k | 0 <= k < |files| && EndsWith(files[k], ".txt")
        ensures RemoveAll(files[k], ".txt") in TxtStems(files)
      {
        if k < |prefix| {
          assert files[k] == prefix[k];
        }
      }
      forall name | name in TxtStems(files)
        ensures exists k :: 0 <= k < |files| && EndsWith(files[k], ".txt") && name == RemoveAll(files[k], ".txt")
      {
        if name in TxtStems(prefix) {
          var k :| 0 <= k < |prefix| && EndsWith(prefix[k], ".txt") && name == RemoveAll(prefix[k], ".txt");
          assert files[k] == prefix[k];
        } else {
          assert name == RemoveAll(files[|files| - 1], ".txt");
        }
      }
    }
  }

  /** A file whose only ".txt" is its extension gives its base name. */
  lemma {:induction false} StemOfPlainName(base: string)
    requires !Contains(base, ".txt")
    ensures EndsWith(base + ".txt", ".txt")
    ensures RemoveAll(base + ".txt", ".txt") == base
    decreases |base|
  {
    var p := ".txt";
    var w := base + p;
    assert w[|w| - |p|..] == p;
    if |base| == 0 {
      assert w == p;
      assert RemoveAll(w, p) == RemoveAll(w[|p|..], p);
      assert w[|p|..] == [];
    } else {
      NoTxtAtStart(base);
      if Contains(base[1..], p) {
        var i :| 0 <= i <= |base[1..]| && OccursAt(base[1..], p, i);
        OccursAtShift(base, p, i);
        assert false;
      }
      StemOfPlainName(base[1..]);
      assert w[1..] == base[1..] + p;
      assert base == [base[0]] + base[1..];
    }
  }

  /** A non-empty name without ".txt" does not start a ".txt" once the extension is added. */
  lemma NoTxtAtStart(base: string)
    requires |base| > 0 && !Contains(base, ".txt")
    ensures (base + ".txt")[..4] != ".txt"
  {
    var p := ".txt";
    var w := base + p;
    if |base| >= |p| {
      assert w[..|p|] == base[..|p|];
      assert !OccursAt(base, p, 0);
    } else {
      assert w[..|p|][|base|] == '.';
      assert p[|base|] != '.';
    }
  }

  /** Every ".txt" goes, not only the extension: "a.txt.b.txt" lists as topic "a.b". */
  lemma InnerTxtRemoved()
    ensures EndsWith("a.txt.b.txt", ".txt")
    ensures TxtStems(["a.txt.b.txt"]) == ["a.b"]
  {
    var w := "a.txt.b.txt";
    assert w[..4][0] == 'a';
    assert w[1..][..4] == w[1..5] == ".txt";
    assert w[5..][..4][1] == 'b';
    assert w[6..][..4][0] == 'b';
    assert w[7..][..4] == ".txt";
    assert RemoveAll(w[11..], ".txt") == [];
    assert RemoveAll(w[7..], ".txt") == [];
    assert w[6..][1..] == w[7..] && w[5..][1..] == w[6..] && w[1..][4..] == w[5..] && w[7..][4..] == w[11..];
    assert RemoveAll(w[6..], ".txt") == "b";
    assert RemoveAll(w[5..], ".txt") == ".b";
    assert RemoveAll(w[1..], ".txt") == ".b";
    assert w[1..] == w[..][1..];
    assert RemoveAll(w, ".txt") == "a.b";
    assert ["a.txt.b.txt"][..0] == [];
  }
}

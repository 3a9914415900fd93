/** The debater agent (utils/candidate.py): its prompt configuration, its chat
    history and mandated actions, and the operations that parse, complete and
    render its turns. */
module Candidates {
  import opened Wrappers
  import opened Text
  import opened Backend
  import opened Protocol
  import opened Generation

  /** The prompt texts of one language: the system instruction and the two
      action-guide tables (utils/prompts.py). Their wording is not modelled. */
  datatype PromptSet = PromptSet(instruction: string, actionPrompts: map<string, string>, writingPrompts: map<string, string>)

  datatype PromptCatalog = PromptCatalog(en: PromptSet, zh: PromptSet)

  function PromptsFor(catalog: PromptCatalog, lang: Language): PromptSet
  {
    if lang == En then catalog.en else catalog.zh
  }

  /** The three action guides a debate hands out, in English action names. */
  const RespondGuide: seq<string> := ["<respond>"]
  const CrossGuide: seq<string> := ["<criticize>", "<raise>"]
  const RebuttalGuide: seq<string> := ["<respond>", "<criticize>", "<raise>"]

  /** `'_'.join(action_guide)`: the key of a guide's prompt. */
  function GuideKey(guide: seq<string>): string
  {
    JoinWith(guide, "_")
  }

  predicate HasGuides(prompts: map<string, string>)
  {
    GuideKey(RespondGuide) in prompts && GuideKey(CrossGuide) in prompts && GuideKey(RebuttalGuide) in prompts
  }

  /** Every table of the catalog has a prompt for each of the three guides. */
  predicate WellFormedCatalog(catalog: PromptCatalog)
  {
    && HasGuides(catalog.en.actionPrompts) && HasGuides(catalog.en.writingPrompts)
    && HasGuides(catalog.zh.actionPrompts) && HasGuides(catalog.zh.writingPrompts)
  }

  /** `need_extra_space_cats` and `need_extra_space_cats_zh`. */
  function ExtraSpaceDomains(lang: Language): seq<string>
  {
    if lang == En then ["writing", "roleplay", "coding", "humanities/social science knowledge"] else ["编程"]
  }

  /** The action-guide table a candidate uses: the writing table for domains
      that need extra space, the ordinary one otherwise. */
  function GuidePrompts(prompts: PromptSet, lang: Language, domain: string): map<string, string>
  {
    if domain in ExtraSpaceDomains(lang) then prompts.writingPrompts else prompts.actionPrompts
  }

  function InitialInputLabel(lang: Language): string
  {
    if lang == En then "\nInitial user input: " else "\n初始用户输入: "
  }

  function OpponentLabel(lang: Language): string
  {
    if lang == En then "\nOpponent's Response:\n" else "\n对手的回答:\n"
  }

  /** The user message that asks for the missing actions again. */
  function RetryPrompt(lang: Language, undone: seq<string>): string
  {
    if lang == En then "Only generate " + JoinWith(undone, ", ") + "! ENCLOSE THEM IN TAGS!"
    else "只生成" + JoinWith(undone, ", ") + "! 用标签括起来!"
  }

  /** What the backend returns when it gave up. */
  const ErrorText: string := "$ERROR$"

  /** The exception `get_response` raises on that text. */
  const GenerationFailed: Exception := RuntimeError("Error in generating response")

  /** `[a for a in actions if a not in [p[0] for p in parsed]]`. */
  function Undone(actions: seq<string>, parsed: seq<Fragment>): (r: seq<string>)
    ensures forall a :: a in r <==> a in actions && !Has(parsed, a)
    ensures |r| <= |actions|
  {
    if actions == [] then []
    else (if Has(parsed, actions[0]) then [] else [actions[0]]) + Undone(actions[1..], parsed)
  }

  /** `get_response`'s result: the full text, the opponent-visible text and the
      parsed turn. */
  datatype Response = Response(original: string, noThought: string, parsed: seq<Fragment>)

  /** `sum(count_tokens(t) for t in texts)`. */
  function TokensOf(countTokens: string -> nat, texts: seq<string>): nat
  {
    if texts == [] then 0 else TokensOf(countTokens, texts[..|texts| - 1]) + countTokens(texts[|texts| - 1])
  }

  /** The content of the assistant entry after the first text and the retries
      in `texts`: each retry adds the whole `original` so far again. */
  function TranscriptAfter(texts: seq<string>): string
    requires texts != []
  {
    if |texts| == 1 then texts[0] else TranscriptAfter(texts[..|texts| - 1]) + Concat(texts)
  }

  /** The parsed turn after merging the parses of the retries into the parse
      of the first text, in order. */
  function Combined(lang: Language, parses: seq<seq<Fragment>>): seq<Fragment>
    requires parses != []
  {
    if |parses| == 1 then parses[0] else Merge(lang, Combined(lang, parses[..|parses| - 1]), parses[|parses| - 1])
  }

  lemma CombinedSnoc(lang: Language, parses: seq<seq<Fragment>>, p: seq<Fragment>)
    requires parses != []
    ensures Combined(lang, parses + [p]) == Merge(lang, Combined(lang, parses), p)
  {
    assert (parses + [p])[..|parses|] == parses;
  }

  /** Merging into a turn with at most one `a` fragment keeps it so, for an
      `a` other than think. */
  lemma {:induction false} CombinedKeepsAtMostOnce(lang: Language, parses: seq<seq<Fragment>>, a: string)
    requires parses != [] && a != Tag(lang, Think) && Count(parses[0], a) <= 1
    ensures Count(Combined(lang, parses), a) <= 1
    decreases |parses|
  {
    if |parses| > 1 {
      var n := |parses| - 1;
      CombinedKeepsAtMostOnce(lang, parses[..n], a);
      MergeKeepsAtMostOnce(lang, Combined(lang, parses[..n]), parses[n], a);
    }
  }

  /** Parses whose actions all lie in `actions` combine into one whose
      actions do. */
  lemma {:induction false} CombinedKeepsActions(lang: Language, parses: seq<seq<Fragment>>, actions: seq<string>)
    requires parses != [] && forall i :: 0 <= i < |parses| ==> ActionsIn(parses[i], actions)
    ensures ActionsIn(Combined(lang, parses), actions)
    decreases |parses|
  {
    if |parses| > 1 {
      var n := |parses| - 1;
      assert forall i :: 0 <= i < n ==> parses[..n][i] == parses[i];
      CombinedKeepsActions(lang, parses[..n], actions);
      MergeKeepsActions(lang, Combined(lang, parses[..n]), parses[n], actions);
    }
  }

  lemma TokensSnoc(countTokens: string -> nat, texts: seq<string>, x: string)
    ensures TokensOf(countTokens, texts + [x]) == TokensOf(countTokens, texts) + countTokens(x)
  {
    assert (texts + [x])[..|texts|] == texts;
  }

  lemma TranscriptSnoc(texts: seq<string>, x: string)
    requires texts != []
    ensures TranscriptAfter(texts + [x]) == TranscriptAfter(texts) + Concat(texts + [x])
  {
    assert (texts + [x])[..|texts|] == texts;
  }

  lemma SnocTwice(h: seq<Message>, a: Message, b: Message)
    ensures (h + [a]) + [b] == h + [a, b]
  {
  }

  lemma LogStep(log: seq<Request>, calls: seq<Request>, q: Request)
    ensures (log + calls) + [q] == log + (calls + [q])
  {
  }

  lemma ReplaceLast(h: seq<Message>, m: Message, m': Message)
    ensures (h + [m])[|h| := m'] == h + [m']
  {
  }

  class Candidate {
    const modelName: string
    const language: Language
    /** `str.isalpha` on one character. */
    const isAlpha: char -> bool
    /** `count_tokens`. */
    const countTokens: string -> nat
    /** The backend serving `modelName`. */
    const backend: Oracle
    const instruction: string
    /** `self.action_prompts` after the domain choice. */
    const actionPrompts: map<string, string>
    var chatHistory: seq<Message>
    var actions: seq<string>

    /** `Candidate(model_name, initial_question, language)`. */
    constructor (modelName: string, question: Question, language: Language, catalog: PromptCatalog,
                 isAlpha: char -> bool, countTokens: string -> nat, backend: Oracle)
      requires GuideKey(RespondGuide) in GuidePrompts(PromptsFor(catalog, language), language, question.domain)
      ensures this.modelName == modelName && this.language == language
      ensures this.isAlpha == isAlpha && this.countTokens == countTokens && this.backend == backend
      ensures instruction == PromptsFor(catalog, language).instruction
      ensures actionPrompts == GuidePrompts(PromptsFor(catalog, language), language, question.domain)
      ensures chatHistory == [Message(System, instruction),
                              Message(User, actionPrompts["<respond>"] + InitialInputLabel(language) + question.question)]
      ensures actions == [Tag(language, Respond)]
    {
      this.modelName := modelName;
      this.language := language;
      this.isAlpha := isAlpha;
      this.countTokens := countTokens;
      this.backend := backend;
      var prompts := PromptsFor(catalog, language);
      instruction := prompts.instruction;
      actionPrompts := GuidePrompts(prompts, language, question.domain);
      var table := GuidePrompts(prompts, language, question.domain);
      chatHistory := [Message(System, prompts.instruction),
                      Message(User, table["<respond>"] + InitialInputLabel(language) + question.question)];
      actions := ActionListInLanguage(["<respond>"], language);
    }

    /** `append_action_to_parsed_list`, with the search for the last occurrence
        written as the source's reverse loop. */
    method AppendActionToParsedList(parsed: seq<Fragment>, action: string, content: string) returns (r: seq<Fragment>)
      ensures r == AppendAction(language, parsed, action, content)
    {
      if !Has(parsed, action) || action == Tag(language, Think) {
        r := parsed + [Fragment(action, content)];
      } else {
        var j := |parsed| - 1;
        while parsed[j].action != action
          invariant 0 <= LastIndex(parsed, action) <= j < |parsed|
          decreases j
        {
          j := j - 1;
        }
        r := parsed[j := Fragment(action, content)];
      }
    }

    /** `parse_response`: one pass over the split pieces with a `skip_next`
        flag. */
    method ParseResponse(response: string) returns (parsed: seq<Fragment>)
      ensures parsed == Parse(language, isAlpha, response)
    {
      var splitted := Split(language, response);
      parsed := [];
      var skipNext := false;
      for i := 0 to |splitted|
        invariant !skipNext ==> ParsePieces(language, isAlpha, splitted[i..], parsed) == Parse(language, isAlpha, response)
        invariant skipNext ==> i < |splitted| && ParsePieces(language, isAlpha, splitted[i + 1..], parsed) == Parse(language, isAlpha, response)
      {
        if skipNext {
          skipNext := false;
        } else {
          var s := splitted[i];
          assert splitted[i..][1..] == splitted[i + 1..];
          if s != "\n" && HasAlpha(isAlpha, s) {
            if s in OpenTags(language) {
              assert splitted[i..][2..] == splitted[i + 2..];
              parsed := AppendActionToParsedList(parsed, s, splitted[i + 1]);
              skipNext := true;
            } else if s !in CloseTags(language) {
              parsed := AppendActionToParsedList(parsed, Tag(language, Respond), s);
            }
          }
        }
      }
    }

    /** `for p in new_response_parsed: response['parsed'] = append_action_to_parsed_list(...)`. */
    method MergeParsed(parsed: seq<Fragment>, incoming: seq<Fragment>) returns (r: seq<Fragment>)
      ensures r == Merge(language, parsed, incoming)
    {
      r := parsed;
      for i := 0 to |incoming|
        invariant Merge(language, r, incoming[i..]) == Merge(language, parsed, incoming)
      {
        assert incoming[i..][1..] == incoming[i + 1..];
        r := AppendActionToParsedList(r, incoming[i].action, incoming[i].content);
      }
    }

    /** `no_thought_content`. */
    method NoThoughtContent(parsed: seq<Fragment>) returns (s: string)
      ensures s == NoThought(language, parsed)
    {
      s := "";
      for i := 0 to |parsed|
        invariant s == Render(VisibleOnly(language, parsed[..i]))
      {
        var p := parsed[i];
        assert parsed[..i + 1] == parsed[..i] + [p];
        VisibleOnlySnoc(language, parsed[..i], p);
        if p.action in [Tag(language, Respond), Tag(language, Raise)] {
          RenderSnoc(VisibleOnly(language, parsed[..i]), p);
          s := s + (p.action + p.content + Replace(p.action, "<", "</") + "\n");
        } else {
          assert VisibleOnly(language, parsed[..i]) + [] == VisibleOnly(language, parsed[..i]);
        }
      }
      assert parsed[..|parsed|] == parsed;
    }

    /** `reformat_parsed` (and `reconstruct_response`, which has the same body). */
    method ReformatParsed(parsed: seq<Fragment>) returns (s: string)
      ensures s == Render(parsed)
    {
      s := "";
      for i := 0 to |parsed|
        invariant s == Render(parsed[..i])
      {
        var p := parsed[i];
        assert parsed[..i + 1] == parsed[..i] + [p];
        RenderSnoc(parsed[..i], p);
        s := s + (p.action + p.content + Replace(p.action, "<", "</") + "\n");
      }
      assert parsed[..|parsed|] == parsed;
    }

    /** `count_tokens(s)`. */
    function TokensIn(s: string): nat
    {
      countTokens(s)
    }

    /** `parses` are the parses of `texts`, one by one. */
    predicate ParsedEach(texts: seq<string>, parses: seq<seq<Fragment>>)
    {
      && |parses| == |texts|
      && forall i {:trigger Parse(language, isAlpha, texts[i])} :: 0 <= i < |texts| ==> parses[i] == Parse(language, isAlpha, texts[i])
    }

    /** The condition under which `get_response` asks again after `texts`
        (parsed as `parses`): a mandated action is missing, fewer than two
        retries were made, and more than ten tokens of the budget remain. */
    predicate Continues(mandated: seq<string>, maxTokens: int, texts: seq<string>, parses: seq<seq<Fragment>>)
      requires |parses| == |texts| && texts != []
    {
      Undone(mandated, Combined(language, parses)) != [] && |texts| - 1 < 2 && TokensOf(countTokens, texts) + 10 < maxTokens
    }

    /** The backend call of the retry that follows `texts`: the history with
        the grown assistant entry and a request for the missing actions, under
        the budget left. */
    function RetryRequest(history: seq<Message>, mandated: seq<string>, maxTokens: int, texts: seq<string>, parses: seq<seq<Fragment>>): Request
      requires |parses| == |texts| && texts != []
    {
      Request(history + [Message(Assistant, TranscriptAfter(texts)),
                         Message(User, RetryPrompt(language, Undone(mandated, Combined(language, parses))))],
              Some(maxTokens - TokensOf(countTokens, texts)))
    }

    /** The backend calls of the first `n` retries of `get_response`, one
        after each prefix `texts[..j]` of the accepted texts. */
    function Retries(history: seq<Message>, mandated: seq<string>, maxTokens: int, texts: seq<string>, parses: seq<seq<Fragment>>, n: nat): (r: seq<Request>)
      requires |parses| == |texts| && n <= |texts|
      ensures |r| == n
    {
      if n == 0 then []
      else Retries(history, mandated, maxTokens, texts, parses, n - 1) + [RetryRequest(history, mandated, maxTokens, texts[..n], parses[..n])]
    }

    /** Every retry in `texts` was made only when `Continues` allowed it. */
    predicate RetriedWhenAllowed(mandated: seq<string>, maxTokens: int, texts: seq<string>, parses: seq<seq<Fragment>>)
      requires |parses| == |texts|
    {
      forall j :: 1 <= j < |texts| ==> Continues(mandated, maxTokens, texts[..j], parses[..j])
    }

    /** `texts` are the texts the backend returned from call `n0` on. */
    predicate Replied(n0: nat, texts: seq<string>)
    {
      forall j :: 0 <= j < |texts| ==> backend.ReplyTo(n0 + j) == Returned(texts[j])
    }

    lemma ParsedEachOne(x: string, p: seq<Fragment>)
      requires p == Parse(language, isAlpha, x)
      ensures ParsedEach([x], [p])
    {
      assert [x][0] == x;
    }

    lemma ParsedEachSnoc(texts: seq<string>, parses: seq<seq<Fragment>>, x: string, p: seq<Fragment>)
      requires ParsedEach(texts, parses) && p == Parse(language, isAlpha, x)
      ensures ParsedEach(texts + [x], parses + [p])
    {
      var t := texts + [x];
      forall i | 0 <= i < |t|
        ensures (parses + [p])[i] == Parse(language, isAlpha, t[i])
      {
        if i < |texts| {
          assert t[i] == texts[i];
        }
      }
    }

    /** A retry made when `Continues` allowed it keeps `RetriedWhenAllowed`. */
    lemma RetriedSnoc(mandated: seq<string>, maxTokens: int, texts: seq<string>, parses: seq<seq<Fragment>>, x: string, p: seq<Fragment>)
      requires |parses| == |texts| && texts != []
      requires Continues(mandated, maxTokens, texts, parses) && RetriedWhenAllowed(mandated, maxTokens, texts, parses)
      ensures RetriedWhenAllowed(mandated, maxTokens, texts + [x], parses + [p])
    {
      var t, q := texts + [x], parses + [p];
      assert t[..|texts|] == texts && q[..|parses|] == parses;
      assert forall j :: 1 <= j < |texts| ==> t[..j] == texts[..j] && q[..j] == parses[..j];
    }

    lemma RepliedSnoc(n0: nat, texts: seq<string>, x: string)
      requires Replied(n0, texts) && backend.ReplyTo(n0 + |texts|) == Returned(x)
      ensures Replied(n0, texts + [x])
    {
      var t := texts + [x];
      assert forall j :: 0 <= j < |texts| ==> t[j] == texts[j];
    }

    lemma {:induction false} RetriesPrefix(history: seq<Message>, mandated: seq<string>, maxTokens: int,
                                           texts: seq<string>, parses: seq<seq<Fragment>>, x: string, p: seq<Fragment>, n: nat)
      requires |parses| == |texts| && n <= |texts|
      ensures Retries(history, mandated, maxTokens, texts + [x], parses + [p], n) == Retries(history, mandated, maxTokens, texts, parses, n)
    {
      if n > 0 {
        assert (texts + [x])[..n] == texts[..n] && (parses + [p])[..n] == parses[..n];
        RetriesPrefix(history, mandated, maxTokens, texts, parses, x, p, n - 1);
      }
    }

    /** The backend call of a retry extends the call log by `RetryRequest`. */
    lemma RetryLogged(mandated: seq<string>, maxTokens: int, log: seq<Request>, history: seq<Message>,
                      texts: seq<string>, parses: seq<seq<Fragment>>, tmp: seq<Message>, log0: seq<Request>, log1: seq<Request>)
      requires |parses| == |texts| && texts != []
      requires log0 == log + Retries(history, mandated, maxTokens, texts, parses, |texts| - 1)
      requires tmp == (history + [Message(Assistant, TranscriptAfter(texts))])
                      + [Message(User, RetryPrompt(language, Undone(mandated, Combined(language, parses))))]
      requires log1 == log0 + [Request(tmp, Some(maxTokens - TokensOf(countTokens, texts)))]
      ensures log1 == log + Retries(history, mandated, maxTokens, texts, parses, |texts|)
      ensures |log0| + 1 == |log| + |texts|
    {
      SnocTwice(history, Message(Assistant, TranscriptAfter(texts)), Message(User, RetryPrompt(language, Undone(mandated, Combined(language, parses)))));
      assert Request(tmp, Some(maxTokens - TokensOf(countTokens, texts))) == RetryRequest(history, mandated, maxTokens, texts, parses);
      RetriesLast(history, mandated, maxTokens, texts, parses);
      LogStep(log, Retries(history, mandated, maxTokens, texts, parses, |texts| - 1), RetryRequest(history, mandated, maxTokens, texts, parses));
    }

    /** The last of the retries after `texts` is the one after all of them. */
    lemma RetriesLast(history: seq<Message>, mandated: seq<string>, maxTokens: int, texts: seq<string>, parses: seq<seq<Fragment>>)
      requires |parses| == |texts| && texts != []
      ensures Retries(history, mandated, maxTokens, texts, parses, |texts|)
              == Retries(history, mandated, maxTokens, texts, parses, |texts| - 1) + [RetryRequest(history, mandated, maxTokens, texts, parses)]
    {
      assert texts[..|texts|] == texts && parses[..|parses|] == parses;
    }

    lemma ParsedEachPrefix(texts: seq<string>, parses: seq<seq<Fragment>>, n: nat)
      requires ParsedEach(texts, parses) && n < |texts|
      ensures ParsedEach(texts[..n], parses[..n]) && parses[n] == Parse(language, isAlpha, texts[n])
    {
      assert forall i :: 0 <= i < n ==> texts[..n][i] == texts[i];
    }

    /** The turn `get_response` returns, made of the parses of its texts, has
        at most one fragment of each action other than think. */
    lemma CombinedAtMostOnce(texts: seq<string>, parses: seq<seq<Fragment>>, k: Kind)
      requires ParsedEach(texts, parses) && texts != [] && k != Think
      ensures Count(Combined(language, parses), Tag(language, k)) <= 1
    {
      ParsedEachPrefix(texts, parses, 0);
      ParseAtMostOnce(language, isAlpha, texts[0], k);
      TagsDiffer(language, k, Think);
      CombinedKeepsAtMostOnce(language, parses, Tag(language, k));
    }

    /** Every action of that turn is one of the language's opening tags. */
    lemma CombinedActionsAreOpenTags(texts: seq<string>, parses: seq<seq<Fragment>>)
      requires ParsedEach(texts, parses) && texts != []
      ensures ActionsIn(Combined(language, parses), OpenTags(language))
    {
      forall i | 0 <= i < |parses| ensures ActionsIn(parses[i], OpenTags(language)) {
        ParsedEachPrefix(texts, parses, i);
        ParseActionsAreOpenTags(language, isAlpha, texts[i]);
      }
      CombinedKeepsActions(language, parses, OpenTags(language));
    }

    /** The part of a retry that reads its text: the text is parsed, its
        actions are merged into the parsed turn, and the visible text is
        recomputed. */
    method Absorb(parsed: seq<Fragment>, text: string) returns (incoming: seq<Fragment>, merged: seq<Fragment>, noThought: string)
      ensures incoming == Parse(language, isAlpha, text)
      ensures merged == Merge(language, parsed, incoming) && noThought == NoThought(language, merged)
    {
      incoming := ParseResponse(text);
      merged := MergeParsed(parsed, incoming);
      noThought := NoThoughtContent(merged);
    }

    /** What `get_response` has done once its first reply `texts[0]` was
        usable, for a call that started on history `h0` with backend call
        `n0`: the texts are the backend's replies in order, every retry was
        allowed, the history holds one assistant entry with the transcript,
        and it stopped either because no retry was allowed (and returned the
        combined turn) or because a retry raised. */
    ghost predicate Answered(h0: seq<Message>, n0: nat, maxTokens: int, mandated: seq<string>, r: Result<Response, Exception>,
                             texts: seq<string>, parses: seq<seq<Fragment>>, history: seq<Message>)
    {
      && 1 <= |texts| && |parses| == |texts| && texts[0] != ErrorText
      && Replied(n0, texts) && RetriedWhenAllowed(mandated, maxTokens, texts, parses)
      && history == h0 + [Message(Assistant, TranscriptAfter(texts))]
      && (r.Ok? ==> && !Continues(mandated, maxTokens, texts, parses)
                    && r.value == Response(Concat(texts), NoThought(language, Combined(language, parses)), Combined(language, parses)))
      && (r.Err? ==> Continues(mandated, maxTokens, texts, parses) && backend.ReplyTo(n0 + |texts|) == Raised(r.error))
    }

    /** `get_response(max_tokens)`. `texts` are the backend texts the call
        accepted, the first one and then one per retry, and `parses` their
        parses. The first call sees the chat history as it was; one assistant
        entry is added; every retry goes to a temporary copy of the history. */
    method GetResponse(maxTokens: int) returns (r: Result<Response, Exception>, ghost texts: seq<string>, ghost parses: seq<seq<Fragment>>)
      modifies this, backend
      ensures actions == old(actions)
      ensures |texts| <= 3 && (r.Ok? ==> texts != []) && ParsedEach(texts, parses)
      ensures backend.log == old(backend.log) + [Request(old(chatHistory), Some(maxTokens))]
                + Retries(old(chatHistory), actions, maxTokens, texts, parses, if r.Ok? then |texts| - 1 else |texts|)
      ensures texts == [] ==> r.Err? && chatHistory == old(chatHistory)
      ensures texts == [] ==>
                || (backend.ReplyTo(|old(backend.log)|) == Returned(ErrorText) && r.error == GenerationFailed)
                || backend.ReplyTo(|old(backend.log)|) == Raised(r.error)
      ensures texts != [] ==> Answered(old(chatHistory), |old(backend.log)|, maxTokens, actions, r, texts, parses, chatHistory)
    {
      ghost var n0 := |backend.log|;
      ghost var h0 := chatHistory;
      texts, parses := [], [];
      var first := backend.Generate(chatHistory, Some(maxTokens));
      if first.Raised? {
        r := Err(first.exception);
        return;
      }
      if first.text == ErrorText {
        r := Err(GenerationFailed);
        return;
      }
      var original := first.text;
      var parsed := ParseResponse(original);
      var noThought := NoThoughtContent(parsed);
      chatHistory := chatHistory + [Message(Assistant, original)];
      ParsedEachOne(original, parsed);
      r, texts, parses := CompleteActions(maxTokens, h0, n0, original, parsed, noThought);
    }

    /** What the retry loop of `get_response` knows after the accepted texts
        `texts` (parsed as `parses`): the values of its locals, the assistant
        entry of the history, the call log since the first call, and that the
        texts were the backend's replies to calls made when allowed. */
    ghost predicate Progress(mandated: seq<string>, maxTokens: int, h0: seq<Message>, L0: seq<Request>, n0: nat,
                             texts: seq<string>, parses: seq<seq<Fragment>>,
                             parsed: seq<Fragment>, original: string, noThought: string, used: int, undone: seq<string>,
                             history: seq<Message>, log: seq<Request>)
    {
      && texts != [] && ParsedEach(texts, parses) && |L0| == n0 + 1
      && parsed == Combined(language, parses) && original == Concat(texts) && noThought == NoThought(language, parsed)
      && used == TokensOf(countTokens, texts) && undone == Undone(mandated, parsed)
      && history == h0 + [Message(Assistant, TranscriptAfter(texts))]
      && log == L0 + Retries(h0, mandated, maxTokens, texts, parses, |texts| - 1)
      && Replied(n0, texts) && RetriedWhenAllowed(mandated, maxTokens, texts, parses)
    }

    /** The request of a retry and the call log after it. */
    lemma RetryStep(mandated: seq<string>, maxTokens: int, h0: seq<Message>, L0: seq<Request>, n0: nat,
                    texts: seq<string>, parses: seq<seq<Fragment>>,
                    parsed: seq<Fragment>, original: string, noThought: string, used: int, undone: seq<string>,
                    history: seq<Message>, log: seq<Request>, log1: seq<Request>)
      requires Progress(mandated, maxTokens, h0, L0, n0, texts, parses, parsed, original, noThought, used, undone, history, log)
      requires log1 == log + [Request(history + [Message(User, RetryPrompt(language, undone))], Some(maxTokens - used))]
      ensures log1 == L0 + Retries(h0, mandated, maxTokens, texts, parses, |texts|)
      ensures |log| == n0 + |texts|
    {
      RetryLogged(mandated, maxTokens, L0, h0, texts, parses, history + [Message(User, RetryPrompt(language, undone))], log, log1);
    }

    /** One accepted retry keeps `Progress`. */
    lemma ProgressStep(mandated: seq<string>, maxTokens: int, h0: seq<Message>, L0: seq<Request>, n0: nat,
                       texts: seq<string>, parses: seq<seq<Fragment>>,
                       parsed: seq<Fragment>, original: string, noThought: string, used: int, undone: seq<string>,
                       history: seq<Message>, log: seq<Request>, log1: seq<Request>,
                       x: string, p: seq<Fragment>, merged: seq<Fragment>, noThought': string)
      requires Progress(mandated, maxTokens, h0, L0, n0, texts, parses, parsed, original, noThought, used, undone, history, log)
      requires Continues(mandated, maxTokens, texts, parses)
      requires log1 == log + [Request(history + [Message(User, RetryPrompt(language, undone))], Some(maxTokens - used))]
      requires backend.ReplyTo(n0 + |texts|) == Returned(x)
      requires p == Parse(language, isAlpha, x) && merged == Merge(language, parsed, p) && noThought' == NoThought(language, merged)
      ensures history != []
      ensures Progress(mandated, maxTokens, h0, L0, n0, texts + [x], parses + [p], merged, original + x, noThought',
                       used + TokensIn(x), Undone(mandated, merged),
                       history[|history| - 1 := Message(history[|history| - 1].role, history[|history| - 1].content + (original + x))],
                       log1)
    {
      RetryStep(mandated, maxTokens, h0, L0, n0, texts, parses, parsed, original, noThought, used, undone, history, log, log1);
      ParsedEachSnoc(texts, parses, x, p);
      CombinedSnoc(language, parses, p);
      TokensSnoc(countTokens, texts, x);
      ConcatSnoc(texts, x);
      TranscriptSnoc(texts, x);
      RetriesPrefix(h0, mandated, maxTokens, texts, parses, x, p, |texts|);
      RetriedSnoc(mandated, maxTokens, texts, parses, x, p);
      RepliedSnoc(n0, texts, x);
      ReplaceLast(h0, history[|history| - 1], Message(history[|history| - 1].role, history[|history| - 1].content + (original + x)));
    }

    /** One pass of the retry loop of `get_response`: the backend is asked
        for the missing actions on a copy of the history; a text it returns is
        parsed and merged into the turn, and the whole text so far is added to
        the assistant entry. */
    method RetryOnce(maxTokens: int, ghost mandated: seq<string>, ghost h0: seq<Message>, ghost L0: seq<Request>, ghost n0: nat,
                     ghost texts: seq<string>, ghost parses: seq<seq<Fragment>>,
                     parsed: seq<Fragment>, original: string, noThought: string, used: int, undone: seq<string>)
      returns (reply: Reply, merged: seq<Fragment>, original': string, noThought': string, ghost p: seq<Fragment>)
      requires Progress(mandated, maxTokens, h0, L0, n0, texts, parses, parsed, original, noThought, used, undone, chatHistory, backend.log)
      requires actions == mandated && Continues(mandated, maxTokens, texts, parses)
      modifies this, backend
      ensures actions == mandated && backend.ReplyTo(n0 + |texts|) == reply
      ensures reply.Raised? ==>
                backend.log == L0 + Retries(h0, mandated, maxTokens, texts, parses, |texts|) && chatHistory == old(chatHistory)
      ensures reply.Returned? ==>
                Progress(mandated, maxTokens, h0, L0, n0, texts + [reply.text], parses + [p], merged, original', noThought',
                         used + TokensIn(reply.text), Undone(mandated, merged), chatHistory, backend.log)
    {
      var tmp := chatHistory + [Message(User, RetryPrompt(language, undone))];
      ghost var history := chatHistory;
      ghost var log := backend.log;
      reply := backend.Generate(tmp, Some(maxTokens - used));
      RetryStep(mandated, maxTokens, h0, L0, n0, texts, parses, parsed, original, noThought, used, undone, history, log, backend.log);
      if reply.Raised? {
        merged, original', noThought', p := parsed, original, noThought, [];
        return;
      }
      var newResponse := reply.text;
      assert backend.ReplyTo(n0 + |texts|) == Returned(newResponse);
      p, merged, noThought' := Absorb(parsed, newResponse);
      ProgressStep(mandated, maxTokens, h0, L0, n0, texts, parses, parsed, original, noThought, used, undone, history, log, backend.log,
                   newResponse, p, merged, noThought');
      original' := original + newResponse;
      var last := chatHistory[|chatHistory| - 1];
      chatHistory := chatHistory[|chatHistory| - 1 := Message(last.role, last.content + original')];
    }

    /** The retry loop of `get_response`: while a mandated action is missing,
        fewer than two retries were made and the budget leaves more than ten
        tokens, one more retry is made. */
    method CompleteActions(maxTokens: int, ghost h0: seq<Message>, ghost n0: nat, first: string,
                           parsed0: seq<Fragment>, noThought0: string)
      returns (r: Result<Response, Exception>, ghost texts: seq<string>, ghost parses: seq<seq<Fragment>>)
      requires first != ErrorText && ParsedEach([first], [parsed0]) && noThought0 == NoThought(language, parsed0)
      requires chatHistory == h0 + [Message(Assistant, first)]
      requires n0 + 1 == |backend.log| && backend.ReplyTo(n0) == Returned(first)
      modifies this, backend
      ensures actions == old(actions)
      ensures 1 <= |texts| <= 3 && texts[0] == first && ParsedEach(texts, parses)
      ensures backend.log == old(backend.log) + Retries(h0, actions, maxTokens, texts, parses, if r.Ok? then |texts| - 1 else |texts|)
      ensures Answered(h0, n0, maxTokens, actions, r, texts, parses, chatHistory)
    {
      ghost var L0 := backend.log;
      ghost var mandated := actions;
      var original := first;
      var parsed := parsed0;
      var noThought := noThought0;
      texts, parses := [original], [parsed];
      assert texts[..0] == [] && parses[..0] == [];
      var used: int := TokensIn(original);
      var undone := Undone(actions, parsed);
      var tryCount := 0;
      while undone != [] && tryCount < 2 && used + 10 < maxTokens
        invariant |texts| <= 3 && tryCount == |texts| - 1 && texts[0] == first && actions == mandated
        invariant Progress(mandated, maxTokens, h0, L0, n0, texts, parses, parsed, original, noThought, used, undone, chatHistory, backend.log)
        decreases 2 - tryCount
      {
        assert Continues(mandated, maxTokens, texts, parses);
        var reply, merged, original', noThought', p :=
          RetryOnce(maxTokens, mandated, h0, L0, n0, texts, parses, parsed, original, noThought, used, undone);
        if reply.Raised? {
          r := Err(reply.exception);
          return;
        }
        texts, parses := texts + [reply.text], parses + [p];
        parsed, original, noThought := merged, original', noThought';
        undone := Undone(actions, parsed);
        tryCount := tryCount + 1;
        used := used + TokensIn(reply.text);
      }
      r := Ok(Response(original, noThought, parsed));
    }

    /** `receive_opponent_response`: the guide (English action names) becomes
        the mandated actions in the candidate's language, and one user entry
        with the guide's prompt and the opponent's visible text is added. */
    method ReceiveOpponentResponse(opponentResponse: string, guide: seq<string>)
      requires language == Zh ==> forall a :: a in guide ==> a in EnToZh
      requires GuideKey(guide) in actionPrompts
      modifies this
      ensures actions == ActionListInLanguage(guide, language)
      ensures chatHistory == old(chatHistory) + [Message(User, actionPrompts[GuideKey(guide)] + OpponentLabel(language) + opponentResponse)]
    {
      actions := ActionListInLanguage(guide, language);
      var prompt := actionPrompts[GuideKey(guide)];
      chatHistory := chatHistory + [Message(User, prompt + OpponentLabel(language) + opponentResponse)];
    }
  }
}

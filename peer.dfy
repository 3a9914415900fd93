/** `peer_evaluate` (utils/LD_judge.py) on a debate that has not been judged
    before: the reference answer, the committee's first verdicts, the
    refinement rounds in which every judge reads the others' judgements, and
    the saved record. */
module PeerEvaluation {
  import opened Wrappers
  import opened Text
  import opened Backend
  import opened Protocol
  import opened Debate
  import opened JsonLines
  import opened Judging

  // ---------------------------------------------------------------------
  // The reference answers (`ref_answers`, `generate_ref_answer`)

  /** A key of the reference-answer cache. The lookup uses `str(id)` and the
      store the integer `id` itself, which Python keeps apart. */
  datatype CacheKey = StrKey(s: string) | IntKey(n: int)

  /** The `KeyError` of `ref_answers[language]` for a language the cache file
      does not hold. */
  const MissingLanguage: Exception := RuntimeError("KeyError")

  /** The instruction `generate_ref_answer` puts in front of the question,
      one per language. */
  datatype RefInstructions = RefInstructions(en: string, zh: string)

  /** The prompt of `generate_ref_answer`: the language's instruction, then
      the question. */
  function RefPrompt(instructions: RefInstructions, lang: Language, question: string): (p: string)
    ensures |p| >= |question| && p[|p| - |question|..] == question
    ensures p[..|p| - |question|] == if lang == En then instructions.en else instructions.zh
  {
    (if lang == En then instructions.en else instructions.zh) + question
  }

  /** What `generate_ref_answer` returns for a backend reply: the reply with
      the prompt cut out, or the exception it raised. */
  function RefAnswerOf(reply: Reply, prompt: string): Result<string, Exception>
  {
    if reply.Raised? then Err(reply.exception)
    else if prompt == "" then Ok(reply.text)  // `s.replace('', '')` is `s`
    else Ok(Replace(reply.text, prompt, ""))
  }

  /** `generate_ref_answer(model_name, question, language)`: one backend call
      with the default token budget. */
  method GenerateRefAnswer(instructions: RefInstructions, lang: Language, question: string, backend: Oracle)
    returns (r: Result<string, Exception>)
    modifies backend
    ensures backend.log == old(backend.log) + [Request([Message(User, RefPrompt(instructions, lang, question))], None)]
    ensures r == RefAnswerOf(backend.ReplyTo(|old(backend.log)|), RefPrompt(instructions, lang, question))
  {
    var prompt := RefPrompt(instructions, lang, question);
    var reply := backend.Generate([Message(User, prompt)], None);
    if reply.Raised? {
      return Err(reply.exception);
    }
    r := if prompt == "" then Ok(reply.text) else Ok(Replace(reply.text, prompt, ""));
  }

  /** The committee member's entry of the cache, `{}` until it has one. */
  function Slot(answers: map<string, map<CacheKey, string>>, member: string): map<CacheKey, string>
  {
    if member in answers then answers[member] else map[]
  }

  /** `ref_answers`, read once when the module is loaded; writing it back to
      its file is not modelled. */
  class RefAnswers {
    var answers: map<Language, map<string, map<CacheKey, string>>>
    const instructions: RefInstructions

    constructor (answers: map<Language, map<string, map<CacheKey, string>>>, instructions: RefInstructions)
      ensures this.answers == answers && this.instructions == instructions
    {
      this.answers := answers;
      this.instructions := instructions;
    }

    /** STEP0 of `peer_evaluate`: the committee member's cached answer under
        `str(id)`, or a fresh one from the backend, stored under `id`. The
        member's empty entry is created before the backend is called, so it
        stays even when that call raises. */
    method ReferenceAnswer(lang: Language, member: string, id: int, question: string, backend: Oracle)
      returns (r: Result<string, Exception>)
      modifies this, backend
      ensures lang !in old(answers) ==> r == Err(MissingLanguage) && answers == old(answers) && backend.log == old(backend.log)
      ensures lang in old(answers) && Cached(old(answers), lang, member, id).Some? ==>
                && r == Ok(Cached(old(answers), lang, member, id).value)
                && answers == Seeded(old(answers), lang, member) && backend.log == old(backend.log)
      ensures lang in old(answers) && Cached(old(answers), lang, member, id).None? ==>
                && backend.log == old(backend.log) + [Request([Message(User, RefPrompt(instructions, lang, question))], None)]
                && r == RefAnswerOf(backend.ReplyTo(|old(backend.log)|), RefPrompt(instructions, lang, question))
                && answers == if r.Ok? then Stored(old(answers), lang, member, id, r.value) else Seeded(old(answers), lang, member)
    {
      if lang !in answers {
        return Err(MissingLanguage);
      }
      ghost var before := answers;
      answers := Seeded(answers, lang, member);
      var slot := answers[lang][member];
      var key := StrKey(IntToString(id));
      if key in slot {
        return Ok(slot[key]);
      }
      r := GenerateRefAnswer(instructions, lang, question, backend);
      if r.Ok? {
        answers := answers[lang := answers[lang][member := slot[IntKey(id) := r.value]]];
        StoreAfterSeed(before, lang, member, id, r.value);
      }
    }
  }

  /** The member's cached answer for question `id`, looked up under `str(id)`. */
  function Cached(answers: map<Language, map<string, map<CacheKey, string>>>, lang: Language, member: string, id: int): Option<string>
    requires lang in answers
  {
    var slot := Slot(answers[lang], member);
    if StrKey(IntToString(id)) in slot then Some(slot[StrKey(IntToString(id))]) else None
  }

  /** `ref_answers[language][member] = {}` when the member has no entry yet. */
  function Seeded(answers: map<Language, map<string, map<CacheKey, string>>>, lang: Language, member: string)
    : (r: map<Language, map<string, map<CacheKey, string>>>)
    requires lang in answers
    ensures lang in r && member in r[lang]
  {
    answers[lang := answers[lang][member := Slot(answers[lang], member)]]
  }

  /** The cache once the answer `v` for question `id` is stored under `id`. */
  function Stored(answers: map<Language, map<string, map<CacheKey, string>>>, lang: Language, member: string, id: int, v: string)
    : map<Language, map<string, map<CacheKey, string>>>
    requires lang in answers
  {
    answers[lang := answers[lang][member := Slot(answers[lang], member)[IntKey(id) := v]]]
  }

  lemma StoreAfterSeed(answers: map<Language, map<string, map<CacheKey, string>>>, lang: Language, member: string, id: int, v: string)
    requires lang in answers
    ensures var s := Seeded(answers, lang, member);
            s[lang := s[lang][member := s[lang][member][IntKey(id) := v]]] == Stored(answers, lang, member, id, v)
  {
    var s := Seeded(answers, lang, member);
    assert s[lang][member := s[lang][member][IntKey(id) := v]] == answers[lang][member := Slot(answers[lang], member)[IntKey(id) := v]];
  }

  /** A stored answer is never found by the next lookup of the same
      question: the store's key is the integer, the lookup's the string. */
  lemma StoreMissesLookup(answers: map<Language, map<string, map<CacheKey, string>>>, lang: Language, member: string, id: int, v: string)
    requires lang in answers
    ensures Cached(Stored(answers, lang, member, id, v), lang, member, id) == Cached(answers, lang, member, id)
  {
    assert Slot(Stored(answers, lang, member, id, v)[lang], member) == Slot(answers[lang], member)[IntKey(id) := v];
  }

  // ---------------------------------------------------------------------
  // The record `peer_evaluate` builds (`judge_dict`)

  /** `judge_dict` of a fresh evaluation: `records` holds the per-judge
      entries `judge_dict[name]`. */
  datatype JudgeDict = JudgeDict(gamekey: (int, string, string), judges: seq<string>, numRounds: string,
                                 judgeDebateRounds: int, refAnswer: Option<string>,
                                 records: map<string, JudgeRecord>, debateHistory: Option<string>,
                                 finalWinner: seq<string>)

  predicate Distinct(names: seq<string>)
  {
    forall i, j :: 0 <= i < j < |names| ==> names[i] != names[j]
  }

  function Names(committee: seq<string>): set<string>
  {
    set n | n in committee
  }

  /** Record `a` grows into record `b`: both lists keep their entries. */
  predicate Extends(a: JudgeRecord, b: JudgeRecord)
  {
    && |a.winner| <= |b.winner| && b.winner[..|a.winner|] == a.winner
    && |a.judgement| <= |b.judgement| && b.judgement[..|a.judgement|] == a.judgement
  }

  /** The vote a judge casts in round `t`: its verdict, or in a refinement
      round where that is `error`, its previous recorded verdict. */
  function Vote(winners: seq<string>, t: nat): string
    requires t < |winners|
  {
    if t > 0 && winners[t] == "error" then winners[t - 1] else winners[t]
  }

  /** The votes of round `t`, judge by judge. */
  function RoundVotes(committee: seq<string>, records: map<string, JudgeRecord>, t: nat): (votes: seq<string>)
    requires forall n :: n in committee ==> n in records && t < |records[n].winner|
    ensures |votes| == |committee|
  {
    seq(|committee|, i requires 0 <= i < |committee| => Vote(records[committee[i]].winner, t))
  }

  /** Growing the records leaves the votes of the rounds already held alone. */
  lemma RoundVotesStable(committee: seq<string>, a: map<string, JudgeRecord>, b: map<string, JudgeRecord>, t: nat)
    requires forall n :: n in committee ==> n in a && n in b && Extends(a[n], b[n]) && t < |a[n].winner| && t < |b[n].winner|
    ensures RoundVotes(committee, a, t) == RoundVotes(committee, b, t)
  {
    forall i | 0 <= i < |committee|
      ensures Vote(a[committee[i]].winner, t) == Vote(b[committee[i]].winner, t)
    {
      var w, w' := a[committee[i]].winner, b[committee[i]].winner;
      assert w'[..|w|][t] == w'[t] && (t > 0 ==> w'[..|w|][t - 1] == w'[t - 1]);
    }
  }

  // ---------------------------------------------------------------------
  // STEP1: the first verdicts

  /** No member after position `x` and before `i` has the name of member `x`. */
  predicate LastIn(committee: seq<string>, x: nat, i: nat)
    requires x < i <= |committee|
  {
    forall j :: x < j < i ==> committee[j] != committee[x]
  }

  /** What STEP1 produces: `judge_dict[name]` for every judge, the lists
      `winners` and (in the model) `judgements` in committee order, and
      `judge_dict['debate_history']`. */
  datatype Initial = Initial(records: map<string, JudgeRecord>, winners: seq<string>, judgements: seq<string>,
                             debateHistory: Option<string>)

  /** The `Judge` objects STEP1 creates, as the refinement rounds need them. */
  ghost predicate Seated(judges: seq<Judge>, committee: seq<string>, lang: Language, prompts: JudgePrompts, backend: Oracle)
  {
    && |judges| == |committee|
    && forall i :: 0 <= i < |judges| ==>
         && judges[i].modelName == committee[i] && judges[i].language == lang
         && judges[i].backend == backend && judges[i].debateInstruction == prompts.debateInstruction
  }

  /** The entries STEP1 has made for the first `i` members: the last member
      of each name holds its verdict and its judgement. */
  predicate Recorded(committee: seq<string>, i: nat, records: map<string, JudgeRecord>, winners: seq<string>,
                     judgements: seq<string>)
    requires i <= |committee|
  {
    && records.Keys == Names(committee[..i]) && Aligned(records)
    && (forall n :: n in records ==> |records[n].winner| == 1)
    && |winners| == |judgements| == i
    && (forall x :: 0 <= x < i ==> winners[x] == VerdictOf(judgements[x]))
    && forall x :: 0 <= x < i && LastIn(committee, x, i) ==> records[committee[x]] == JudgeRecord([winners[x]], [judgements[x]])
  }

  /** `judge_dict[judge_name] = {...}` and `winners.append(winner)`. */
  method Record(committee: seq<string>, i: nat, records: map<string, JudgeRecord>, winners: seq<string>,
                judgements: seq<string>, e: Evaluation)
    returns (records': map<string, JudgeRecord>, winners': seq<string>, judgements': seq<string>)
    requires i < |committee| && Recorded(committee, i, records, winners, judgements)
    requires e.winner == VerdictOf(e.judgement)
    ensures Recorded(committee, i + 1, records', winners', judgements')
    ensures winners' == winners + [e.winner] && judgements' == judgements + [e.judgement]
  {
    records' := records[committee[i] := JudgeRecord([e.winner], [e.judgement])];
    winners' := winners + [e.winner];
    judgements' := judgements + [e.judgement];
    NamesSnoc(committee, i);
    LastVerdicts(committee, i, records, winners, judgements, JudgeRecord([e.winner], [e.judgement]), records', winners', judgements');
  }

  lemma LastVerdicts(committee: seq<string>, i: nat, records: map<string, JudgeRecord>, winners: seq<string>,
                     judgements: seq<string>, entry: JudgeRecord,
                     records': map<string, JudgeRecord>, winners': seq<string>, judgements': seq<string>)
    requires i < |committee| && |winners| == |judgements| == i
    requires forall x :: 0 <= x < i && LastIn(committee, x, i) ==>
               committee[x] in records && records[committee[x]] == JudgeRecord([winners[x]], [judgements[x]])
    requires entry.winner != [] && entry.judgement != []
    requires records' == records[committee[i] := entry]
    requires entry == JudgeRecord([entry.winner[0]], [entry.judgement[0]])
    requires winners' == winners + [entry.winner[0]] && judgements' == judgements + [entry.judgement[0]]
    ensures forall x :: 0 <= x < i + 1 && LastIn(committee, x, i + 1) ==>
              committee[x] in records' && records'[committee[x]] == JudgeRecord([winners'[x]], [judgements'[x]])
  {
    forall x | 0 <= x < i + 1 && LastIn(committee, x, i + 1)
      ensures committee[x] in records' && records'[committee[x]] == JudgeRecord([winners'[x]], [judgements'[x]])
    {
      if x < i {
        LastInShrinks(committee, x, i);
      }
    }
  }

  lemma NamesSnoc(committee: seq<string>, i: nat)
    requires i < |committee|
    ensures Names(committee[..i + 1]) == Names(committee[..i]) + {committee[i]}
  {
    assert committee[..i + 1] == committee[..i] + [committee[i]];
  }

  /** A member that is last among the first `i + 1` is last among the first
      `i`, and is not member `i`. */
  lemma LastInShrinks(committee: seq<string>, x: nat, i: nat)
    requires x < i < |committee| && LastIn(committee, x, i + 1)
    ensures LastIn(committee, x, i) && committee[x] != committee[i]
  {
  }

  lemma SeatedSnoc(judges: seq<Judge>, committee: seq<string>, i: nat, judge: Judge, lang: Language, prompts: JudgePrompts, backend: Oracle)
    requires i < |committee| && Seated(judges, committee[..i], lang, prompts, backend)
    requires judge.modelName == committee[i] && judge.language == lang
    requires judge.backend == backend && judge.debateInstruction == prompts.debateInstruction
    ensures Seated(judges + [judge], committee[..i + 1], lang, prompts, backend)
  {
  }

  /** `rendered` is what `reformat_history` returns or raises on `debate`,
      `Rendered(lang, debate, ref, evaluateTurn)`. It is stated for every
      debate equal to `debate`, so that the proofs which only hand the
      transcript on do not expand its definition. */
  ghost predicate RenderedAs(lang: Language, debate: DebateHistory, ref: Option<string>, evaluateTurn: string,
                             rendered: Result<string, Exception>)
  {
    forall d :: d == debate ==> Rendered(lang, d, ref, evaluateTurn) == rendered
  }

  /** What a new judge sends in STEP1: its system instruction, then the
      debate transcript `shown`, with the judge's token budget. */
  function FirstRequest(lang: Language, prompts: JudgePrompts, word2tokenEn: real, word2tokenZh: real, shown: string): Request
  {
    Request([Message(System, if lang == En then prompts.instruction else prompts.instructionZh), Message(User, shown)],
            Some(JudgeBudget(lang, word2tokenEn, word2tokenZh)))
  }

  /** One pass of STEP1: a new judge is shown the debate, asks its backend
      once and gives the verdict read off the reply. */
  method FirstJudgement(name: string, debate: DebateHistory, ref: Option<string>, evaluateTurn: string,
                        lang: Language, prompts: JudgePrompts, word2tokenEn: real, word2tokenZh: real, backend: Oracle,
                        ghost rendered: Result<string, Exception>)
    returns (e: Result<Evaluation, Exception>, judge: Judge)
    requires RenderedAs(lang, debate, ref, evaluateTurn, rendered)
    modifies backend
    ensures fresh(judge) && judge.modelName == name && judge.language == lang
    ensures judge.backend == backend && judge.debateInstruction == prompts.debateInstruction
    ensures rendered.Err? ==> e == Err(rendered.error) && backend.log == old(backend.log)
    ensures rendered.Ok? ==>
              var shown := rendered.value;
              var judged := Judged(backend.ReplyTo(|old(backend.log)|), Some(shown));
              && backend.log == old(backend.log) + [FirstRequest(lang, prompts, word2tokenEn, word2tokenZh, shown)]
              && (judged.Err? ==> e == Err(judged.error))
              && (judged.Ok? ==> e == Ok(Evaluation(VerdictOf(judged.value), judged.value, Some(shown))))
  {
    assert Rendered(lang, debate, ref, evaluateTurn) == rendered;
    judge := new Judge(name, lang, prompts, word2tokenEn, word2tokenZh, backend);
    ghost var seed := judge.chatHistory;
    e := judge.GetEvaluation(Some(debate), ref, evaluateTurn);
    if Rendered(lang, debate, ref, evaluateTurn).Ok? {
      ghost var shown := Rendered(lang, debate, ref, evaluateTurn).value;
      assert seed + [Message(User, shown)] == FirstRequest(lang, prompts, word2tokenEn, word2tokenZh, shown).history;
    }
  }

  /** The judges of STEP1 so far each sent `request` in turn after the
      requests of `log0`, and judgement `x` is the one `get_evaluation` reads
      off the reply to request `x`. */
  predicate AskedInTurn(backend: Oracle, log: seq<Request>, log0: seq<Request>, request: Request, shown: string,
                        judgements: seq<string>)
  {
    && |log| == |log0| + |judgements| && log[..|log0|] == log0
    && forall x :: 0 <= x < |judgements| ==> SentFirst(log[|log0| + x], backend.ReplyTo(|log0| + x), request, shown, judgements[x])
  }

  /** One STEP1 request: it is `request`, and its reply gives `judgement`. */
  predicate SentFirst(sent: Request, reply: Reply, request: Request, shown: string, judgement: string)
  {
    sent == request && Judged(reply, Some(shown)) == Ok(judgement)
  }

  /** The next judge of STEP1, as `FirstJudgement` creates it, joins the
      judges asked so far. */
  method JudgeNext(name: string, debate: DebateHistory, ref: Option<string>, evaluateTurn: string,
                   lang: Language, prompts: JudgePrompts, word2tokenEn: real, word2tokenZh: real, backend: Oracle,
                   judgements: seq<string>, ghost rendered: Result<string, Exception>, ghost shown: string,
                   ghost log0: seq<Request>)
    returns (e: Result<Evaluation, Exception>, judge: Judge)
    requires RenderedAs(lang, debate, ref, evaluateTurn, rendered) && (rendered.Ok? ==> shown == rendered.value)
    requires AskedInTurn(backend, backend.log, log0, FirstRequest(lang, prompts, word2tokenEn, word2tokenZh, shown), shown, judgements)
    modifies backend
    ensures fresh(judge) && judge.modelName == name && judge.language == lang
    ensures judge.backend == backend && judge.debateInstruction == prompts.debateInstruction
    ensures e.Err? <==> rendered.Err? || Judged(backend.ReplyTo(|log0| + |judgements|), Some(shown)).Err?
    ensures rendered.Err? ==> e == Err(rendered.error) && backend.log == old(backend.log)
    ensures e.Ok? ==>
              && e.value.winner == VerdictOf(e.value.judgement)
              && e.value.debateHistory == Some(shown)
              && AskedInTurn(backend, backend.log, log0, FirstRequest(lang, prompts, word2tokenEn, word2tokenZh, shown), shown,
                             judgements + [e.value.judgement])
  {
    ghost var request := FirstRequest(lang, prompts, word2tokenEn, word2tokenZh, shown);
    e, judge := FirstJudgement(name, debate, ref, evaluateTurn, lang, prompts, word2tokenEn, word2tokenZh, backend, rendered);
    if e.Ok? {
      assert backend.log[..|backend.log| - 1] == old(backend.log);
      AskedSnoc(backend, backend.log, log0, request, shown, judgements, e.value.judgement);
    }
  }

  /** Every reply asked for so far gave a judgement. */
  lemma AskedAll(backend: Oracle, log: seq<Request>, log0: seq<Request>, request: Request, shown: string, judgements: seq<string>)
    requires AskedInTurn(backend, log, log0, request, shown, judgements)
    ensures forall n :: |log0| <= n < |log0| + |judgements| ==> Judged(backend.ReplyTo(n), Some(shown)).Ok?
  {
    forall n | |log0| <= n < |log0| + |judgements| ensures Judged(backend.ReplyTo(n), Some(shown)).Ok? {
      assert SentFirst(log[|log0| + (n - |log0|)], backend.ReplyTo(|log0| + (n - |log0|)), request, shown, judgements[n - |log0|]);
    }
  }

  lemma AskedSnoc(backend: Oracle, log: seq<Request>, log0: seq<Request>, request: Request, shown: string,
                  judgements: seq<string>, judgement: string)
    requires log != [] && AskedInTurn(backend, log[..|log| - 1], log0, request, shown, judgements) && log[|log| - 1] == request
    requires Judged(backend.ReplyTo(|log0| + |judgements|), Some(shown)) == Ok(judgement)
    ensures AskedInTurn(backend, log, log0, request, shown, judgements + [judgement])
  {
    var front := log[..|log| - 1];
    var judgements' := judgements + [judgement];
    assert |front| == |log0| + |judgements|;
    assert log[..|log0|] == front[..|log0|];
    forall x | 0 <= x < |judgements'|
      ensures SentFirst(log[|log0| + x], backend.ReplyTo(|log0| + x), request, shown, judgements'[x])
    {
      if x < |judgements| {
        assert SentFirst(front[|log0| + x], backend.ReplyTo(|log0| + x), request, shown, judgements[x]);
      }
    }
  }

  /** Where STEP1 stands after the first `i` members: their judges are
      seated, their entries recorded, and each was asked in turn. */
  ghost predicate Step1SoFar(committee: seq<string>, i: nat, records: map<string, JudgeRecord>, winners: seq<string>,
                             judgements: seq<string>, judges: seq<Judge>, lang: Language, prompts: JudgePrompts,
                             backend: Oracle, log: seq<Request>, log0: seq<Request>, request: Request, shown: string)
  {
    && i <= |committee| && Seated(judges, committee[..i], lang, prompts, backend)
    && Recorded(committee, i, records, winners, judgements)
    && AskedInTurn(backend, log, log0, request, shown, judgements)
  }

  /** `Step1SoFar` guarded by its count, so that a proof which only hands
      the state on to the next pass does not expand it. */
  ghost predicate Step1At(committee: seq<string>, i: nat, records: map<string, JudgeRecord>, winners: seq<string>,
                          judgements: seq<string>, judges: seq<Judge>, lang: Language, prompts: JudgePrompts,
                          backend: Oracle, log: seq<Request>, log0: seq<Request>, request: Request, shown: string)
  {
    forall n: nat :: n == i ==> Step1SoFar(committee, n, records, winners, judgements, judges, lang, prompts, backend, log, log0, request, shown)
  }

  /** The bookkeeping after a STEP1 judgement: the entry is recorded and
      the judge seated. */
  method Seat(committee: seq<string>, i: nat, records: map<string, JudgeRecord>, winners: seq<string>,
              judgements: seq<string>, judges: seq<Judge>, judge: Judge, e: Evaluation, lang: Language, prompts: JudgePrompts,
              backend: Oracle, ghost log: seq<Request>, ghost log0: seq<Request>, ghost request: Request, ghost shown: string)
    returns (records': map<string, JudgeRecord>, winners': seq<string>, judgements': seq<string>, judges': seq<Judge>)
    requires i < |committee| && e.winner == VerdictOf(e.judgement)
    requires Seated(judges, committee[..i], lang, prompts, backend) && Recorded(committee, i, records, winners, judgements)
    requires judge.modelName == committee[i] && judge.language == lang
    requires judge.backend == backend && judge.debateInstruction == prompts.debateInstruction
    requires AskedInTurn(backend, log, log0, request, shown, judgements + [e.judgement])
    ensures judges' == judges + [judge]
    ensures Step1SoFar(committee, i + 1, records', winners', judgements', judges', lang, prompts, backend, log, log0, request, shown)
  {
    records', winners', judgements' := Record(committee, i, records, winners, judgements, e);
    SeatedSnoc(judges, committee, i, judge, lang, prompts, backend);
    judges' := judges + [judge];
  }

  /** One pass of the STEP1 loop: the next member judges the debate, its
      entry is recorded and its judge seated. */
  method Step1Next(committee: seq<string>, i: nat, records: map<string, JudgeRecord>, winners: seq<string>,
                   judgements: seq<string>, judges: seq<Judge>, debate: DebateHistory, ref: Option<string>,
                   evaluateTurn: string, lang: Language, prompts: JudgePrompts, word2tokenEn: real, word2tokenZh: real,
                   backend: Oracle, ghost rendered: Result<string, Exception>, ghost shown: string,
                   ghost request: Request, ghost log0: seq<Request>)
    returns (e: Result<Evaluation, Exception>, records': map<string, JudgeRecord>, winners': seq<string>,
             judgements': seq<string>, judges': seq<Judge>)
    requires i < |committee| && RenderedAs(lang, debate, ref, evaluateTurn, rendered)
    requires (rendered.Ok? ==> shown == rendered.value) && request == FirstRequest(lang, prompts, word2tokenEn, word2tokenZh, shown)
    requires Step1At(committee, i, records, winners, judgements, judges, lang, prompts, backend, backend.log, log0, request, shown)
    modifies backend
    ensures e.Err? <==> rendered.Err? || Judged(backend.ReplyTo(|log0| + i), Some(shown)).Err?
    ensures rendered.Err? ==> e == Err(rendered.error) && backend.log == old(backend.log)
    ensures e.Ok? ==>
              && e.value.debateHistory == Some(shown)
              && |judges'| == i + 1 && judges' == judges + [judges'[i]] && fresh(judges'[i])
              && Step1At(committee, i + 1, records', winners', judgements', judges', lang, prompts, backend, backend.log, log0,
                            request, shown)
  {
    assert Step1SoFar(committee, i, records, winners, judgements, judges, lang, prompts, backend, backend.log, log0, request, shown);
    assert |judgements| == i;
    var judge;
    e, judge := JudgeNext(committee[i], debate, ref, evaluateTurn, lang, prompts, word2tokenEn, word2tokenZh, backend,
                          judgements, rendered, shown, log0);
    records', winners', judgements', judges' := records, winners, judgements, judges;
    if e.Ok? {
      records', winners', judgements', judges' := Seat(committee, i, records, winners, judgements, judges, judge, e.value,
                                                       lang, prompts, backend, backend.log, log0, request, shown);
    }
  }

  /** STEP1: each member of the committee, in order, is shown the debate and
      judges it once; a later judge of the same name overwrites the earlier
      one's entry, and the debate history is the one the first judge was
      shown. The votes all come in exactly when every reply gives a
      judgement. */
  method InitialVotes(committee: seq<string>, debate: DebateHistory, ref: Option<string>, evaluateTurn: string,
                      lang: Language, prompts: JudgePrompts, word2tokenEn: real, word2tokenZh: real, backend: Oracle)
    returns (r: Result<Initial, Exception>, judges: seq<Judge>)
    modifies backend
    ensures committee != [] && Rendered(lang, debate, ref, evaluateTurn).Err? ==>
              r == Err(Rendered(lang, debate, ref, evaluateTurn).error) && backend.log == old(backend.log)
    ensures committee == [] ==> r == Ok(Initial(map[], [], [], None)) && backend.log == old(backend.log)
    ensures Rendered(lang, debate, ref, evaluateTurn).Ok? ==>
              var shown := Rendered(lang, debate, ref, evaluateTurn).value;
              (r.Ok? <==> forall n :: |old(backend.log)| <= n < |old(backend.log)| + |committee| ==> Judged(backend.ReplyTo(n), Some(shown)).Ok?)
    ensures r.Ok? ==>
              var rs := r.value.records;
              var shown := if Rendered(lang, debate, ref, evaluateTurn).Ok? then Rendered(lang, debate, ref, evaluateTurn).value else "";
              && Seated(judges, committee, lang, prompts, backend)
              && (forall j :: j in judges ==> fresh(j))
              && AskedInTurn(backend, backend.log, old(backend.log), FirstRequest(lang, prompts, word2tokenEn, word2tokenZh, shown),
                             shown, r.value.judgements)
              && Recorded(committee, |committee|, rs, r.value.winners, r.value.judgements)
              && rs.Keys == Names(committee)
              && (committee != [] ==> r.value.debateHistory == Some(shown))
  {
    ghost var rendered := Rendered(lang, debate, ref, evaluateTurn);
    ghost var shown := if rendered.Ok? then rendered.value else "";
    ghost var request := FirstRequest(lang, prompts, word2tokenEn, word2tokenZh, shown);
    ghost var k;
    r, judges, k := Step1(committee, debate, ref, evaluateTurn, lang, prompts, word2tokenEn, word2tokenZh, backend,
                          rendered, shown, request);
    if r.Ok? {
      assert Step1SoFar(committee, |committee|, r.value.records, r.value.winners, r.value.judgements, judges, lang, prompts,
                        backend, backend.log, old(backend.log), request, shown);
      assert committee[..|committee|] == committee;
      AskedAll(backend, backend.log, old(backend.log), request, shown, r.value.judgements);
    }
  }

  /** The STEP1 loop, with `rendered` the transcript every judge is shown;
      on a failure, `k` is the member whose reply gave no judgement. */
  method Step1(committee: seq<string>, debate: DebateHistory, ref: Option<string>, evaluateTurn: string,
               lang: Language, prompts: JudgePrompts, word2tokenEn: real, word2tokenZh: real, backend: Oracle,
               ghost rendered: Result<string, Exception>, ghost shown: string, ghost request: Request)
    returns (r: Result<Initial, Exception>, judges: seq<Judge>, ghost k: nat)
    requires RenderedAs(lang, debate, ref, evaluateTurn, rendered)
    requires (rendered.Ok? ==> shown == rendered.value) && request == FirstRequest(lang, prompts, word2tokenEn, word2tokenZh, shown)
    modifies backend
    ensures committee != [] && rendered.Err? ==> r == Err(rendered.error) && backend.log == old(backend.log)
    ensures committee == [] ==> r == Ok(Initial(map[], [], [], None)) && backend.log == old(backend.log)
    ensures rendered.Ok? && r.Err? ==> k < |committee| && Judged(backend.ReplyTo(|old(backend.log)| + k), Some(shown)).Err?
    ensures r.Ok? ==>
              && Step1At(committee, |committee|, r.value.records, r.value.winners, r.value.judgements, judges, lang, prompts,
                            backend, backend.log, old(backend.log), request, shown)
              && (forall j :: j in judges ==> fresh(j))
              && (committee != [] ==> r.value.debateHistory == Some(shown))
  {
    var records: map<string, JudgeRecord> := map[];
    var winners: seq<string> := [];
    var judgements: seq<string> := [];
    var history: Option<string> := None;
    ghost var log0 := backend.log;
    judges := [];
    k := 0;
    for i := 0 to |committee|
      invariant Step1At(committee, i, records, winners, judgements, judges, lang, prompts, backend, backend.log, log0, request, shown)
      invariant forall j :: j in judges ==> fresh(j)
      invariant i > 0 ==> rendered.Ok? && history == Some(shown)
      invariant i == 0 ==> records == map[] && winners == [] && judgements == [] && history == None && backend.log == log0
    {
      var e;
      e, records, winners, judgements, judges := Step1Next(committee, i, records, winners, judgements, judges, debate, ref,
                                                           evaluateTurn, lang, prompts, word2tokenEn, word2tokenZh, backend,
                                                           rendered, shown, request, log0);
      if e.Err? {
        return Err(e.error), judges, i;
      }
      if i == 0 {
        history := e.value.debateHistory;
      }
    }
    r := Ok(Initial(records, winners, judgements, history));
  }

  // ---------------------------------------------------------------------
  // STEP2: the refinement rounds

  /** Every member of the committee has an entry with at least `n` verdicts. */
  predicate Covered(committee: seq<string>, records: map<string, JudgeRecord>, n: nat)
  {
    forall m :: m in committee ==> m in records && |records[m].winner| >= n
  }

  /** Every member's entry has exactly `n` verdicts. */
  predicate Even(committee: seq<string>, records: map<string, JudgeRecord>, n: nat)
  {
    forall m :: m in committee ==> m in records && |records[m].winner| == n
  }

  /** Where a refinement round stands after the first `j` judges: every entry
      grew from `records0`, the first `j` judges have voted, and, when the
      names are distinct and the round started even, each of them has
      exactly one verdict more and cast `Vote` of it. */
  predicate RoundSoFar(committee: seq<string>, records0: map<string, JudgeRecord>, round: nat, j: nat,
                       records: map<string, JudgeRecord>, votes: seq<string>)
    requires j <= |committee|
  {
    && records.Keys == records0.Keys == Names(committee) && Aligned(records)
    && (forall m :: m in records0 ==> Extends(records0[m], records[m]))
    && Covered(committee, records, round)
    && (forall x :: 0 <= x < j ==> |records[committee[x]].winner| >= round + 1)
    && |votes| == j
    && (Distinct(committee) && Even(committee, records0, round) ==>
          && (forall x :: 0 <= x < j ==> |records[committee[x]].winner| == round + 1
                                         && votes[x] == Vote(records[committee[x]].winner, round))
          && (forall x :: j <= x < |committee| ==> records[committee[x]] == records0[committee[x]]))
  }

  /** After a judge's verdict of the round: `judge_dict[name]["judgement"]`
      and `["winner"]` grow by one, and the vote is that verdict, or the
      judge's previous one (`winner[-2]`) where it is `error`. */
  method Refine(committee: seq<string>, records0: map<string, JudgeRecord>, round: nat, j: nat,
                records: map<string, JudgeRecord>, votes: seq<string>, e: Evaluation)
    returns (records': map<string, JudgeRecord>, votes': seq<string>)
    requires round >= 1 && j < |committee| && RoundSoFar(committee, records0, round, j, records, votes)
    requires e.winner == VerdictOf(e.judgement)
    ensures RoundSoFar(committee, records0, round, j + 1, records', votes')
    ensures committee[j] in records && committee[j] in records'
    ensures records'[committee[j]].judgement == records[committee[j]].judgement + [e.judgement]
    ensures forall n :: n in records && n != committee[j] ==> n in records' && records'[n] == records[n]
  {
    var name := committee[j];
    var entry := records[name];
    var winners := entry.winner + [e.winner];
    records' := records[name := JudgeRecord(winners, entry.judgement + [e.judgement])];
    assert records' == Appended(records, name, e);
    var vote := if e.winner == "error" then PyAt(winners, -2) else e.winner;
    votes' := votes + [vote];
    GrowthFacts(committee, records0, round, j, records, votes, e, records', votes');
    if Distinct(committee) && Even(committee, records0, round) {
      forall x | 0 <= x < |committee| ensures committee[x] in records0 && committee[x] in records {
        assert committee[x] in Names(committee);
      }
      assert committee[j] in committee;
      DistinctFacts(committee, records0, round, j, records, votes, e, records', votes');
    }
  }

  /** `judge_dict[name]` after the judge's verdict of a refinement round. */
  function Appended(records: map<string, JudgeRecord>, name: string, e: Evaluation): map<string, JudgeRecord>
    requires name in records
  {
    records[name := JudgeRecord(records[name].winner + [e.winner], records[name].judgement + [e.judgement])]
  }

  lemma GrowthFacts(committee: seq<string>, records0: map<string, JudgeRecord>, round: nat, j: nat,
                    records: map<string, JudgeRecord>, votes: seq<string>, e: Evaluation,
                    records': map<string, JudgeRecord>, votes': seq<string>)
    requires round >= 1 && j < |committee| && RoundSoFar(committee, records0, round, j, records, votes)
    requires e.winner == VerdictOf(e.judgement)
    requires records' == Appended(records, committee[j], e)
    requires |votes'| == j + 1
    ensures records'.Keys == records0.Keys == Names(committee) && Aligned(records')
    ensures forall m :: m in records0 ==> Extends(records0[m], records'[m])
    ensures Covered(committee, records', round)
    ensures forall x :: 0 <= x < j + 1 ==> |records'[committee[x]].winner| >= round + 1
  {
    AppendedAligned(records, committee[j], e);
    AppendedExtends(records0, records, committee[j], e);
  }

  lemma AppendedAligned(records: map<string, JudgeRecord>, name: string, e: Evaluation)
    requires name in records && Aligned(records) && e.winner == VerdictOf(e.judgement)
    ensures Aligned(Appended(records, name, e))
  {
  }

  lemma AppendedExtends(records0: map<string, JudgeRecord>, records: map<string, JudgeRecord>, name: string, e: Evaluation)
    requires name in records && records0.Keys == records.Keys
    requires forall m :: m in records0 ==> Extends(records0[m], records[m])
    ensures forall m :: m in records0 ==> Extends(records0[m], Appended(records, name, e)[m])
  {
    var entry, entry' := records[name], Appended(records, name, e)[name];
    assert entry'.winner[..|entry.winner|] == entry.winner;
    assert entry'.judgement[..|entry.judgement|] == entry.judgement;
    assert Extends(records0[name], records[name]);
    assert entry'.winner[..|records0[name].winner|] == records0[name].winner;
    assert entry'.judgement[..|records0[name].judgement|] == records0[name].judgement;
  }

  lemma DistinctFacts(committee: seq<string>, records0: map<string, JudgeRecord>, round: nat, j: nat,
                      records: map<string, JudgeRecord>, votes: seq<string>, e: Evaluation,
                      records': map<string, JudgeRecord>, votes': seq<string>)
    requires round >= 1 && j < |committee| && Distinct(committee) && |votes| == j
    requires forall x :: 0 <= x < |committee| ==> committee[x] in records0 && committee[x] in records
    requires |records0[committee[j]].winner| == round
    requires forall x :: 0 <= x < j ==>
               |records[committee[x]].winner| == round + 1 && votes[x] == Vote(records[committee[x]].winner, round)
    requires forall x :: j <= x < |committee| ==> records[committee[x]] == records0[committee[x]]
    requires records' == Appended(records, committee[j], e)
    requires var winners := records'[committee[j]].winner;
             votes' == votes + [if e.winner == "error" then PyAt(winners, -2) else e.winner]
    ensures forall x :: 0 <= x < j + 1 ==>
              |records'[committee[x]].winner| == round + 1 && votes'[x] == Vote(records'[committee[x]].winner, round)
    ensures forall x :: j + 1 <= x < |committee| ==> records'[committee[x]] == records0[committee[x]]
  {
    OthersUntouched(committee, j, records, records', e);
    var w := records'[committee[j]].winner;
    assert |w| == round + 1 && votes'[j] == Vote(w, round);
  }

  /** Appending to member `j`'s entry leaves the entries of the other,
      differently named members alone. */
  lemma OthersUntouched(committee: seq<string>, j: nat, records: map<string, JudgeRecord>, records': map<string, JudgeRecord>, e: Evaluation)
    requires j < |committee| && Distinct(committee) && committee[j] in records
    requires records' == Appended(records, committee[j], e)
    ensures forall x :: 0 <= x < |committee| && x != j && committee[x] in records ==>
              committee[x] in records' && records'[committee[x]] == records[committee[x]]
  {
    forall x | 0 <= x < |committee| && x != j && committee[x] in records
      ensures committee[x] in records' && records'[committee[x]] == records[committee[x]]
    {
      assert committee[x] != committee[j];
    }
  }

  /** The committee message `judge` reads in refinement round `round`: the
      other members' judgements of the round before, as the entries held
      them when the round began. */
  function MessageFor(lang: Language, instruction: string, committee: seq<string>, records0: map<string, JudgeRecord>,
                      round: nat, judge: string): string
    requires forall n :: n in committee ==> HasRound(records0, n, round)
  {
    CommitteeMessage(lang, instruction, Judgements(Others(committee, judge), records0, round))
  }

  /** `messages` holds, in committee order, the committee message each
      member reads in refinement round `round`. */
  predicate CommitteeMessages(messages: seq<string>, lang: Language, instruction: string, committee: seq<string>,
                              records0: map<string, JudgeRecord>, round: nat)
  {
    && (forall n :: n in committee ==> HasRound(records0, n, round))
    && |messages| == |committee|
    && forall x :: 0 <= x < |committee| ==> messages[x] == MessageFor(lang, instruction, committee, records0, round, committee[x])
  }

  /** The committee messages of a refinement round exist once every entry
      holds the round before. */
  lemma Shown(lang: Language, instruction: string, committee: seq<string>, records0: map<string, JudgeRecord>, round: nat)
    returns (messages: seq<string>)
    requires forall n :: n in committee ==> HasRound(records0, n, round)
    ensures CommitteeMessages(messages, lang, instruction, committee, records0, round)
  {
    messages := seq(|committee|, x requires 0 <= x < |committee| =>
                      MessageFor(lang, instruction, committee, records0, round, committee[x]));
  }

  /** The first `|judgements|` judges of a refinement round each asked the
      backend in turn, after the requests of `log0`: the request ends with
      the judge's committee message `messages[x]` and carries the judge's
      token budget, and `judgements[x]` is the judgement read off the reply. */
  predicate AskedAgain(backend: Oracle, judges: seq<Judge>, messages: seq<string>, log: seq<Request>, log0: seq<Request>,
                       judgements: seq<string>)
  {
    && |judgements| <= |judges| && |judgements| <= |messages|
    && |log| == |log0| + |judgements| && log[..|log0|] == log0
    && forall x :: 0 <= x < |judgements| ==>
         SentAgain(log[|log0| + x], backend.ReplyTo(|log0| + x), judges[x], messages[x], judgements[x])
  }

  /** One refinement request: it carries `judge`'s token budget and ends with
      `message`, and its reply gives `judgement`. */
  predicate SentAgain(sent: Request, reply: Reply, judge: Judge, message: string, judgement: string)
  {
    && sent.maxTokens == Some(JudgeBudget(judge.language, judge.word2tokenEn, judge.word2tokenZh))
    && sent.history != [] && sent.history[|sent.history| - 1] == Message(User, message)
    && Judged(reply, None) == Ok(judgement)
  }

  /** With distinct names, the first `|judgements|` entries of the round
      gained exactly their judge's new judgement. */
  predicate JudgedSoFar(committee: seq<string>, records0: map<string, JudgeRecord>, round: nat,
                        records: map<string, JudgeRecord>, judgements: seq<string>)
  {
    Distinct(committee) && Even(committee, records0, round) ==>
      forall x :: 0 <= x < |judgements| && x < |committee| ==>
        committee[x] in records0 && committee[x] in records
        && records[committee[x]].judgement == records0[committee[x]].judgement + [judgements[x]]
  }

  /** Entries that grew keep the judgements of earlier rounds, so the
      committee message is the same whether read off the old or the grown
      entries. */
  lemma {:induction false} JudgementsStable(names: seq<string>, records0: map<string, JudgeRecord>,
                                            records: map<string, JudgeRecord>, round: nat)
    requires round >= 1
    requires forall n :: n in names ==> HasRound(records0, n, round) && n in records && Extends(records0[n], records[n])
    ensures forall n :: n in names ==> HasRound(records, n, round)
    ensures Judgements(names, records, round) == Judgements(names, records0, round)
    decreases |names|
  {
    forall n | n in names ensures HasRound(records, n, round) {
      assert |records[n].judgement| >= |records0[n].judgement|;
    }
    if names != [] {
      var front := names[..|names| - 1];
      var n := names[|names| - 1];
      assert forall m :: m in front ==> m in names;
      JudgementsStable(front, records0, records, round);
      assert n in names;
      var j0 := records0[n].judgement;
      assert records[n].judgement[..|j0|][round - 1] == records[n].judgement[round - 1];
    }
  }

  /** `receive_committee_response`: the judge's chat gains the committee
      message of the round, read off the entries as they stand; the entries
      only grew since the round began, so it is the message of `records0`. */
  method Tell(judge: Judge, committee: seq<string>, records0: map<string, JudgeRecord>, round: nat,
              current: map<string, JudgeRecord>, ghost lang: Language, ghost prompts: JudgePrompts, ghost message: string)
    requires round >= 1 && judge.language == lang && judge.debateInstruction == prompts.debateInstruction
    requires forall n :: n in committee ==> HasRound(records0, n, round) && n in current && Extends(records0[n], current[n])
    requires message == MessageFor(lang, prompts.debateInstruction, committee, records0, round, judge.modelName)
    modifies judge
    ensures judge.chatHistory == old(judge.chatHistory) + [Message(User, message)]
  {
    ghost var others := Others(committee, judge.modelName);
    assert forall n :: n in others ==> n in committee;
    JudgementsStable(others, records0, current, round);
    judge.ReceiveCommitteeResponse(committee, current, round);
  }

  /** One judge's turn in a refinement round: it reads the committee message
      of the previous round and is asked again. */
  method AskAgain(committee: seq<string>, judges: seq<Judge>, records0: map<string, JudgeRecord>, round: nat, j: nat,
                  current: map<string, JudgeRecord>, ghost messages: seq<string>, ghost judgements: seq<string>,
                  ghost lang: Language, ghost prompts: JudgePrompts, backend: Oracle, ghost log0: seq<Request>)
    returns (e: Result<Evaluation, Exception>)
    requires round >= 1 && j < |committee| && Seated(judges, committee, lang, prompts, backend)
    requires forall n :: n in committee ==> HasRound(records0, n, round) && n in current && Extends(records0[n], current[n])
    requires AskedAgain(backend, judges, messages, backend.log, log0, judgements) && |judgements| == j
    requires j < |messages|
    requires messages[j] == MessageFor(lang, prompts.debateInstruction, committee, records0, round, committee[j])
    modifies judges[j], backend
    ensures e.Err? <==> Judged(backend.ReplyTo(|log0| + j), None).Err?
    ensures e.Ok? ==> e.value.winner == VerdictOf(e.value.judgement)
                      && AskedAgain(backend, judges, messages, backend.log, log0, judgements + [e.value.judgement])
  {
    var judge := judges[j];
    Tell(judge, committee, records0, round, current, lang, prompts, messages[j]);
    e := judge.GetEvaluation(None, None, "LD");
    if e.Ok? {
      AskedSnocAgain(backend, judges, messages, backend.log, log0, judgements, e.value.judgement);
    }
  }

  /** Where refinement round `round` stands after its first `j` judges: their
      entries and votes (`RoundSoFar`), their requests in turn, each ending
      with the judge's committee message (`AskedAgain`), and, with distinct
      names, the judgement each entry gained (`JudgedSoFar`). */
  predicate Refining(committee: seq<string>, judges: seq<Judge>, records0: map<string, JudgeRecord>, round: nat, j: nat,
                     current: map<string, JudgeRecord>, votes: seq<string>, messages: seq<string>, backend: Oracle,
                     log: seq<Request>, log0: seq<Request>, judgements: seq<string>)
    requires j <= |committee|
  {
    && RoundSoFar(committee, records0, round, j, current, votes)
    && AskedAgain(backend, judges, messages, log, log0, judgements) && |judgements| == j
    && JudgedSoFar(committee, records0, round, current, judgements)
  }

  /** Before its first judge, a round has changed nothing and asked nothing. */
  lemma RefiningStart(committee: seq<string>, judges: seq<Judge>, records: map<string, JudgeRecord>, round: nat,
                      messages: seq<string>, backend: Oracle, log: seq<Request>)
    requires records.Keys == Names(committee) && Aligned(records) && Covered(committee, records, round)
    ensures Refining(committee, judges, records, round, 0, records, [], messages, backend, log, log, [])
  {
    forall m | m in records ensures Extends(records[m], records[m]) {
      assert records[m].winner[..|records[m].winner|] == records[m].winner;
      assert records[m].judgement[..|records[m].judgement|] == records[m].judgement;
    }
    assert log[..|log|] == log;
  }

  /** One judge's turn in a refinement round, with its entry and vote
      updated from the new judgement. */
  method Reconsider(committee: seq<string>, judges: seq<Judge>, records0: map<string, JudgeRecord>, round: nat, j: nat,
                    current: map<string, JudgeRecord>, votes: seq<string>, ghost messages: seq<string>, ghost judgements: seq<string>,
                    ghost lang: Language, ghost prompts: JudgePrompts, backend: Oracle, ghost log0: seq<Request>)
    returns (e: Result<Evaluation, Exception>, current': map<string, JudgeRecord>, votes': seq<string>, ghost judgements': seq<string>)
    requires round >= 1 && j < |committee| && Seated(judges, committee, lang, prompts, backend)
    requires records0.Keys == Names(committee) && (forall n :: n in committee ==> HasRound(records0, n, round))
    requires Refining(committee, judges, records0, round, j, current, votes, messages, backend, backend.log, log0, judgements)
    requires j < |messages|
    requires messages[j] == MessageFor(lang, prompts.debateInstruction, committee, records0, round, committee[j])
    modifies judges[j], backend
    ensures e.Err? <==> Judged(backend.ReplyTo(|log0| + j), None).Err?
    ensures e.Ok? ==> Refining(committee, judges, records0, round, j + 1, current', votes', messages, backend, backend.log, log0, judgements')
  {
    assert forall n :: n in committee ==> n in Names(committee);
    e := AskAgain(committee, judges, records0, round, j, current, messages, judgements, lang, prompts, backend, log0);
    current', votes', judgements' := current, votes, judgements;
    if e.Ok? {
      current', votes' := Refine(committee, records0, round, j, current, votes, e.value);
      judgements' := judgements + [e.value.judgement];
      if Distinct(committee) && Even(committee, records0, round) {
        JudgedSnoc(committee, records0, round, j, current, votes, e.value.judgement, judgements, current');
      }
    }
  }

  /** Every member's entry holds the judgement of the round before. */
  lemma HasRounds(committee: seq<string>, records0: map<string, JudgeRecord>, round: nat)
    requires round >= 1 && records0.Keys == Names(committee) && Aligned(records0) && Covered(committee, records0, round)
    ensures forall n :: n in committee ==> HasRound(records0, n, round)
  {
    forall n | n in committee ensures HasRound(records0, n, round) {
      assert |records0[n].winner| == |records0[n].judgement|;
    }
  }

  lemma AskedSnocAgain(backend: Oracle, judges: seq<Judge>, messages: seq<string>, log: seq<Request>, log0: seq<Request>,
                       judgements: seq<string>, judgement: string)
    requires log != [] && AskedAgain(backend, judges, messages, log[..|log| - 1], log0, judgements)
    requires |judgements| < |judges| && |judgements| < |messages|
    requires SentAgain(log[|log| - 1], backend.ReplyTo(|log0| + |judgements|), judges[|judgements|], messages[|judgements|], judgement)
    ensures AskedAgain(backend, judges, messages, log, log0, judgements + [judgement])
  {
    var front := log[..|log| - 1];
    var judgements' := judgements + [judgement];
    assert |front| == |log0| + |judgements|;
    assert log[..|log0|] == front[..|log0|];
    forall x | 0 <= x < |judgements'|
      ensures SentAgain(log[|log0| + x], backend.ReplyTo(|log0| + x), judges[x], messages[x], judgements'[x])
    {
      if x < |judgements| {
        assert SentAgain(front[|log0| + x], backend.ReplyTo(|log0| + x), judges[x], messages[x], judgements[x]);
      }
    }
  }

  lemma JudgedSnoc(committee: seq<string>, records0: map<string, JudgeRecord>, round: nat, j: nat,
                   current: map<string, JudgeRecord>, votes: seq<string>, judgement: string, judgements: seq<string>,
                   current': map<string, JudgeRecord>)
    requires j < |committee| && |judgements| == j && Distinct(committee) && Even(committee, records0, round)
    requires RoundSoFar(committee, records0, round, j, current, votes)
    requires JudgedSoFar(committee, records0, round, current, judgements)
    requires committee[j] in current && committee[j] in current'
    requires current'[committee[j]].judgement == current[committee[j]].judgement + [judgement]
    requires forall n :: n in current && n != committee[j] ==> n in current' && current'[n] == current[n]
    ensures JudgedSoFar(committee, records0, round, current', judgements + [judgement])
  {
    assert committee[j] in committee;
    assert current[committee[j]] == records0[committee[j]];
    forall x | 0 <= x < j ensures committee[x] in current && committee[x] != committee[j] {
      assert committee[x] in committee;
    }
  }

  /** One refinement round `round_i`: every judge, in committee order, reads
      the committee message of the previous round and judges again. The
      round's requests follow one another, each ending with its judge's
      committee message, and with distinct names each entry gains the
      judgement read off its reply. */
  method RefineRound(committee: seq<string>, judges: seq<Judge>, records: map<string, JudgeRecord>, round: nat,
                     ghost lang: Language, ghost prompts: JudgePrompts, backend: Oracle)
    returns (r: Result<map<string, JudgeRecord>, Exception>, votes: seq<string>,
             ghost messages: seq<string>, ghost judgements: seq<string>)
    requires round >= 1 && Seated(judges, committee, lang, prompts, backend)
    requires records.Keys == Names(committee) && Aligned(records) && Covered(committee, records, round)
    modifies (set x | x in judges), backend
    ensures r.Ok? <==> forall n :: |old(backend.log)| <= n < |old(backend.log)| + |committee| ==> Judged(backend.ReplyTo(n), None).Ok?
    ensures CommitteeMessages(messages, lang, prompts.debateInstruction, committee, records, round)
    ensures r.Ok? ==> Refining(committee, judges, records, round, |committee|, r.value, votes, messages,
                               backend, backend.log, old(backend.log), judgements)
  {
    var current := records;
    votes := [];
    judgements := [];
    ghost var log0 := backend.log;
    HasRounds(committee, records, round);
    messages := Shown(lang, prompts.debateInstruction, committee, records, round);
    RefiningStart(committee, judges, records, round, messages, backend, log0);
    for j := 0 to |committee|
      invariant Refining(committee, judges, records, round, j, current, votes, messages, backend, backend.log, log0, judgements)
    {
      var e;
      e, current, votes, judgements := Reconsider(committee, judges, records, round, j, current, votes, messages, judgements,
                                                  lang, prompts, backend, log0);
      if e.Err? {
        return Err(e.error), votes, messages, judgements;
      }
    }
    AgainAll(backend, judges, messages, backend.log, log0, judgements);
    r := Ok(current);
  }

  /** Every reply of the round gave a judgement. */
  lemma AgainAll(backend: Oracle, judges: seq<Judge>, messages: seq<string>, log: seq<Request>, log0: seq<Request>,
                 judgements: seq<string>)
    requires AskedAgain(backend, judges, messages, log, log0, judgements)
    ensures forall n :: |log0| <= n < |log0| + |judgements| ==> Judged(backend.ReplyTo(n), None).Ok?
  {
    forall n | |log0| <= n < |log0| + |judgements| ensures Judged(backend.ReplyTo(n), None).Ok? {
      var x := n - |log0|;
      assert SentAgain(log[|log0| + x], backend.ReplyTo(|log0| + x), judges[x], messages[x], judgements[x]);
    }
  }

  /** The refinement rounds held so far as the backend saw them: after the
      requests of `log0`, round after round, one request per judge in
      committee order (`AskedAgain`), round `t + 1`'s ending with the
      messages `messages[t]` and giving the judgements `judgements[t]`. */
  predicate Discussed(backend: Oracle, judges: seq<Judge>, size: nat, log: seq<Request>, log0: seq<Request>,
                      messages: seq<seq<string>>, judgements: seq<seq<string>>)
    decreases |judgements|
  {
    && |messages| == |judgements| && |log0| <= |log| && log[..|log0|] == log0
    && (judgements != [] ==>
          && |log| >= |log0| + size && |judgements[|judgements| - 1]| == size
          && var mid := log[..|log| - size];
             && Discussed(backend, judges, size, mid, log0, messages[..|messages| - 1], judgements[..|judgements| - 1])
             && AskedAgain(backend, judges, messages[|messages| - 1], log, mid, judgements[|judgements| - 1]))
    && (judgements == [] ==> log == log0)
  }

  /** No round held, nothing asked. */
  lemma DiscussedNone(backend: Oracle, judges: seq<Judge>, size: nat, log: seq<Request>)
    ensures Discussed(backend, judges, size, log, log, [], [])
  {
    assert log[..|log|] == log;
  }

  /** A round whose requests follow those of the rounds before. */
  lemma DiscussedSnoc(backend: Oracle, judges: seq<Judge>, size: nat, log: seq<Request>, log': seq<Request>, log0: seq<Request>,
                      messages: seq<seq<string>>, judgements: seq<seq<string>>, roundMessages: seq<string>, roundJudgements: seq<string>)
    requires Discussed(backend, judges, size, log, log0, messages, judgements)
    requires AskedAgain(backend, judges, roundMessages, log', log, roundJudgements) && |roundJudgements| == size
    ensures Discussed(backend, judges, size, log', log0, messages + [roundMessages], judgements + [roundJudgements])
  {
    assert (messages + [roundMessages])[..|messages|] == messages;
    assert (judgements + [roundJudgements])[..|judgements|] == judgements;
    assert log'[..|log'| - size] == log;
    assert log'[..|log0|] == log[..|log0|];
  }

  /** What the entries hold of the judging so far: the committee message of
      round `t + 1` is read off them, and with distinct names each member's
      first judgement is its STEP1 judgement `first[x]` and its judgement of
      round `t + 1` the one read off its reply, `judgements[t][x]`. */
  predicate Held(committee: seq<string>, records: map<string, JudgeRecord>, lang: Language, instruction: string,
                 first: seq<string>, messages: seq<seq<string>>, judgements: seq<seq<string>>)
  {
    && |messages| == |judgements|
    && Relayed(committee, records, lang, instruction, messages)
    && (Distinct(committee) ==> Retained(committee, records, first, judgements))
  }

  /** Round `t + 1`'s committee messages are `messages[t]`, read off `records`. */
  predicate Relayed(committee: seq<string>, records: map<string, JudgeRecord>, lang: Language, instruction: string,
                    messages: seq<seq<string>>)
    decreases |messages|
  {
    messages != [] ==>
      && Relayed(committee, records, lang, instruction, messages[..|messages| - 1])
      && CommitteeMessages(messages[|messages| - 1], lang, instruction, committee, records, |messages|)
  }

  /** Each member's entry holds `first[x]`, then `judgements[t][x]` for each round. */
  predicate Retained(committee: seq<string>, records: map<string, JudgeRecord>, first: seq<string>, judgements: seq<seq<string>>)
  {
    forall x :: 0 <= x < |committee| ==> RetainedAt(committee, records, first, judgements, x)
  }

  /** Member `x`'s entry holds `first[x]`, then `judgements[t][x]` for each round. */
  predicate RetainedAt(committee: seq<string>, records: map<string, JudgeRecord>, first: seq<string>,
                       judgements: seq<seq<string>>, x: nat)
    requires x < |committee|
  {
    && committee[x] in records && x < |first| && |records[committee[x]].judgement| > |judgements|
    && records[committee[x]].judgement[0] == first[x]
    && forall t :: 0 <= t < |judgements| ==>
         x < |judgements[t]| && records[committee[x]].judgement[t + 1] == judgements[t][x]
  }

  /** STEP1's entries keep, with distinct names, each member's judgement. */
  lemma HeldFirst(committee: seq<string>, first: Initial, lang: Language, instruction: string)
    requires Recorded(committee, |committee|, first.records, first.winners, first.judgements)
    ensures Held(committee, first.records, lang, instruction, first.judgements, [], [])
  {
    if Distinct(committee) {
      forall x | 0 <= x < |committee|
        ensures committee[x] in first.records && first.records[committee[x]].judgement == [first.judgements[x]]
      {
        assert LastIn(committee, x, |committee|);
      }
    }
  }

  /** The committee messages of a round read the same off entries that grew. */
  lemma MessagesStable(messages: seq<string>, lang: Language, instruction: string, committee: seq<string>,
                       records0: map<string, JudgeRecord>, records: map<string, JudgeRecord>, round: nat)
    requires round >= 1 && CommitteeMessages(messages, lang, instruction, committee, records0, round)
    requires forall n :: n in committee ==> n in records && Extends(records0[n], records[n])
    ensures CommitteeMessages(messages, lang, instruction, committee, records, round)
  {
    JudgementsStable(committee, records0, records, round);
    forall x | 0 <= x < |committee|
      ensures messages[x] == MessageFor(lang, instruction, committee, records, round, committee[x])
    {
      var others := Others(committee, committee[x]);
      JudgementsStable(others, records0, records, round);
    }
  }

  /** A refinement round keeps what the entries held and adds its own. */
  lemma HeldNext(committee: seq<string>, records0: map<string, JudgeRecord>, records: map<string, JudgeRecord>,
                 lang: Language, instruction: string, first: seq<string>, messages: seq<seq<string>>,
                 judgements: seq<seq<string>>, round: nat, votes: seq<string>, roundMessages: seq<string>,
                 roundJudgements: seq<string>)
    requires round == |judgements| + 1 && Held(committee, records0, lang, instruction, first, messages, judgements)
    requires Aligned(records0) && (Distinct(committee) ==> Even(committee, records0, round))
    requires RoundSoFar(committee, records0, round, |committee|, records, votes)
    requires CommitteeMessages(roundMessages, lang, instruction, committee, records0, round)
    requires JudgedSoFar(committee, records0, round, records, roundJudgements) && |roundJudgements| == |committee|
    ensures Held(committee, records, lang, instruction, first, messages + [roundMessages], judgements + [roundJudgements])
  {
    forall n | n in committee ensures n in records0 && n in records && Extends(records0[n], records[n]) {
      assert n in Names(committee);
    }
    RelayedNext(committee, records0, records, lang, instruction, messages, roundMessages);
    if Distinct(committee) {
      RetainedNext(committee, records0, records, first, judgements, roundJudgements);
    }
  }

  lemma RelayedNext(committee: seq<string>, records0: map<string, JudgeRecord>, records: map<string, JudgeRecord>,
                    lang: Language, instruction: string, messages: seq<seq<string>>, roundMessages: seq<string>)
    requires Relayed(committee, records0, lang, instruction, messages)
    requires CommitteeMessages(roundMessages, lang, instruction, committee, records0, |messages| + 1)
    requires forall n :: n in committee ==> n in records0 && n in records && Extends(records0[n], records[n])
    ensures Relayed(committee, records, lang, instruction, messages + [roundMessages])
  {
    RelayedStable(committee, records0, records, lang, instruction, messages);
    MessagesStable(roundMessages, lang, instruction, committee, records0, records, |messages| + 1);
    assert (messages + [roundMessages])[..|messages|] == messages;
  }

  /** The messages relayed so far read the same off entries that grew. */
  lemma {:induction false} RelayedStable(committee: seq<string>, records0: map<string, JudgeRecord>, records: map<string, JudgeRecord>,
                                         lang: Language, instruction: string, messages: seq<seq<string>>)
    requires Relayed(committee, records0, lang, instruction, messages)
    requires forall n :: n in committee ==> n in records0 && n in records && Extends(records0[n], records[n])
    ensures Relayed(committee, records, lang, instruction, messages)
    decreases |messages|
  {
    if messages != [] {
      RelayedStable(committee, records0, records, lang, instruction, messages[..|messages| - 1]);
      MessagesStable(messages[|messages| - 1], lang, instruction, committee, records0, records, |messages|);
    }
  }

  lemma RetainedNext(committee: seq<string>, records0: map<string, JudgeRecord>, records: map<string, JudgeRecord>,
                     first: seq<string>, judgements: seq<seq<string>>, roundJudgements: seq<string>)
    requires Retained(committee, records0, first, judgements) && |roundJudgements| == |committee|
    requires forall x :: 0 <= x < |committee| ==>
               committee[x] in records0 && committee[x] in records && |records0[committee[x]].judgement| == |judgements| + 1
               && records[committee[x]].judgement == records0[committee[x]].judgement + [roundJudgements[x]]
    ensures Retained(committee, records, first, judgements + [roundJudgements])
  {
    var all := judgements + [roundJudgements];
    forall x | 0 <= x < |committee| ensures RetainedAt(committee, records, first, all, x) {
      assert RetainedAt(committee, records0, first, judgements, x);
      var j0, j := records0[committee[x]].judgement, records[committee[x]].judgement;
      forall t | 0 <= t < |all| ensures x < |all[t]| && j[t + 1] == all[t][x] {
        if t < |judgements| {
          assert all[t] == judgements[t] && j[t + 1] == j0[t + 1];
        }
      }
    }
  }

  // ---------------------------------------------------------------------
  // `peer_evaluate`

  /** Where `peer_evaluate` stands after `t` refinement rounds: each member's
      entry holds at least `t + 1` verdicts, each matching its judgement, and
      `final_winner` one majority per round. When the names are distinct,
      every entry holds exactly `t + 1` verdicts and round `s`'s majority is
      the majority of the votes `RoundVotes` reads off the entries. */
  predicate RoundsSoFar(committee: seq<string>, records: map<string, JudgeRecord>, finalWinner: seq<string>, t: nat)
  {
    && records.Keys == Names(committee) && Aligned(records) && Covered(committee, records, t + 1)
    && |finalWinner| == t + 1
    && (Distinct(committee) ==>
          && Even(committee, records, t + 1)
          && forall s :: 0 <= s <= t ==> MajorityVote(RoundVotes(committee, records, s)) == Ok(finalWinner[s]))
  }

  /** STEP1's entries and majority give the state before any refinement. */
  lemma FirstRound(committee: seq<string>, first: Initial, vote: string)
    requires first.records.Keys == Names(committee) && Aligned(first.records)
    requires forall n :: n in first.records ==> |first.records[n].winner| == 1
    requires |first.winners| == |committee|
    requires forall i :: 0 <= i < |committee| && LastIn(committee, i, |committee|) ==>
               first.records[committee[i]].winner == [first.winners[i]]
    requires MajorityVote(first.winners) == Ok(vote)
    ensures RoundsSoFar(committee, first.records, [vote], 0)
  {
    forall m | m in committee ensures m in first.records && |first.records[m].winner| == 1 {
      assert m in Names(committee);
    }
    if Distinct(committee) {
      FirstVotes(committee, first);
    }
  }

  /** With distinct names every member is the last of its name, so round 0's
      votes are STEP1's `winners`. */
  lemma FirstVotes(committee: seq<string>, first: Initial)
    requires Distinct(committee) && |first.winners| == |committee|
    requires forall m :: m in committee ==> m in first.records && |first.records[m].winner| == 1
    requires forall i :: 0 <= i < |committee| && LastIn(committee, i, |committee|) ==>
               first.records[committee[i]].winner == [first.winners[i]]
    ensures RoundVotes(committee, first.records, 0) == first.winners
  {
    forall i | 0 <= i < |committee| ensures RoundVotes(committee, first.records, 0)[i] == first.winners[i] {
      assert LastIn(committee, i, |committee|);
    }
  }

  /** A refinement round and its majority extend the state by one round. */
  lemma NextRound(committee: seq<string>, records: map<string, JudgeRecord>, finalWinner: seq<string>, t: nat,
                  records': map<string, JudgeRecord>, votes: seq<string>, vote: string)
    requires RoundsSoFar(committee, records, finalWinner, t)
    requires RoundSoFar(committee, records, t + 1, |committee|, records', votes)
    requires MajorityVote(votes) == Ok(vote)
    ensures RoundsSoFar(committee, records', finalWinner + [vote], t + 1)
  {
    CoveredNext(committee, records, t, records', votes);
    if Distinct(committee) {
      EvenNext(committee, records, t, records', votes);
      StableNext(committee, records, finalWinner, t, records', vote);
    }
  }

  lemma CoveredNext(committee: seq<string>, records: map<string, JudgeRecord>, t: nat,
                    records': map<string, JudgeRecord>, votes: seq<string>)
    requires RoundSoFar(committee, records, t + 1, |committee|, records', votes)
    ensures Covered(committee, records', t + 2)
  {
    forall m | m in committee ensures |records'[m].winner| >= t + 2 {
      var x :| 0 <= x < |committee| && committee[x] == m;
    }
  }

  lemma EvenNext(committee: seq<string>, records: map<string, JudgeRecord>, t: nat,
                 records': map<string, JudgeRecord>, votes: seq<string>)
    requires Distinct(committee) && Even(committee, records, t + 1)
    requires RoundSoFar(committee, records, t + 1, |committee|, records', votes)
    ensures Even(committee, records', t + 2) && votes == RoundVotes(committee, records', t + 1)
  {
    forall m | m in committee ensures |records'[m].winner| == t + 2 {
      var x :| 0 <= x < |committee| && committee[x] == m;
    }
  }

  lemma StableNext(committee: seq<string>, records: map<string, JudgeRecord>, finalWinner: seq<string>, t: nat,
                   records': map<string, JudgeRecord>, vote: string)
    requires Distinct(committee) && Even(committee, records, t + 1) && Even(committee, records', t + 2)
    requires |finalWinner| == t + 1
    requires forall m :: m in records ==> m in records' && Extends(records[m], records'[m])
    requires forall s :: 0 <= s <= t ==> MajorityVote(RoundVotes(committee, records, s)) == Ok(finalWinner[s])
    requires MajorityVote(RoundVotes(committee, records', t + 1)) == Ok(vote)
    ensures forall s :: 0 <= s <= t + 1 ==> MajorityVote(RoundVotes(committee, records', s)) == Ok((finalWinner + [vote])[s])
  {
    forall s | 0 <= s <= t + 1
      ensures MajorityVote(RoundVotes(committee, records', s)) == Ok((finalWinner + [vote])[s])
    {
      if s <= t {
        RoundVotesStable(committee, records, records', s);
      }
    }
  }

  /** STEP2: the refinement rounds `round_i = 1, ..., rounds`, each followed
      by its majority. The rounds' requests follow one another on the
      backend, and the entries hold STEP1's judgements (`first`) and each
      round's judgements, read off the replies. */
  method Refinements(committee: seq<string>, judges: seq<Judge>, records: map<string, JudgeRecord>, finalWinner: seq<string>,
                     rounds: nat, ghost lang: Language, ghost prompts: JudgePrompts, backend: Oracle, ghost first: seq<string>)
    returns (r: Result<(map<string, JudgeRecord>, seq<string>), Exception>,
             ghost messages: seq<seq<string>>, ghost judgements: seq<seq<string>>)
    requires RoundsSoFar(committee, records, finalWinner, 0) && Seated(judges, committee, lang, prompts, backend)
    requires Held(committee, records, lang, prompts.debateInstruction, first, [], [])
    modifies (set x | x in judges), backend
    ensures r.Ok? ==>
              && RoundsSoFar(committee, r.value.0, r.value.1, rounds)
              && |judgements| == rounds
              && Discussed(backend, judges, |committee|, backend.log, old(backend.log), messages, judgements)
              && Held(committee, r.value.0, lang, prompts.debateInstruction, first, messages, judgements)
  {
    var current, winners := records, finalWinner;
    messages, judgements := [], [];
    DiscussedNone(backend, judges, |committee|, backend.log);
    for roundI := 1 to rounds + 1
      invariant RoundsSoFar(committee, current, winners, roundI - 1)
      invariant |judgements| == roundI - 1
      invariant Discussed(backend, judges, |committee|, backend.log, old(backend.log), messages, judgements)
      invariant Held(committee, current, lang, prompts.debateInstruction, first, messages, judgements)
    {
      ghost var log := backend.log;
      var next, votes;
      ghost var roundMessages, roundJudgements;
      next, votes, roundMessages, roundJudgements := RefineRound(committee, judges, current, roundI, lang, prompts, backend);
      if next.Err? {
        return Err(next.error), messages, judgements;
      }
      var v := MajorityVote(votes);
      if v.Err? {
        return Err(v.error), messages, judgements;
      }
      NextRound(committee, current, winners, roundI - 1, next.value, votes, v.value);
      HeldNext(committee, current, next.value, lang, prompts.debateInstruction, first, messages, judgements, roundI, votes,
               roundMessages, roundJudgements);
      DiscussedSnoc(backend, judges, |committee|, log, backend.log, old(backend.log), messages, judgements,
                    roundMessages, roundJudgements);
      current, winners := next.value, winners + [v.value];
      messages, judgements := messages + [roundMessages], judgements + [roundJudgements];
    }
    r := Ok((current, winners));
  }

  /** How the judging of `peer_evaluate` went, as the model records it: the
      judges STEP1 created, their STEP1 judgements, where STEP1's requests
      end in the backend log, and each refinement round's committee
      messages and judgements. */
  datatype Proceedings = Proceedings(judges: seq<Judge>, first: seq<string>, step1End: nat,
                                     messages: seq<seq<string>>, judgements: seq<seq<string>>)

  /** `p` is how the judging went after the requests of `log0`: STEP1's
      judges, one per member, each sent the transcript `shown` in turn and
      gave the judgement read off its reply (`AskedInTurn`); the `rounds`
      refinement rounds followed (`Discussed`); and the entries `records`
      hold what the replies gave (`Held`). */
  ghost predicate Heard(p: Proceedings, committee: seq<string>, lang: Language, prompts: JudgePrompts, word2tokenEn: real,
                        word2tokenZh: real, shown: string, backend: Oracle, log: seq<Request>, log0: seq<Request>,
                        records: map<string, JudgeRecord>, rounds: nat)
  {
    && |log0| <= p.step1End <= |log|
    && AskedInTurn(backend, log[..p.step1End], log0, FirstRequest(lang, prompts, word2tokenEn, word2tokenZh, shown), shown, p.first)
    && |p.first| == |committee| && Seated(p.judges, committee, lang, prompts, backend)
    && Discussed(backend, p.judges, |committee|, log, log[..p.step1End], p.messages, p.judgements)
    && |p.judgements| == rounds
    && Held(committee, records, lang, prompts.debateInstruction, p.first, p.messages, p.judgements)
  }

  /** The judging part of the fresh path: STEP1, its majority, then STEP2;
      only the backend and the judges it creates change. */
  method Verdicts(committee: seq<string>, debate: DebateHistory, ref: Option<string>, judgeDebateRounds: int, evaluateTurn: string,
                  lang: Language, prompts: JudgePrompts, word2tokenEn: real, word2tokenZh: real, backend: Oracle)
    returns (r: Result<(Option<string>, map<string, JudgeRecord>, seq<string>), Exception>, ghost p: Proceedings)
    modifies backend
    ensures committee == [] ==> r == Err(IndexError)
    ensures r.Ok? ==>
              && Rendered(lang, debate, ref, evaluateTurn).Ok?
              && r.value.0 == Some(Rendered(lang, debate, ref, evaluateTurn).value)
              && RoundsSoFar(committee, r.value.1, r.value.2, if judgeDebateRounds > 0 then judgeDebateRounds else 0)
              && Heard(p, committee, lang, prompts, word2tokenEn, word2tokenZh, Rendered(lang, debate, ref, evaluateTurn).value,
                       backend, backend.log, old(backend.log), r.value.1, if judgeDebateRounds > 0 then judgeDebateRounds else 0)
  {
    p := Proceedings([], [], 0, [], []);
    var first, judges := InitialVotes(committee, debate, ref, evaluateTurn, lang, prompts, word2tokenEn, word2tokenZh, backend);
    if first.Err? {
      return Err(first.error), p;
    }
    var vote := MajorityVote(first.value.winners);
    if vote.Err? {
      return Err(vote.error), p;
    }
    FirstRound(committee, first.value, vote.value);
    HeldFirst(committee, first.value, lang, prompts.debateInstruction);
    ghost var step1 := backend.log;
    // `range(1, judge_debate_rounds + 1)`, empty unless the count is positive
    var rounds := if judgeDebateRounds > 0 then judgeDebateRounds else 0;
    var refined;
    ghost var messages, judgements;
    refined, messages, judgements := Refinements(committee, judges, first.value.records, [vote.value], rounds, lang, prompts,
                                                 backend, first.value.judgements);
    if refined.Err? {
      return Err(refined.error), p;
    }
    var (records, finalWinner) := refined.value;
    p := Proceedings(judges, first.value.judgements, |step1|, messages, judgements);
    assert backend.log[..|step1|] == step1;
    r := Ok((first.value.debateHistory, records, finalWinner));
  }

  /** STEP0 for committee member `member` and question `id`, as
      `ReferenceAnswer` does it: the `KeyError` of a language the cache lacks;
      the cached answer under `str(id)`; or one backend call whose answer
      (`reply`) is stored under `id`. */
  ghost predicate RefAsked(answers: map<Language, map<string, map<CacheKey, string>>>,
                           answers': map<Language, map<string, map<CacheKey, string>>>,
                           instructions: RefInstructions, lang: Language, member: string, id: int, question: string,
                           reply: Reply, r: Result<Option<string>, Exception>)
  {
    && (lang !in answers ==> r == Err(MissingLanguage) && answers' == answers)
    && (lang in answers && Cached(answers, lang, member, id).Some? ==>
          r == Ok(Cached(answers, lang, member, id)) && answers' == Seeded(answers, lang, member))
    && (lang in answers && Cached(answers, lang, member, id).None? ==>
          var made := RefAnswerOf(reply, RefPrompt(instructions, lang, question));
          && r == (if made.Ok? then Ok(Some(made.value)) else Err(made.error))
          && answers' == if made.Ok? then Stored(answers, lang, member, id, made.value) else Seeded(answers, lang, member))
  }

  /** The backend call STEP0 makes: one exactly when the cache holds the
      language but no answer under `str(id)`. */
  function RefCalls(answers: map<Language, map<string, map<CacheKey, string>>>, instructions: RefInstructions,
                    lang: Language, member: string, id: int, question: string): seq<Request>
  {
    if lang in answers && Cached(answers, lang, member, id).None?
    then [Request([Message(User, RefPrompt(instructions, lang, question))], None)]
    else []
  }

  /** The backend calls of STEP0 in `peer_evaluate`: a reference answer is
      asked of the first member only for a domain that needs one. */
  function Step0Calls(answers: map<Language, map<string, map<CacheKey, string>>>, instructions: RefInstructions,
                      lang: Language, committee: seq<string>, debate: DebateHistory): seq<Request>
  {
    if debate.question.domain in NeedRefDomains(lang) && committee != []
    then RefCalls(answers, instructions, lang, committee[0], debate.gamekey.0, debate.question.question)
    else []
  }

  /** The reference answer `peer_evaluate` hands its judges: only for the
      domains that need one, asked of the first member of the committee. */
  method RefStep(committee: seq<string>, debate: DebateHistory, lang: Language, cache: RefAnswers, backend: Oracle)
    returns (r: Result<Option<string>, Exception>)
    modifies cache, backend
    ensures debate.question.domain !in NeedRefDomains(lang) ==>
              r == Ok(None) && cache.answers == old(cache.answers) && backend.log == old(backend.log)
    ensures debate.question.domain in NeedRefDomains(lang) && committee == [] ==>
              r == Err(IndexError) && cache.answers == old(cache.answers) && backend.log == old(backend.log)
    ensures debate.question.domain in NeedRefDomains(lang) && committee != [] ==>
              && RefAsked(old(cache.answers), cache.answers, cache.instructions, lang, committee[0], debate.gamekey.0,
                          debate.question.question, backend.ReplyTo(|old(backend.log)|), r)
              && backend.log == old(backend.log) + RefCalls(old(cache.answers), cache.instructions, lang, committee[0],
                                                            debate.gamekey.0, debate.question.question)
    ensures r.Ok? ==> (r.value.Some? <==> debate.question.domain in NeedRefDomains(lang))
    ensures backend.log == old(backend.log) + Step0Calls(old(cache.answers), cache.instructions, lang, committee, debate)
  {
    if debate.question.domain !in NeedRefDomains(lang) {
      return Ok(None);
    }
    if committee == [] {
      return Err(IndexError);
    }
    var answer := cache.ReferenceAnswer(lang, committee[0], debate.gamekey.0, debate.question.question, backend);
    if answer.Err? {
      return Err(answer.error);
    }
    r := Ok(Some(answer.value));
  }

  /** The dictionary `peer_evaluate` builds before it saves it: STEP0, the
      first votes and the rounds of discussion. */
  method Evaluate(committee: seq<string>, debate: DebateHistory, judgeDebateRounds: int, evaluateTurn: string,
                  lang: Language, prompts: JudgePrompts, word2tokenEn: real, word2tokenZh: real,
                  cache: RefAnswers, backend: Oracle)
    returns (r: Result<JudgeDict, Exception>, ghost p: Proceedings)
    modifies cache, backend
    ensures committee == [] ==> r == Err(IndexError)
    ensures evaluateTurn != "LD" && |debate.rounds| == 1 ==> r.Err?
    ensures debate.question.domain !in NeedRefDomains(lang) ==> cache.answers == old(cache.answers)
    ensures debate.question.domain in NeedRefDomains(lang) && committee != [] && lang !in old(cache.answers) ==>
              r == Err(MissingLanguage) && cache.answers == old(cache.answers)
    ensures r.Ok? && debate.question.domain in NeedRefDomains(lang) ==>
              && committee != []
              && RefAsked(old(cache.answers), cache.answers, cache.instructions, lang, committee[0], debate.gamekey.0,
                          debate.question.question, backend.ReplyTo(|old(backend.log)|), Ok(r.value.refAnswer))
    ensures r.Ok? ==>
              var d := r.value;
              && (d.refAnswer.Some? <==> debate.question.domain in NeedRefDomains(lang))
              && Describes(d, committee, debate, judgeDebateRounds, evaluateTurn, lang, prompts, word2tokenEn, word2tokenZh,
                           backend, backend.log, old(backend.log) + Step0Calls(old(cache.answers), cache.instructions, lang, committee, debate), p)
  {
    var ref := RefStep(committee, debate, lang, cache, backend);
    if ref.Err? {
      return Err(ref.error), Proceedings([], [], 0, [], []);
    }
    ghost var answers := cache.answers;
    r, p := Assemble(committee, debate, ref.value, judgeDebateRounds, evaluateTurn, lang, prompts, word2tokenEn, word2tokenZh, backend);
    assert cache.answers == answers;
  }

  /** `d` is the dictionary of the debate judged by `committee`: its keys
      are copied from the call, its debate history is the transcript the
      judges were shown, and its records and final winner are those of the
      rounds of peer evaluation (none when `judgeDebateRounds` is not
      positive), heard from the backend after the requests of `log0` as
      `p` tells. */
  ghost predicate Describes(d: JudgeDict, committee: seq<string>, debate: DebateHistory, judgeDebateRounds: int,
                            evaluateTurn: string, lang: Language, prompts: JudgePrompts, word2tokenEn: real, word2tokenZh: real,
                            backend: Oracle, log: seq<Request>, log0: seq<Request>, p: Proceedings)
  {
    && d.gamekey == debate.gamekey && d.judges == committee && d.numRounds == evaluateTurn
    && d.judgeDebateRounds == judgeDebateRounds
    && Rendered(lang, debate, d.refAnswer, evaluateTurn).Ok?
    && d.debateHistory == Some(Rendered(lang, debate, d.refAnswer, evaluateTurn).value)
    && RoundsSoFar(committee, d.records, d.finalWinner, if judgeDebateRounds > 0 then judgeDebateRounds else 0)
    && Heard(p, committee, lang, prompts, word2tokenEn, word2tokenZh, Rendered(lang, debate, d.refAnswer, evaluateTurn).value,
             backend, log, log0, d.records, if judgeDebateRounds > 0 then judgeDebateRounds else 0)
  }

  /** The dictionary built once STEP0 has given `ref`. */
  method Assemble(committee: seq<string>, debate: DebateHistory, ref: Option<string>, judgeDebateRounds: int,
                  evaluateTurn: string, lang: Language, prompts: JudgePrompts, word2tokenEn: real, word2tokenZh: real,
                  backend: Oracle)
    returns (r: Result<JudgeDict, Exception>, ghost p: Proceedings)
    modifies backend
    ensures committee == [] ==> r == Err(IndexError)
    ensures evaluateTurn != "LD" && |debate.rounds| == 1 ==> r.Err?
    ensures r.Ok? ==>
              var d := r.value;
              && d.refAnswer == ref
              && Describes(d, committee, debate, judgeDebateRounds, evaluateTurn, lang, prompts, word2tokenEn, word2tokenZh,
                           backend, backend.log, old(backend.log), p)
  {
    var verdicts;
    verdicts, p := Verdicts(committee, debate, ref, judgeDebateRounds, evaluateTurn, lang, prompts, word2tokenEn, word2tokenZh, backend);
    if verdicts.Err? {
      return Err(verdicts.error), p;
    }
    var (history, records, finalWinner) := verdicts.value;
    r := Ok(JudgeDict(debate.gamekey, committee, evaluateTurn, judgeDebateRounds, ref, records, history, finalWinner));
  }

  /** `peer_evaluate(committee, debate, judge_save_file, judge_debate_rounds,
      evaluate_turn, language=lang)` without a previous history: the
      dictionary of `Evaluate`, appended to the judge file when one is given. */
  method PeerEvaluate(committee: seq<string>, debate: DebateHistory, judgeSaveFile: Option<string>, judgeDebateRounds: int,
                      evaluateTurn: string, lang: Language, prompts: JudgePrompts, word2tokenEn: real, word2tokenZh: real,
                      cache: RefAnswers, backend: Oracle, sink: Sink<JudgeDict>)
    returns (r: Result<JudgeDict, Exception>, ghost p: Proceedings)
    modifies cache, backend, sink
    ensures committee == [] ==> r == Err(IndexError)
    ensures evaluateTurn != "LD" && |debate.rounds| == 1 ==> r.Err?
    ensures debate.question.domain !in NeedRefDomains(lang) ==> cache.answers == old(cache.answers)
    ensures debate.question.domain in NeedRefDomains(lang) && committee != [] && lang !in old(cache.answers) ==>
              r == Err(MissingLanguage) && cache.answers == old(cache.answers)
    ensures r.Ok? && debate.question.domain in NeedRefDomains(lang) ==>
              && committee != []
              && RefAsked(old(cache.answers), cache.answers, cache.instructions, lang, committee[0], debate.gamekey.0,
                          debate.question.question, backend.ReplyTo(|old(backend.log)|), Ok(r.value.refAnswer))
    ensures r.Err? ==> sink.written == old(sink.written)
    ensures r.Ok? ==>
              var d := r.value;
              && sink.written == old(sink.written) + (if judgeSaveFile.Some? then [(judgeSaveFile.value, d)] else [])
              && (d.refAnswer.Some? <==> debate.question.domain in NeedRefDomains(lang))
              && Describes(d, committee, debate, judgeDebateRounds, evaluateTurn, lang, prompts, word2tokenEn, word2tokenZh,
                           backend, backend.log, old(backend.log) + Step0Calls(old(cache.answers), cache.instructions, lang, committee, debate), p)
  {
    r, p := Evaluate(committee, debate, judgeDebateRounds, evaluateTurn, lang, prompts, word2tokenEn, word2tokenZh, cache, backend);
    if r.Ok? {
      sink.Append(r.value, judgeSaveFile);
    }
  }
}

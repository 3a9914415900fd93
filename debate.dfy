/** The Lincoln-Douglas debate between two candidates (utils/LD_debate.py): the
    token budget, the nine turns of three rounds, the truncation of the debate
    on a recoverable backend error, and the one save of the debate history. */
module Debate {
  import opened Wrappers
  import opened Text
  import opened Backend
  import opened Protocol
  import opened Generation
  import opened Candidates
  import opened JsonLines

  /** `int(x)` on a float: truncation toward zero. */
  function IntOf(x: real): (n: int)
    ensures x >= 0.0 ==> n as real <= x < n as real + 1.0
    ensures x < 0.0 ==> n as real - 1.0 < x <= n as real
  {
    if x >= 0.0 then x.Floor else -((-x).Floor)
  }

  /** The token budget of a debate: 400 words for a domain that needs extra
      space in the debate's language, 300 otherwise, converted to tokens with
      that language's words-to-tokens factor. */
  function BaseBudget(lang: Language, domain: string, word2token: real): (n: int)
    ensures n == IntOf((if domain in ExtraSpaceDomains(lang) then 400.0 else 300.0) * word2token)
  {
    if lang == En && domain in ExtraSpaceDomains(En) then IntOf(400.0 * word2token)
    else if lang == En then IntOf(300.0 * word2token)
    else if lang == Zh && domain in ExtraSpaceDomains(Zh) then IntOf(400.0 * word2token)
    else IntOf(300.0 * word2token)
  }

  /** With a non-negative factor, a domain that needs extra space never gets
      the smaller budget, and no budget is negative. */
  lemma BudgetOrder(lang: Language, extra: string, plain: string, word2token: real)
    requires word2token >= 0.0 && extra in ExtraSpaceDomains(lang) && plain !in ExtraSpaceDomains(lang)
    ensures 0 <= BaseBudget(lang, plain, word2token) <= BaseBudget(lang, extra, word2token)
  {
    assert 300.0 * word2token <= 400.0 * word2token;
  }

  datatype Side = A | B

  /** One turn of a round: `('a', response)` or `('b', response)`. */
  datatype Entry = Entry(side: Side, response: Response)

  /** The debate history the function returns and saves. */
  datatype DebateHistory = DebateHistory(candidates: seq<string>, question: Question, gamekey: (int, string, string),
                                         numRounds: string, rounds: seq<seq<Entry>>)

  /** The results of the `get_response` calls of one debate in call order. The
      debate stops at the first error, so every result but the last is a
      response, and fewer than nine results end with an error. */
  predicate Played(results: seq<Result<Response, Exception>>)
  {
    && |results| <= 9
    && (forall i :: 0 <= i < |results| - 1 ==> results[i].Ok?)
    && (|results| < 9 ==> results != [] && results[|results| - 1].Err?)
  }

  predicate Failed(results: seq<Result<Response, Exception>>)
  {
    results != [] && results[|results| - 1].Err?
  }

  /** The opening statements, kept when the first two rounds are cut short. */
  function Openings(results: seq<Result<Response, Exception>>): seq<Entry>
    requires OkBefore(results, 2)
  {
    [Entry(A, results[0].value), Entry(B, results[1].value)]
  }

  /** Round 1: A's opening, B's cross-examination, A's answer. */
  function Round1(results: seq<Result<Response, Exception>>): seq<Entry>
    requires OkBefore(results, 4)
  {
    [Entry(A, results[0].value), Entry(B, results[2].value), Entry(A, results[3].value)]
  }

  /** Round 2: B's opening, A's cross-examination, B's answer. */
  function Round2(results: seq<Result<Response, Exception>>): seq<Entry>
    requires OkBefore(results, 6)
  {
    [Entry(B, results[1].value), Entry(A, results[4].value), Entry(B, results[5].value)]
  }

  /** Round 3: A's rebuttal, B's rebuttal, A's final answer. */
  function Round3(results: seq<Result<Response, Exception>>): seq<Entry>
    requires OkBefore(results, 9)
  {
    [Entry(A, results[6].value), Entry(B, results[7].value), Entry(A, results[8].value)]
  }

  /** What `make_pair_debate` returns, as a function of the results of its
      calls: an error in an opening statement, or any error that is not
      recoverable, propagates; a recoverable error in rounds 1-2 appends the
      two openings as one round after whatever was committed; one in round 3
      appends nothing. */
  function Outcome(results: seq<Result<Response, Exception>>): Result<seq<seq<Entry>>, Exception>
    requires Played(results)
  {
    var n := |results|;
    if Failed(results) && (n <= 2 || !Recoverable(results[n - 1].error)) then Err(results[n - 1].error)
    else if Failed(results) && n <= 6 then Ok((if n >= 5 then [Round1(results)] else []) + [Openings(results)])
    else if Failed(results) then Ok([Round1(results), Round2(results)])
    else Ok([Round1(results), Round2(results), Round3(results)])
  }

  /** An error propagates exactly when it comes from an opening statement or is
      not recoverable. */
  lemma OutcomeErr(results: seq<Result<Response, Exception>>)
    requires Played(results)
    ensures Outcome(results).Err? <==>
              Failed(results) && (|results| <= 2 || !Recoverable(results[|results| - 1].error))
    ensures Outcome(results).Err? ==> Outcome(results).error == results[|results| - 1].error
  {
  }

  /** A returned debate has one, two or three rounds, and three exactly when
      no error was caught. */
  lemma RoundCount(results: seq<Result<Response, Exception>>)
    requires Played(results) && Outcome(results).Ok?
    ensures 1 <= |Outcome(results).value| <= 3
    ensures |Outcome(results).value| == 3 <==> !Failed(results)
    ensures |Outcome(results).value| == 1 <==> |results| in {3, 4}
  {
  }

  function Sides(round: seq<Entry>): (r: seq<Side>)
    ensures |r| == |round| && forall i :: 0 <= i < |round| ==> r[i] == round[i].side
  {
    if round == [] then [] else [round[0].side] + Sides(round[1..])
  }

  lemma SidesOfThree(x: Entry, y: Entry, z: Entry)
    ensures Sides([x, y, z]) == [x.side, y.side, z.side]
  {
    assert [x, y, z][1..] == [y, z];
    assert [y, z][1..] == [z];
  }

  lemma SidesOfTwo(x: Entry, y: Entry)
    ensures Sides([x, y]) == [x.side, y.side]
  {
    assert [x, y][1..] == [y];
  }

  /** Every round alternates sides; the first round starts with A's opening,
      and the second with B's opening unless it is the bare openings round. */
  lemma SidePatterns(results: seq<Result<Response, Exception>>)
    requires Played(results) && Outcome(results).Ok?
    ensures var rounds := Outcome(results).value;
      && rounds[0][0] == Entry(A, results[0].value)
      && (forall k :: 0 <= k < |rounds| ==> Sides(rounds[k]) in {[A, B, A], [B, A, B], [A, B]})
      && (|rounds| == 1 ==> rounds[0] == Openings(results))
      && (|rounds| >= 2 ==> Sides(rounds[0]) == [A, B, A])
      && (|rounds| >= 2 && |results| >= 7 ==> rounds[1][0] == Entry(B, results[1].value) && Sides(rounds[1]) == [B, A, B])
      && (|rounds| == 3 ==> Sides(rounds[2]) == [A, B, A])
  {
    var n := |results|;
    if n >= 3 {
      var o := Openings(results);
      SidesOfTwo(o[0], o[1]);
    }
    if n >= 5 {
      var r1 := Round1(results);
      SidesOfThree(r1[0], r1[1], r1[2]);
    }
    if n >= 7 {
      var r2 := Round2(results);
      SidesOfThree(r2[0], r2[1], r2[2]);
    }
    if n == 9 && !Failed(results) {
      var r3 := Round3(results);
      SidesOfThree(r3[0], r3[1], r3[2]);
    }
  }

  /** A recoverable error in rounds 1-2 keeps round 1 only if it came after
      round 1 was committed, and then always adds the openings round; one in
      round 3 keeps rounds 1 and 2 and nothing else. */
  lemma Truncation(results: seq<Result<Response, Exception>>)
    requires Played(results) && Failed(results) && Recoverable(results[|results| - 1].error)
    ensures 3 <= |results| <= 4 ==> Outcome(results) == Ok([Openings(results)])
    ensures 5 <= |results| <= 6 ==> Outcome(results) == Ok([Round1(results), Openings(results)])
    ensures 7 <= |results| ==> Outcome(results) == Ok([Round1(results), Round2(results)])
  {
    if 3 <= |results| <= 4 {
      assert [] + [Openings(results)] == [Openings(results)];
    } else if 5 <= |results| <= 6 {
      assert [Round1(results)] + [Openings(results)] == [Round1(results), Openings(results)];
    }
  }

  /** What one turn asks of a candidate: the actions it must produce, the
      opponent text it heard (none for an opening statement) and its budget. */
  datatype Turn = Turn(side: Side, guide: seq<string>, actions: seq<string>, heard: Option<string>, budget: Option<int>)

  /** The guide of each of the nine calls (`None` for the openings, which keep
      the initial `[<respond>]`), the side that speaks, whose text it hears,
      and the budget factor. */
  function Stage(i: nat): (r: (Side, Option<seq<string>>, nat, nat))
    requires 2 <= i < 9
    ensures r.1.Some? && r.2 < i
  {
    match i
    case 2 => (B, Some(CrossGuide), 0, 1)
    case 3 => (A, Some(RespondGuide), 2, 1)
    case 4 => (A, Some(CrossGuide), 1, 1)
    case 5 => (B, Some(RespondGuide), 4, 1)
    case 6 => (A, Some(CrossGuide), 5, 1)
    case 7 => (B, Some(RebuttalGuide), 6, 2)
    case _ => (A, Some(RespondGuide), 7, 1)
  }

  /** The first `i` results are responses. */
  predicate OkBefore(results: seq<Result<Response, Exception>>, i: nat)
  {
    i <= |results| && forall j :: 0 <= j < i ==> results[j].Ok?
  }

  /** The turn the debate plans after the calls `done`. */
  function NextTurn(lang: Language, maxTokens: int, done: seq<Result<Response, Exception>>): Turn
    requires |done| < 9 && OkBefore(done, |done|)
  {
    var i := |done|;
    if i < 2 then Turn(if i == 0 then A else B, [], [Tag(lang, Respond)], None, Some(maxTokens))
    else
      var (side, guide, from, factor) := Stage(i);
      Turn(side, guide.value, ActionListInLanguage(guide.value, lang), Some(done[from].value.noThought), Some(if factor == 2 then 2 * maxTokens else maxTokens))
  }

  /** The turn the debate plans as call `i`, given the results before it. */
  function Planned(lang: Language, maxTokens: int, results: seq<Result<Response, Exception>>, i: nat): Turn
    requires i < |results| && i < 9 && OkBefore(results, i)
  {
    NextTurn(lang, maxTokens, results[..i])
  }

  /** Each turn was the planned one. */
  predicate AsPlanned(lang: Language, maxTokens: int, results: seq<Result<Response, Exception>>, turns: seq<Turn>)
  {
    && |turns| == |results| <= 9
    && forall i :: 0 <= i < |turns| ==> OkBefore(results, i) && turns[i] == Planned(lang, maxTokens, results, i)
  }

  lemma AsPlannedSnoc(lang: Language, maxTokens: int, results: seq<Result<Response, Exception>>, turns: seq<Turn>,
                      x: Result<Response, Exception>, t: Turn)
    requires AsPlanned(lang, maxTokens, results, turns) && OkBefore(results, |results|) && |results| < 9
    requires t == NextTurn(lang, maxTokens, results)
    ensures AsPlanned(lang, maxTokens, results + [x], turns + [t])
  {
    var rs := results + [x];
    assert rs[..|results|] == results;
    forall i | 0 <= i < |results|
      ensures rs[..i] == results[..i]
    {
    }
  }

  /** Every call but B's rebuttal uses the base budget; B's rebuttal uses
      twice of it. */
  lemma Budgets(lang: Language, maxTokens: int, results: seq<Result<Response, Exception>>, i: nat)
    requires i < |results| && i < 9 && OkBefore(results, i)
    ensures Planned(lang, maxTokens, results, i).budget == Some(if i == 7 then 2 * maxTokens else maxTokens)
  {
  }

  /** The action guides of the turns: cross-examinations demand criticize and
      raise, answers respond, and B's rebuttal all three. */
  lemma Guides(lang: Language, maxTokens: int, results: seq<Result<Response, Exception>>, i: nat)
    requires 2 <= i < |results| && i < 9 && OkBefore(results, i)
    ensures var t := Planned(lang, maxTokens, results, i);
      && t.guide == (if i in {2, 4, 6} then CrossGuide else if i == 7 then RebuttalGuide else RespondGuide)
      && t.actions == ActionListInLanguage(t.guide, lang)
      && t.actions == if i in {2, 4, 6} then [Tag(lang, Criticize), Tag(lang, Raise)]
                      else if i == 7 then [Tag(lang, Respond), Tag(lang, Criticize), Tag(lang, Raise)]
                      else [Tag(lang, Respond)]
  {
    GuideTags(lang);
  }

  /** The three guides in a language. */
  lemma GuideTags(lang: Language)
    ensures ActionListInLanguage(CrossGuide, lang) == [Tag(lang, Criticize), Tag(lang, Raise)]
    ensures ActionListInLanguage(RespondGuide, lang) == [Tag(lang, Respond)]
    ensures ActionListInLanguage(RebuttalGuide, lang) == [Tag(lang, Respond), Tag(lang, Criticize), Tag(lang, Raise)]
  {
    assert CrossGuide[1..][1..] == [] && RebuttalGuide[1..][1..][1..] == [];
  }

  /** A log that only grew: `log` starts with `log0`. */
  predicate Grows(log0: seq<Request>, log: seq<Request>)
  {
    |log0| <= |log| && log[..|log0|] == log0
  }

  /** What request `n` of a candidate's backend (`log` its log) shows of a
      turn taken on the chat history `before`, whose `get_response` accepted
      the reply texts `texts` (parsed as `parses`) and returned `r`. The
      request carries the turn's budget and the history, ended, when the
      turn hears the opponent, with the user entry of the guide's prompt and
      the opponent's text. A first reply that raises, or returns the error
      text, makes `r` that error at once. Otherwise the texts are the
      replies to requests `n`, `n + 1`, ..., each retry made while a
      mandated action of the turn was undone and asking for those, and the
      response is the texts joined with the merge of their parses, unless a
      retry raised. */
  predicate Made(log: seq<Request>, can: Candidate, n: nat, turn: Turn, before: seq<Message>, texts: seq<string>,
                 parses: seq<seq<Fragment>>, r: Result<Response, Exception>)
  {
    && Asked(log, can, n, turn, before)
    && Replies(can, n, turn.actions, turn.budget.value, texts, parses, r)
    && RetriesAsked(log, can, n, turn, texts, parses, r)
  }

  /** The history a turn sends: `before`, and, when the turn hears the
      opponent, the user entry `receive_opponent_response` adds. */
  function Prompted(before: seq<Message>, can: Candidate, turn: Turn): seq<Message>
  {
    if turn.heard.Some? && GuideKey(turn.guide) in can.actionPrompts then
      before + [Message(User, can.actionPrompts[GuideKey(turn.guide)] + OpponentLabel(can.language) + turn.heard.value)]
    else before
  }

  /** The history after a turn: the history it sent, and the one assistant
      entry `get_response` adds once a reply is accepted. */
  function After(before: seq<Message>, can: Candidate, turn: Turn, texts: seq<string>): seq<Message>
  {
    Prompted(before, can, turn) + if texts == [] then [] else [Message(Assistant, TranscriptAfter(texts))]
  }

  /** Request `n` carries the turn's budget and the history the turn sends. */
  predicate Asked(log: seq<Request>, can: Candidate, n: nat, turn: Turn, before: seq<Message>)
  {
    && n < |log| && turn.budget.Some? && log[n].maxTokens == turn.budget
    && (turn.heard.Some? ==> GuideKey(turn.guide) in can.actionPrompts)
    && log[n].history == Prompted(before, can, turn)
  }

  /** What the backend replied from request `n` on, and what `r` is made of. */
  predicate Replies(can: Candidate, n: nat, mandated: seq<string>, budget: int, texts: seq<string>, parses: seq<seq<Fragment>>,
                    r: Result<Response, Exception>)
  {
    && (texts == [] ==>
          && r.Err?
          && (|| can.backend.ReplyTo(n) == Raised(r.error)
              || (can.backend.ReplyTo(n) == Returned(ErrorText) && r.error == GenerationFailed)))
    && (texts != [] ==>
          && texts[0] != ErrorText && can.ParsedEach(texts, parses) && can.Replied(n, texts)
          && can.RetriedWhenAllowed(mandated, budget, texts, parses)
          && (r.Ok? ==>
                && !can.Continues(mandated, budget, texts, parses)
                && r.value == Response(Concat(texts), NoThought(can.language, Combined(can.language, parses)),
                                       Combined(can.language, parses)))
          && (r.Err? ==> can.Continues(mandated, budget, texts, parses) && can.backend.ReplyTo(n + |texts|) == Raised(r.error)))
  }

  /** The requests after `n` are the retries, each asking for the mandated
      actions still undone. */
  predicate RetriesAsked(log: seq<Request>, can: Candidate, n: nat, turn: Turn, texts: seq<string>, parses: seq<seq<Fragment>>,
                         r: Result<Response, Exception>)
  {
    texts != [] ==>
      && n < |log| && turn.budget.Some? && |parses| == |texts|
      && var m := if r.Ok? then |texts| - 1 else |texts|;
         && n + 1 + m <= |log|
         && log[n + 1..n + 1 + m] == can.Retries(log[n].history, turn.actions, turn.budget.value, texts, parses, m)
  }

  /** `Made` survives the growth of the log. */
  lemma MadeGrows(log: seq<Request>, log': seq<Request>, can: Candidate, n: nat, turn: Turn, before: seq<Message>,
                  texts: seq<string>, parses: seq<seq<Fragment>>, r: Result<Response, Exception>)
    requires Made(log, can, n, turn, before, texts, parses, r) && Grows(log, log')
    ensures Made(log', can, n, turn, before, texts, parses, r)
  {
    assert log'[n] == log[n] by { assert log'[..|log|][n] == log[n]; }
    assert Asked(log', can, n, turn, before);
    RetriesGrow(log, log', can, n, turn, texts, parses, r);
  }

  lemma RetriesGrow(log: seq<Request>, log': seq<Request>, can: Candidate, n: nat, turn: Turn, texts: seq<string>,
                    parses: seq<seq<Fragment>>, r: Result<Response, Exception>)
    requires RetriesAsked(log, can, n, turn, texts, parses, r) && Grows(log, log')
    ensures RetriesAsked(log', can, n, turn, texts, parses, r)
  {
    if texts != [] {
      var m := if r.Ok? then |texts| - 1 else |texts|;
      PrefixSlice(log, log', n, n + 1);
      PrefixSlice(log, log', n + 1, n + 1 + m);
      assert log'[n].history == log[n].history;
    }
  }

  /** A slice of a prefix is the same slice of the longer sequence. */
  lemma PrefixSlice<T>(s: seq<T>, s': seq<T>, i: nat, j: nat)
    requires |s| <= |s'| && s'[..|s|] == s && i <= j <= |s|
    ensures (i < j ==> s'[i] == s[i]) && s'[i..j] == s[i..j]
  {
    forall k | i <= k < j
      ensures s'[k] == s[k]
    {
      assert s'[..|s|][k] == s'[k];
    }
  }

  /** What a debate is played with: its language and base budget, the
      candidates A and B, their backends' log lengths when it began, and the
      chat history both candidates start with. */
  datatype Setting = Setting(lang: Language, maxTokens: int, canA: Candidate, canB: Candidate, n0A: nat, n0B: nat,
                             opening: seq<Message>)
  {
    function CanOf(side: Side): Candidate
    {
      if side == A then canA else canB
    }

    function StartOf(side: Side): nat
    {
      if side == A then n0A else n0B
    }
  }

  /** The calls of a debate so far: their results, the turns they were
      asked, and the index of each in its side's backend log. */
  datatype Play = Play(results: seq<Result<Response, Exception>>, turns: seq<Turn>, calls: seq<nat>,
                       texts: seq<seq<string>>, parses: seq<seq<seq<Fragment>>>)
  {
    function Then(r: Result<Response, Exception>, t: Turn, n: nat, x: seq<string>, p: seq<seq<Fragment>>): Play
    {
      Play(results + [r], turns + [t], calls + [n], texts + [x], parses + [p])
    }
  }

  /** The chat history of `side` after the turns `turns` (with the reply
      texts `texts`): the opening, and each of its own turns' entries. */
  function HistoryOf(st: Setting, side: Side, turns: seq<Turn>, texts: seq<seq<string>>): seq<Message>
    requires |texts| == |turns|
    decreases |turns|
  {
    if turns == [] then st.opening
    else
      var k := |turns| - 1;
      var h := HistoryOf(st, side, turns[..k], texts[..k]);
      if turns[k].side == side then After(h, st.CanOf(side), turns[k], texts[k]) else h
  }

  /** The debate so far: each turn was the planned one, and turn `i` was
      request `calls[i]` of its side's backend (whose log is `logA` or
      `logB`), made after the debate began on the chat history of its side
      after the turns before it, with the reply texts `texts[i]` and the
      result `results[i]`; the two candidates are distinct, and their chat
      histories are `hA` and `hB`, those after all the turns. */
  predicate DebatedSoFar(st: Setting, logA: seq<Request>, logB: seq<Request>, hA: seq<Message>, hB: seq<Message>, play: Play)
  {
    && st.canA != st.canB
    && AsPlanned(st.lang, st.maxTokens, play.results, play.turns)
    && |play.calls| == |play.turns| && |play.texts| == |play.turns| && |play.parses| == |play.turns|
    && hA == HistoryOf(st, A, play.turns, play.texts) && hB == HistoryOf(st, B, play.turns, play.texts)
    && forall i :: 0 <= i < |play.turns| ==> TurnMade(st, logA, logB, play, i)
  }

  /** Turn `i` of `play` as `DebatedSoFar` states it. */
  predicate TurnMade(st: Setting, logA: seq<Request>, logB: seq<Request>, play: Play, i: nat)
    requires i < |play.turns| && |play.calls| == |play.turns| && |play.texts| == |play.turns| && |play.parses| == |play.turns|
    requires |play.results| == |play.turns|
  {
    var side := play.turns[i].side;
    && play.calls[i] >= st.StartOf(side)
    && Made(if side == A then logA else logB, st.CanOf(side), play.calls[i], play.turns[i],
            HistoryOf(st, side, play.turns[..i], play.texts[..i]), play.texts[i], play.parses[i], play.results[i])
  }

  /** `DebatedSoFar`, stated for every record equal to `play`, so that a
      proof which only hands the record on does not expand it. */
  predicate Debated(st: Setting, logA: seq<Request>, logB: seq<Request>, hA: seq<Message>, hB: seq<Message>, play: Play)
  {
    forall p :: p == play ==> DebatedSoFar(st, logA, logB, hA, hB, p)
  }

  lemma DebatedGrows(st: Setting, logA: seq<Request>, logB: seq<Request>, logA': seq<Request>, logB': seq<Request>,
                     hA: seq<Message>, hB: seq<Message>, play: Play)
    requires DebatedSoFar(st, logA, logB, hA, hB, play) && Grows(logA, logA') && Grows(logB, logB')
    ensures DebatedSoFar(st, logA', logB', hA, hB, play)
  {
    forall i | 0 <= i < |play.turns|
      ensures TurnMade(st, logA', logB', play, i)
    {
      assert TurnMade(st, logA, logB, play, i);
      var before := HistoryOf(st, play.turns[i].side, play.turns[..i], play.texts[..i]);
      if play.turns[i].side == A {
        MadeGrows(logA, logA', st.canA, play.calls[i], play.turns[i], before, play.texts[i], play.parses[i], play.results[i]);
      } else {
        MadeGrows(logB, logB', st.canB, play.calls[i], play.turns[i], before, play.texts[i], play.parses[i], play.results[i]);
      }
    }
  }

  /** One more turn, taken on its side's history after the turns so far,
      extends the debate; only that side's history changes. */
  lemma DebatedSnoc(st: Setting, logA: seq<Request>, logB: seq<Request>, hA: seq<Message>, hB: seq<Message>, play: Play,
                    r: Result<Response, Exception>, t: Turn, n: nat, x: seq<string>, p: seq<seq<Fragment>>)
    requires DebatedSoFar(st, logA, logB, hA, hB, play)
    requires AsPlanned(st.lang, st.maxTokens, play.results + [r], play.turns + [t])
    requires n >= st.StartOf(t.side)
    requires Made(if t.side == A then logA else logB, st.CanOf(t.side), n, t, if t.side == A then hA else hB, x, p, r)
    ensures DebatedSoFar(st, logA, logB, if t.side == A then After(hA, st.canA, t, x) else hA,
                         if t.side == B then After(hB, st.canB, t, x) else hB, play.Then(r, t, n, x, p))
  {
    var next := play.Then(r, t, n, x, p);
    var k := |play.turns|;
    assert next.turns[..k] == play.turns && next.texts[..k] == play.texts;
    forall i | 0 <= i < |next.turns|
      ensures TurnMade(st, logA, logB, next, i)
    {
      if i < k {
        assert TurnMade(st, logA, logB, play, i);
        TurnKept(st, logA, logB, play, i, r, t, n, x, p);
      }
    }
  }

  /** A turn of `play` is the same turn of a longer record. */
  lemma TurnKept(st: Setting, logA: seq<Request>, logB: seq<Request>, play: Play, i: nat,
                 r: Result<Response, Exception>, t: Turn, n: nat, x: seq<string>, p: seq<seq<Fragment>>)
    requires |play.calls| == |play.turns| && |play.texts| == |play.turns| && |play.parses| == |play.turns|
    requires |play.results| == |play.turns| && i < |play.turns|
    requires TurnMade(st, logA, logB, play, i)
    ensures TurnMade(st, logA, logB, play.Then(r, t, n, x, p), i)
  {
    var next := play.Then(r, t, n, x, p);
    assert next.results[i] == play.results[i] && next.turns[i] == play.turns[i] && next.calls[i] == play.calls[i];
    assert next.texts[i] == play.texts[i] && next.parses[i] == play.parses[i];
    assert next.turns[..i] == play.turns[..i] && next.texts[..i] == play.texts[..i];
  }

  /** Both openings are asked on the opening history, which holds the
      question: neither hears anything, and A's turn does not touch B's
      history. */
  lemma OpeningsAsked(st: Setting, logA: seq<Request>, logB: seq<Request>, hA: seq<Message>, hB: seq<Message>, play: Play)
    requires DebatedSoFar(st, logA, logB, hA, hB, play) && |play.turns| >= 2
    ensures play.calls[0] < |logA| && logA[play.calls[0]].history == st.opening
    ensures play.calls[1] < |logB| && logB[play.calls[1]].history == st.opening
  {
    assert play.turns[0] == Planned(st.lang, st.maxTokens, play.results, 0);
    assert play.turns[1] == Planned(st.lang, st.maxTokens, play.results, 1);
    assert play.turns[0].side == A && play.turns[0].heard.None?;
    assert play.turns[1].side == B && play.turns[1].heard.None?;
    assert HistoryOf(st, A, play.turns[..0], play.texts[..0]) == st.opening;
    assert HistoryOf(st, B, play.turns[..1], play.texts[..1]) == st.opening by {
      assert play.turns[..1][..0] == [] && play.texts[..1][..0] == [];
    }
    assert TurnMade(st, logA, logB, play, 0);
    assert Asked(logA, st.canA, play.calls[0], play.turns[0], st.opening);
    assert TurnMade(st, logA, logB, play, 1);
    assert Asked(logB, st.canB, play.calls[1], play.turns[1], st.opening);
  }

  /** A side's chat history only grows: the history after the first `i`
      turns is a prefix of the history after all of them. */
  lemma {:induction false} HistoryGrows(st: Setting, side: Side, turns: seq<Turn>, texts: seq<seq<string>>, i: nat)
    requires |texts| == |turns| && i <= |turns|
    ensures HistoryOf(st, side, turns[..i], texts[..i]) <= HistoryOf(st, side, turns, texts)
    decreases |turns|
  {
    if i == |turns| {
      assert turns[..i] == turns && texts[..i] == texts;
    } else {
      var k := |turns| - 1;
      assert turns[..k][..i] == turns[..i] && texts[..k][..i] == texts[..i];
      HistoryGrows(st, side, turns[..k], texts[..k], i);
    }
  }

  /** One `get_response` call, after `receive_opponent_response` with the
      guide when the turn hears the opponent. The turn is read off the
      candidate: its mandated actions and the budget of its first backend
      request, which is the next request of its backend, sent with the
      candidate's chat history; `texts` and `parses` are the reply texts the
      call accepted and their parses. */
  method Speak(can: Candidate, side: Side, heard: Option<string>, guide: seq<string>, budget: int)
    returns (r: Result<Response, Exception>, ghost turn: Turn, ghost texts: seq<string>, ghost parses: seq<seq<Fragment>>)
    requires heard.Some? ==> HasGuides(can.actionPrompts) && guide in {RespondGuide, CrossGuide, RebuttalGuide}
    modifies can, can.backend
    ensures turn == Turn(side, guide, if heard.Some? then ActionListInLanguage(guide, can.language) else old(can.actions),
                         heard, Some(budget))
    ensures can.actions == turn.actions
    ensures Grows(old(can.backend.log), can.backend.log)
    ensures Made(can.backend.log, can, |old(can.backend.log)|, turn, old(can.chatHistory), texts, parses, r)
    ensures can.chatHistory == After(old(can.chatHistory), can, turn, texts)
  {
    if heard.Some? {
      can.ReceiveOpponentResponse(heard.value, guide);
    }
    ghost var log0 := can.backend.log;
    ghost var h := can.chatHistory;
    r, texts, parses := can.GetResponse(budget);
    turn := Turn(side, guide, can.actions, heard, Some(budget));
    Responded(can, log0, can.backend.log, old(can.chatHistory), h, turn, texts, parses, r, can.chatHistory);
  }

  /** What `get_response` promises about its backend calls, read as `Made`. */
  lemma Responded(can: Candidate, log0: seq<Request>, log: seq<Request>, before: seq<Message>, h: seq<Message>, turn: Turn,
                  texts: seq<string>, parses: seq<seq<Fragment>>, r: Result<Response, Exception>, history: seq<Message>)
    requires turn.budget.Some? && (r.Ok? ==> texts != []) && can.ParsedEach(texts, parses)
    requires log == log0 + [Request(h, turn.budget)]
                    + can.Retries(h, turn.actions, turn.budget.value, texts, parses, if r.Ok? then |texts| - 1 else |texts|)
    requires texts == [] ==>
               && r.Err?
               && (|| (can.backend.ReplyTo(|log0|) == Returned(ErrorText) && r.error == GenerationFailed)
                   || can.backend.ReplyTo(|log0|) == Raised(r.error))
    requires texts != [] ==> can.Answered(h, |log0|, turn.budget.value, turn.actions, r, texts, parses, history)
    requires (turn.heard.Some? ==> GuideKey(turn.guide) in can.actionPrompts) && h == Prompted(before, can, turn)
    requires texts == [] ==> history == h
    ensures Grows(log0, log) && Made(log, can, |log0|, turn, before, texts, parses, r)
    ensures history == After(before, can, turn, texts)
  {
    var m := if r.Ok? then |texts| - 1 else |texts|;
    var rest := can.Retries(h, turn.actions, turn.budget.value, texts, parses, m);
    LogParts(log0, Request(h, turn.budget), rest, log);
    assert log[|log0|].history == h;
    assert Asked(log, can, |log0|, turn, before);
    assert Replies(can, |log0|, turn.actions, turn.budget.value, texts, parses, r);
  }

  /** The parts of a log that grew by one request and then some more. */
  lemma LogParts(log0: seq<Request>, request: Request, rest: seq<Request>, log: seq<Request>)
    requires log == log0 + [request] + rest
    ensures Grows(log0, log) && log[|log0|] == request
    ensures log[|log0| + 1..|log0| + 1 + |rest|] == rest
  {
    assert log[..|log0|] == log0;
  }

  /** A turn taken as planned: the call is the next request of the
      speaker's backend, and both logs only grow. */
  method Step(can: Candidate, side: Side, heard: Option<string>, guide: seq<string>, budget: int,
              ghost st: Setting, ghost play: Play)
    returns (r: Result<Response, Exception>, ghost play': Play)
    requires can.language == st.lang && can == st.CanOf(side) && |can.backend.log| >= st.StartOf(side)
    requires Debated(st, st.canA.backend.log, st.canB.backend.log, st.canA.chatHistory, st.canB.chatHistory, play)
    requires OkBefore(play.results, |play.results|) && |play.results| < 9
    requires heard.Some? ==> HasGuides(can.actionPrompts) && guide in {RespondGuide, CrossGuide, RebuttalGuide}
    requires NextTurn(st.lang, st.maxTokens, play.results)
          == Turn(side, guide, if heard.Some? then ActionListInLanguage(guide, can.language) else can.actions, heard, Some(budget))
    modifies can, can.backend
    ensures play'.results == play.results + [r]
    ensures Grows(old(st.canA.backend.log), st.canA.backend.log) && Grows(old(st.canB.backend.log), st.canB.backend.log)
    ensures Debated(st, st.canA.backend.log, st.canB.backend.log, st.canA.chatHistory, st.canB.chatHistory, play')
  {
    ghost var n := |can.backend.log|;
    ghost var logA, logB := st.canA.backend.log, st.canB.backend.log;
    ghost var hA, hB := st.canA.chatHistory, st.canB.chatHistory;
    ghost var turn, texts, parses;
    assert DebatedSoFar(st, logA, logB, hA, hB, play);
    ghost var other := st.CanOf(if side == A then B else A);
    assert other != can;
    r, turn, texts, parses := Speak(can, side, heard, guide, budget);
    assert other.chatHistory == old(other.chatHistory);
    TurnTaken(st, logA, logB, st.canA.backend.log, st.canB.backend.log, hA, hB, st.canA.chatHistory, st.canB.chatHistory,
              play, r, turn, n, texts, parses);
    play' := play.Then(r, turn, n, texts, parses);
  }

  /** The debate after one more turn, taken as planned on its side's
      history: the logs only grew, and only the speaker's history changed. */
  lemma TurnTaken(st: Setting, logA: seq<Request>, logB: seq<Request>, logA': seq<Request>, logB': seq<Request>,
                  hA: seq<Message>, hB: seq<Message>, hA': seq<Message>, hB': seq<Message>, play: Play,
                  r: Result<Response, Exception>, t: Turn, n: nat, x: seq<string>, p: seq<seq<Fragment>>)
    requires DebatedSoFar(st, logA, logB, hA, hB, play) && Grows(logA, logA') && Grows(logB, logB')
    requires OkBefore(play.results, |play.results|) && |play.results| < 9 && t == NextTurn(st.lang, st.maxTokens, play.results)
    requires n >= st.StartOf(t.side)
    requires Made(if t.side == A then logA' else logB', st.CanOf(t.side), n, t, if t.side == A then hA else hB, x, p, r)
    requires hA' == (if t.side == A then After(hA, st.canA, t, x) else hA)
    requires hB' == (if t.side == B then After(hB, st.canB, t, x) else hB)
    ensures Debated(st, logA', logB', hA', hB', play.Then(r, t, n, x, p))
  {
    DebatedGrows(st, logA, logB, logA', logB', hA, hB, play);
    AsPlannedSnoc(st.lang, st.maxTokens, play.results, play.turns, r, t);
    DebatedSnoc(st, logA', logB', hA, hB, play, r, t, n, x, p);
  }

  /** The history returned for an outcome: the header with the rounds, or the
      error that propagates. */
  function Reported(header: DebateHistory, outcome: Result<seq<seq<Entry>>, Exception>): Result<DebateHistory, Exception>
  {
    if outcome.Ok? then Ok(header.(rounds := outcome.value)) else Err(outcome.error)
  }

  /** What the debate appends to the history file when it returns `r`. */
  function Saved(r: Result<DebateHistory, Exception>, file: Option<string>): seq<(string, DebateHistory)>
  {
    if r.Ok? && file.Some? then [(file.value, r.value)] else []
  }

  lemma CatalogGuides(catalog: PromptCatalog, lang: Language, domain: string)
    requires WellFormedCatalog(catalog)
    ensures HasGuides(GuidePrompts(PromptsFor(catalog, lang), lang, domain))
  {
  }

  /** The chat history a fresh candidate starts with: the instruction, then
      the question under the respond prompt. */
  function Opening(catalog: PromptCatalog, lang: Language, question: Question): seq<Message>
    requires WellFormedCatalog(catalog)
  {
    CatalogGuides(catalog, lang, question.domain);
    var prompts := PromptsFor(catalog, lang);
    [Message(System, prompts.instruction),
     Message(User, GuidePrompts(prompts, lang, question.domain)["<respond>"] + InitialInputLabel(lang) + question.question)]
  }

  /** A debater of the debate: its model, language, action prompts, token
      counter and backend. */
  ghost predicate Debater(can: Candidate, name: string, lang: Language, prompts: map<string, string>, isAlpha: char -> bool,
                    countTokens: string -> nat, backend: Oracle)
  {
    && can.modelName == name && can.language == lang && can.actionPrompts == prompts
    && can.isAlpha == isAlpha && can.countTokens == countTokens && can.backend == backend
  }

  /** `make_pair_debate(model_a, model_b, question, debate_history_file,
      language)`. `play` holds the results of its `get_response` calls in
      order, what each call was asked, and which request of its side's
      backend it was. */
  method MakePairDebate(modelA: string, modelB: string, question: Question, file: Option<string>, lang: Language,
                        catalog: PromptCatalog, word2tokenEn: real, word2tokenZh: real,
                        isAlpha: char -> bool, countTokens: string -> nat,
                        backendA: Oracle, backendB: Oracle, sink: Sink<DebateHistory>)
    returns (r: Result<DebateHistory, Exception>, ghost st: Setting, ghost play: Play)
    requires WellFormedCatalog(catalog)
    modifies backendA, backendB, sink
    ensures st.lang == lang && st.maxTokens == BaseBudget(lang, question.domain, if lang == En then word2tokenEn else word2tokenZh)
    ensures st.n0A == |old(backendA.log)| && st.n0B == |old(backendB.log)|
    ensures Debater(st.canA, modelA, lang, GuidePrompts(PromptsFor(catalog, lang), lang, question.domain), isAlpha, countTokens, backendA)
    ensures Debater(st.canB, modelB, lang, GuidePrompts(PromptsFor(catalog, lang), lang, question.domain), isAlpha, countTokens, backendB)
    ensures st.opening == Opening(catalog, lang, question)
    ensures Played(play.results) && Debated(st, backendA.log, backendB.log, st.canA.chatHistory, st.canB.chatHistory, play)
    ensures r == Reported(DebateHistory([modelA, modelB], question, (question.id, modelA, modelB), "LD", []), Outcome(play.results))
    ensures sink.written == old(sink.written) + Saved(r, file)
  {
    var history := DebateHistory([modelA, modelB], question, (question.id, modelA, modelB), "LD", []);
    CatalogGuides(catalog, lang, question.domain);
    var canA := new Candidate(modelA, question, lang, catalog, isAlpha, countTokens, backendA);
    var canB := new Candidate(modelB, question, lang, catalog, isAlpha, countTokens, backendB);
    var word2token := if lang == En then word2tokenEn else word2tokenZh;
    var maxTokens := BaseBudget(lang, question.domain, word2token);
    st := Setting(lang, maxTokens, canA, canB, |backendA.log|, |backendB.log|, canA.chatHistory);
    r, play := Debate(canA, canB, history, maxTokens, file, sink, st);
  }

  /** The debate between two fresh candidates. */
  method Debate(canA: Candidate, canB: Candidate, history: DebateHistory, maxTokens: int,
                file: Option<string>, sink: Sink<DebateHistory>, ghost st: Setting)
    returns (r: Result<DebateHistory, Exception>, ghost play: Play)
    requires canA.language == st.lang && canB.language == st.lang && HasGuides(canA.actionPrompts) && HasGuides(canB.actionPrompts)
    requires canA != canB && canA == st.canA && canB == st.canB && st.maxTokens == maxTokens
    requires |st.canA.backend.log| == st.n0A && |st.canB.backend.log| == st.n0B && history.rounds == []
    requires canA.actions == [Tag(st.lang, Respond)] && canB.actions == [Tag(st.lang, Respond)]
    requires canA.chatHistory == st.opening && canB.chatHistory == st.opening
    modifies canA, canB, st.canA.backend, st.canB.backend, sink
    ensures Played(play.results) && Debated(st, st.canA.backend.log, st.canB.backend.log,
                  st.canA.chatHistory, st.canB.chatHistory, play)
    ensures r == Reported(history, Outcome(play.results))
    ensures sink.written == old(sink.written) + Saved(r, file)
  {
    play := Play([], [], [], [], []);
    assert DebatedSoFar(st, st.canA.backend.log, st.canB.backend.log, st.canA.chatHistory, st.canB.chatHistory, play);
    // Round 0: the opening statements; errors here propagate.
    var a1, b1;
    a1, play := Step(canA, A, None, [], maxTokens, st, play);
    if a1.Err? {
      return Err(a1.error), play;
    }
    b1, play := Step(canB, B, None, [], maxTokens, st, play);
    if b1.Err? {
      return Err(b1.error), play;
    }
    var stop, v, committed;
    stop, committed, v, play := RoundsOneTwo(canA, canB, history, a1.value, b1.value, maxTokens, file, sink, st, play);
    if stop.Some? {
      return stop.value, play;
    }
    r, play := RoundThree(canA, canB, committed, v, maxTokens, file, sink, st, play);
  }

  /** The history reported after an error in rounds 1-2, given what was
      committed before it. */
  lemma EarlyExit(header: DebateHistory, committed: DebateHistory, results: seq<Result<Response, Exception>>,
                  a1: Response, b1: Response, e: Exception)
    requires Played(results) && 3 <= |results| <= 6 && results[|results| - 1] == Err(e)
    requires results[0] == Ok(a1) && results[1] == Ok(b1)
    requires committed == header.(rounds := if |results| >= 5 then [Round1(results)] else [])
    ensures Reported(header, Outcome(results))
         == if Recoverable(e) then Ok(committed.(rounds := committed.rounds + [[Entry(A, a1), Entry(B, b1)]])) else Err(e)
  {
    if Recoverable(e) {
      Truncation(results);
    }
  }

  /** The history reported after an error in round 3. */
  lemma LateExit(history: DebateHistory, prefix: seq<Result<Response, Exception>>, results: seq<Result<Response, Exception>>, e: Exception)
    requires |prefix| == 6 && OkBefore(prefix, 6) && history.rounds == [Round1(prefix), Round2(prefix)]
    requires Played(results) && 7 <= |results| && results[..6] == prefix && results[|results| - 1] == Err(e)
    ensures Reported(history, Outcome(results)) == if Recoverable(e) then Ok(history) else Err(e)
  {
    if Recoverable(e) {
      Truncation(results);
      assert Round1(results) == Round1(prefix) && Round2(results) == Round2(prefix);
    }
  }

  /** The history reported after a full debate. */
  lemma FullExit(history: DebateHistory, prefix: seq<Result<Response, Exception>>, results: seq<Result<Response, Exception>>)
    requires |prefix| == 6 && OkBefore(prefix, 6) && history.rounds == [Round1(prefix), Round2(prefix)]
    requires Played(results) && |results| == 9 && !Failed(results) && results[..6] == prefix
    ensures Reported(history, Outcome(results)) == Ok(history.(rounds := history.rounds + [Round3(results)]))
  {
    forall i | 0 <= i < 6
      ensures results[i] == prefix[i]
    {
      assert results[..6][i] == results[i];
    }
    assert Round1(results) == Round1(prefix) && Round2(results) == Round2(prefix);
    assert history.rounds + [Round3(results)] == [Round1(results), Round2(results), Round3(results)];
  }

  /** One cross-examination of rounds 1-2: the asker questions what it
      heard, and, unless that call raised, the answerer responds. Round 1
      starts after the two openings and B questions A's; round 2 starts after
      round 1 and A questions B's. */
  method Exchange(asker: Candidate, answerer: Candidate, askerSide: Side, heard: Response, maxTokens: int,
                  ghost st: Setting, ghost play: Play)
    returns (x: Result<Response, Exception>, y: Result<Response, Exception>, ghost play': Play)
    requires asker.language == st.lang && answerer.language == st.lang
    requires HasGuides(asker.actionPrompts) && HasGuides(answerer.actionPrompts) && st.maxTokens == maxTokens
    requires asker == st.CanOf(askerSide) && answerer == st.CanOf(if askerSide == A then B else A)
    requires |st.canA.backend.log| >= st.n0A && |st.canB.backend.log| >= st.n0B
    requires |play.results| == 2 || |play.results| == 4
    requires OkBefore(play.results, |play.results|) && Debated(st, st.canA.backend.log, st.canB.backend.log,
                  st.canA.chatHistory, st.canB.chatHistory, play)
    requires askerSide == (if |play.results| == 2 then B else A) && heard == play.results[if |play.results| == 2 then 0 else 1].value
    modifies asker, asker.backend, answerer, answerer.backend
    ensures |st.canA.backend.log| >= st.n0A && |st.canB.backend.log| >= st.n0B
    ensures Debated(st, st.canA.backend.log, st.canB.backend.log, st.canA.chatHistory, st.canB.chatHistory, play')
    ensures x.Err? ==> play'.results == play.results + [x]
    ensures x.Ok? ==> play'.results == play.results + [x, y]
  {
    x, play' := Step(asker, askerSide, Some(heard.noThought), CrossGuide, maxTokens, st, play);
    y := x;
    if x.Ok? {
      ghost var mid := play';
      y, play' := Step(answerer, if askerSide == A then B else A, Some(x.value.noThought), RespondGuide, maxTokens, st, play');
      assert play'.results == play.results + [x, y];
    }
  }

  /** The first `try` block: rounds 1 and 2. It either ends the debate
      (`stop`), or commits both rounds and hands on B's last answer. */
  method RoundsOneTwo(canA: Candidate, canB: Candidate, history: DebateHistory, a1: Response, b1: Response, maxTokens: int,
                      file: Option<string>, sink: Sink<DebateHistory>, ghost st: Setting, ghost play: Play)
    returns (stop: Option<Result<DebateHistory, Exception>>, history': DebateHistory, v: Response, ghost play': Play)
    requires canA.language == st.lang && canB.language == st.lang && HasGuides(canA.actionPrompts) && HasGuides(canB.actionPrompts)
    requires canA == st.canA && canB == st.canB && st.maxTokens == maxTokens
    requires |st.canA.backend.log| >= st.n0A && |st.canB.backend.log| >= st.n0B
    requires play.results == [Ok(a1), Ok(b1)] && Debated(st, st.canA.backend.log, st.canB.backend.log,
                  st.canA.chatHistory, st.canB.chatHistory, play) && history.rounds == []
    modifies canA, canA.backend, canB, canB.backend, sink
    ensures |st.canA.backend.log| >= st.n0A && |st.canB.backend.log| >= st.n0B
    ensures Debated(st, st.canA.backend.log, st.canB.backend.log, st.canA.chatHistory, st.canB.chatHistory, play')
    ensures stop.Some? ==> Played(play'.results) && stop.value == Reported(history, Outcome(play'.results))
    ensures stop.Some? ==> sink.written == old(sink.written) + Saved(stop.value, file)
    ensures stop.None? ==> |play'.results| == 6 && OkBefore(play'.results, 6) && play'.results[..2] == play.results
    ensures stop.None? ==> v == play'.results[5].value && sink.written == old(sink.written)
    ensures stop.None? ==> history' == history.(rounds := [Round1(play'.results), Round2(play'.results)])
  {
    var caught;
    caught, history', v, play' := FirstRounds(canA, canB, history, a1, b1, maxTokens, st, play);
    if caught.Some? {
      EarlyExit(history, history', play'.results, a1, b1, caught.value);
      var out := RecoverEarly(history', a1, b1, caught.value, file, sink);
      stop := Some(out);
    } else {
      stop := None;
    }
  }

  /** The calls of rounds 1 and 2: two cross-examinations; `caught` is the
      error that stopped them, if any, and `history'` holds the rounds
      committed before it. */
  method FirstRounds(canA: Candidate, canB: Candidate, history: DebateHistory, a1: Response, b1: Response, maxTokens: int,
                     ghost st: Setting, ghost play: Play)
    returns (caught: Option<Exception>, history': DebateHistory, v: Response, ghost play': Play)
    requires canA.language == st.lang && canB.language == st.lang && HasGuides(canA.actionPrompts) && HasGuides(canB.actionPrompts)
    requires canA == st.canA && canB == st.canB && st.maxTokens == maxTokens
    requires |st.canA.backend.log| >= st.n0A && |st.canB.backend.log| >= st.n0B
    requires play.results == [Ok(a1), Ok(b1)] && Debated(st, st.canA.backend.log, st.canB.backend.log,
                  st.canA.chatHistory, st.canB.chatHistory, play) && history.rounds == []
    modifies canA, canA.backend, canB, canB.backend
    ensures |st.canA.backend.log| >= st.n0A && |st.canB.backend.log| >= st.n0B
    ensures Debated(st, st.canA.backend.log, st.canB.backend.log, st.canA.chatHistory, st.canB.chatHistory, play')
    ensures 3 <= |play'.results| <= 6 && play'.results[..2] == play.results
    ensures caught.Some? ==>
              && Played(play'.results) && play'.results[|play'.results| - 1] == Err(caught.value)
              && history' == history.(rounds := if |play'.results| >= 5 then [Round1(play'.results)] else [])
    ensures caught.None? ==>
              && |play'.results| == 6 && OkBefore(play'.results, 6) && v == play'.results[5].value
              && history' == history.(rounds := [Round1(play'.results), Round2(play'.results)])
  {
    history', v := history, b1;
    caught := None;
    var x, y, u, w;
    x, y, play' := Exchange(canB, canA, B, a1, maxTokens, st, play);
    if x.Err? || y.Err? {
      caught := Some(if x.Err? then x.error else y.error);
    } else {
      history' := history'.(rounds := history'.rounds + [[Entry(A, a1), Entry(B, x.value), Entry(A, y.value)]]);
      u, w, play' := Exchange(canA, canB, A, b1, maxTokens, st, play');
      if u.Err? || w.Err? {
        caught := Some(if u.Err? then u.error else w.error);
      } else {
        history' := history'.(rounds := history'.rounds + [[Entry(B, b1), Entry(A, u.value), Entry(B, w.value)]]);
        v := w.value;
      }
    }
  }

  /** The end of round 3: B's rebuttal of A's cross-examination, with twice
      the budget, then, unless that call raised, A's final answer. */
  method Closing(canA: Candidate, canB: Candidate, heard: Response, maxTokens: int, ghost st: Setting, ghost play: Play)
    returns (rb: Result<Response, Exception>, fa: Result<Response, Exception>, ghost play': Play)
    requires canA.language == st.lang && canB.language == st.lang && HasGuides(canA.actionPrompts) && HasGuides(canB.actionPrompts)
    requires canA == st.canA && canB == st.canB && st.maxTokens == maxTokens
    requires |st.canA.backend.log| >= st.n0A && |st.canB.backend.log| >= st.n0B
    requires |play.results| == 7 && OkBefore(play.results, 7) && Debated(st, st.canA.backend.log, st.canB.backend.log,
                  st.canA.chatHistory, st.canB.chatHistory, play)
    requires heard == play.results[6].value
    modifies canA, canA.backend, canB, canB.backend
    ensures |st.canA.backend.log| >= st.n0A && |st.canB.backend.log| >= st.n0B
    ensures Debated(st, st.canA.backend.log, st.canB.backend.log, st.canA.chatHistory, st.canB.chatHistory, play')
    ensures rb.Err? ==> play'.results == play.results + [rb]
    ensures rb.Ok? ==> play'.results == play.results + [rb, fa]
  {
    rb, play' := Step(canB, B, Some(heard.noThought), RebuttalGuide, 2 * maxTokens, st, play);
    fa := rb;
    if rb.Ok? {
      fa, play' := Step(canA, A, Some(rb.value.noThought), RespondGuide, maxTokens, st, play');
      assert play'.results == play.results + [rb, fa];
    }
  }

  /** The second `try` block: round 3, then the save of the full debate. */
  method RoundThree(canA: Candidate, canB: Candidate, history: DebateHistory, v: Response, maxTokens: int,
                    file: Option<string>, sink: Sink<DebateHistory>, ghost st: Setting, ghost play: Play)
    returns (r: Result<DebateHistory, Exception>, ghost play': Play)
    requires canA.language == st.lang && canB.language == st.lang && HasGuides(canA.actionPrompts) && HasGuides(canB.actionPrompts)
    requires canA == st.canA && canB == st.canB && st.maxTokens == maxTokens
    requires |st.canA.backend.log| >= st.n0A && |st.canB.backend.log| >= st.n0B
    requires |play.results| == 6 && OkBefore(play.results, 6) && Debated(st, st.canA.backend.log, st.canB.backend.log,
                  st.canA.chatHistory, st.canB.chatHistory, play)
    requires v == play.results[5].value && history.rounds == [Round1(play.results), Round2(play.results)]
    modifies canA, canA.backend, canB, canB.backend, sink
    ensures |st.canA.backend.log| >= st.n0A && |st.canB.backend.log| >= st.n0B
    ensures Played(play'.results) && Debated(st, st.canA.backend.log, st.canB.backend.log,
                  st.canA.chatHistory, st.canB.chatHistory, play')
    ensures r == Reported(history, Outcome(play'.results))
    ensures sink.written == old(sink.written) + Saved(r, file)
  {
    var caught, round;
    caught, round, play' := ThirdRound(canA, canB, v, maxTokens, st, play);
    if caught.Some? {
      LateExit(history, play.results, play'.results, caught.value);
      r := RecoverLate(history, caught.value, file, sink);
    } else {
      FullExit(history, play.results, play'.results);
      var full := history.(rounds := history.rounds + [round]);
      sink.Append(full, file);
      r := Ok(full);
    }
  }

  /** The calls of round 3: A's cross-examination of B's last answer, then
      the closing; `caught` is the error that stopped it, if any. */
  method ThirdRound(canA: Candidate, canB: Candidate, v: Response, maxTokens: int, ghost st: Setting, ghost play: Play)
    returns (caught: Option<Exception>, round: seq<Entry>, ghost play': Play)
    requires canA.language == st.lang && canB.language == st.lang && HasGuides(canA.actionPrompts) && HasGuides(canB.actionPrompts)
    requires canA == st.canA && canB == st.canB && st.maxTokens == maxTokens
    requires |st.canA.backend.log| >= st.n0A && |st.canB.backend.log| >= st.n0B
    requires |play.results| == 6 && OkBefore(play.results, 6) && Debated(st, st.canA.backend.log, st.canB.backend.log,
                  st.canA.chatHistory, st.canB.chatHistory, play)
    requires v == play.results[5].value
    modifies canA, canA.backend, canB, canB.backend
    ensures |st.canA.backend.log| >= st.n0A && |st.canB.backend.log| >= st.n0B
    ensures Played(play'.results) && Debated(st, st.canA.backend.log, st.canB.backend.log,
                  st.canA.chatHistory, st.canB.chatHistory, play')
    ensures 7 <= |play'.results| && play'.results[..6] == play.results
    ensures caught.Some? <==> Failed(play'.results)
    ensures caught.Some? ==> play'.results[|play'.results| - 1] == Err(caught.value)
    ensures caught.None? ==> |play'.results| == 9 && round == Round3(play'.results)
  {
    caught, round := None, [];
    var ra, rb, fa;
    ra, play' := Step(canA, A, Some(v.noThought), CrossGuide, maxTokens, st, play);
    if ra.Err? {
      caught := Some(ra.error);
    } else {
      rb, fa, play' := Closing(canA, canB, ra.value, maxTokens, st, play');
      if rb.Err? || fa.Err? {
        caught := Some(if rb.Err? then rb.error else fa.error);
      } else {
        round := [Entry(A, ra.value), Entry(B, rb.value), Entry(A, fa.value)];
      }
    }
    assert play'.results[..6] == play.results;
  }

  /** The handler of the first `try` block: a recoverable error appends the
      openings as one round, saves and returns; any other error propagates. */
  method RecoverEarly(history: DebateHistory, a1: Response, b1: Response, e: Exception, file: Option<string>, sink: Sink<DebateHistory>)
    returns (r: Result<DebateHistory, Exception>)
    modifies sink
    ensures Recoverable(e) ==> r == Ok(history.(rounds := history.rounds + [[Entry(A, a1), Entry(B, b1)]]))
    ensures !Recoverable(e) ==> r == Err(e)
    ensures sink.written == old(sink.written) + Saved(r, file)
  {
    if Recoverable(e) {
      var saved := history.(rounds := history.rounds + [[Entry(A, a1), Entry(B, b1)]]);
      sink.Append(saved, file);
      r := Ok(saved);
    } else {
      r := Err(e);
    }
  }

  /** The handler of the second `try` block: a recoverable error saves and
      returns the history as it is; any other error propagates. */
  method RecoverLate(history: DebateHistory, e: Exception, file: Option<string>, sink: Sink<DebateHistory>)
    returns (r: Result<DebateHistory, Exception>)
    modifies sink
    ensures Recoverable(e) ==> r == Ok(history)
    ensures !Recoverable(e) ==> r == Err(e)
    ensures sink.written == old(sink.written) + Saved(r, file)
  {
    if Recoverable(e) {
      sink.Append(history, file);
      r := Ok(history);
    } else {
      r := Err(e);
    }
  }
}

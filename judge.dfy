/** The judge committee (utils/LD_judge.py): the transcript a judge reads, the
    verdict it extracts from its judgement, the committee messages of the
    refinement rounds, the majority vote, and `peer_evaluate` on a debate that
    has not been judged before. */
module Judging {
  import opened Wrappers
  import opened Text
  import opened Backend
  import opened Protocol
  import opened Generation
  import opened Candidates
  import opened Debate
  import opened JsonLines

  /** `NEED_REF_CATS` and `NEED_REF_CATS_zh`: the domains whose judges get a
      reference answer. */
  function NeedRefDomains(lang: Language): seq<string>
  {
    if lang == En then ["math", "reasoning", "coding"] else ["数学", "推理", "编程"]
  }

  /** The judge prompt texts (utils/prompts.py); their wording is not
      modelled. The committee message always starts with the English
      `judge_debate_instruction`, in both languages. */
  datatype JudgePrompts = JudgePrompts(instruction: string, instructionZh: string, debateInstruction: string)

  /** The judgement recorded when the backend refuses with a recoverable error. */
  const ErrorJudgement: string := "$ERROR$"

  /** The exception `reformat_history` raises on a one-round debate in the
      reduced mode. */
  const NotImplemented: Exception := RuntimeError("Not implemented yet")

  /** Python's `s[k]` for a possibly negative index. */
  function PyAt(s: seq<string>, k: int): string
    requires -|s| <= k < |s|
  {
    if k >= 0 then s[k] else s[|s| + k]
  }

  // ---------------------------------------------------------------------
  // The transcript (`reformat_history`)

  /** An f-string shows `None` as the text `None`. */
  function Shown(ref: Option<string>): string
  {
    if ref.Some? then ref.value else "None"
  }

  function QuestionLine(lang: Language, q: string): string
  {
    if lang == En then "initial user input: " + q + "\n" else "初始用户输入: " + q + "\n"
  }

  function RefHintLabel(lang: Language): string
  {
    if lang == En then "Focus more on the accuracy of the answers, here is a Reference Answer to use:\n"
    else "请更专注于答案的准确性，这里有一个参考答案供您使用：\n"
  }

  /** The reference-answer hint: only for the domains of `NeedRefDomains`. */
  function RefHint(lang: Language, domain: string, ref: Option<string>): string
  {
    if domain in NeedRefDomains(lang) then RefHintLabel(lang) + Shown(ref) + "\n" else ""
  }

  /** `[[Round n]]`, or `[[第n轮]]`. */
  function RoundHeader(lang: Language, n: nat): string
  {
    if lang == En then "\n\n[[Round " + NatToString(n) + "]]\n" else "\n\n[[第" + NatToString(n) + "轮]]\n"
  }

  /** `role.upper()`. */
  function SideLabel(side: Side): string
  {
    if side == A then "A" else "B"
  }

  /** One side-labelled turn. */
  function TurnBlock(lang: Language, side: Side, content: string): string
  {
    if lang == En then "Assistant " + SideLabel(side) + ":\n" + content + "\n" else SideLabel(side) + "助手:\n" + content + "\n"
  }

  /** The side-labelled turns of one round, in order. */
  function TurnPieces(lang: Language, round: seq<Entry>): seq<string>
  {
    seq(|round|, k requires 0 <= k < |round| => TurnBlock(lang, round[k].side, round[k].response.original))
  }

  /** The pieces the `'LD'` mode appends: each round's header, then its
      turns. */
  function RoundPieces(lang: Language, rounds: seq<seq<Entry>>): seq<string>
  {
    if rounds == [] then []
    else RoundPieces(lang, rounds[..|rounds| - 1]) + [RoundHeader(lang, |rounds|)] + TurnPieces(lang, rounds[|rounds| - 1])
  }

  /** The pieces `reformat_history` appends in order: the question, the
      reference hint, then the rounds. Any mode other than `'LD'` shows only
      A's first turn and B's first turn of round 2 under one header. */
  function Pieces(lang: Language, debate: DebateHistory, ref: Option<string>, evaluateTurn: string): seq<string>
    requires evaluateTurn != "LD" ==> |debate.rounds| >= 2 && |debate.rounds[0]| > 0 && |debate.rounds[1]| > 0
  {
    var front := [QuestionLine(lang, debate.question.question), RefHint(lang, debate.question.domain, ref)];
    if evaluateTurn == "LD" then front + RoundPieces(lang, debate.rounds)
    else front + [RoundHeader(lang, 1), TurnBlock(lang, A, debate.rounds[0][0].response.original),
                  TurnBlock(lang, B, debate.rounds[1][0].response.original)]
  }

  /** What `reformat_history(debate, ref_answer, evaluate_turn)` returns or
      raises: the reduced mode indexes past a missing round or turn, and is
      not implemented for a one-round debate. */
  function Rendered(lang: Language, debate: DebateHistory, ref: Option<string>, evaluateTurn: string): Result<string, Exception>
  {
    var rounds := debate.rounds;
    if evaluateTurn != "LD" && |rounds| == 1 then (if |rounds[0]| < 2 then Err(IndexError) else Err(NotImplemented))
    else if evaluateTurn != "LD" && (|rounds| == 0 || |rounds[0]| == 0 || |rounds[1]| == 0) then Err(IndexError)
    else Ok(Concat(Pieces(lang, debate, ref, evaluateTurn)))
  }

  /** The transcript starts with the question line; the `'LD'` mode always
      renders, and the reduced mode raises a non-recoverable error on a
      one-round debate. */
  lemma RenderedSpec(lang: Language, debate: DebateHistory, ref: Option<string>, evaluateTurn: string)
    ensures Rendered(lang, debate, ref, evaluateTurn).Ok? ==>
              IsPrefix(QuestionLine(lang, debate.question.question), Rendered(lang, debate, ref, evaluateTurn).value)
    ensures evaluateTurn == "LD" ==> Rendered(lang, debate, ref, evaluateTurn).Ok?
    ensures evaluateTurn != "LD" && |debate.rounds| == 1 ==>
              Rendered(lang, debate, ref, evaluateTurn).Err? && !Recoverable(Rendered(lang, debate, ref, evaluateTurn).error)
  {
    if Rendered(lang, debate, ref, evaluateTurn).Ok? {
      ConcatHead(Pieces(lang, debate, ref, evaluateTurn));
    }
  }

  /** Outside the reference domains the transcript does not depend on the
      reference answer. */
  lemma RefHintIgnored(lang: Language, debate: DebateHistory, ref: Option<string>, other: Option<string>, evaluateTurn: string)
    requires debate.question.domain !in NeedRefDomains(lang)
    ensures Rendered(lang, debate, ref, evaluateTurn) == Rendered(lang, debate, other, evaluateTurn)
  {
    assert RefHint(lang, debate.question.domain, ref) == RefHint(lang, debate.question.domain, other);
  }

  /** In the reference domains the transcript shows the reference answer
      (`None` when there is none) under the hint. */
  lemma RefHintShown(lang: Language, debate: DebateHistory, ref: Option<string>, evaluateTurn: string)
    requires debate.question.domain in NeedRefDomains(lang) && Rendered(lang, debate, ref, evaluateTurn).Ok?
    ensures Contains(Rendered(lang, debate, ref, evaluateTurn).value, RefHintLabel(lang) + Shown(ref))
  {
    var ps := Pieces(lang, debate, ref, evaluateTurn);
    var shown := RefHintLabel(lang) + Shown(ref);
    ContainsSelf(shown);
    ContainsConcat(shown, "\n", shown);
    assert ps[1] == shown + "\n";
    assert ps[1..][1..] == ps[2..];
    ContainsConcat(ps[1], Concat(ps[2..]), shown);
    ContainsConcat(ps[0], Concat(ps[1..]), shown);
  }

  /** The transcript of a debate that ran all three rounds: `[[Round 1]]`
      with A, B, A; `[[Round 2]]` with B, A, B; `[[Round 3]]` with A, B, A. */
  lemma FullDebateTranscript(lang: Language, results: seq<Result<Response, Exception>>)
    requires Played(results) && !Failed(results)
    ensures Outcome(results).Ok?
    ensures RoundPieces(lang, Outcome(results).value)
         == [RoundHeader(lang, 1), TurnBlock(lang, A, results[0].value.original), TurnBlock(lang, B, results[2].value.original),
               TurnBlock(lang, A, results[3].value.original),
             RoundHeader(lang, 2), TurnBlock(lang, B, results[1].value.original), TurnBlock(lang, A, results[4].value.original),
               TurnBlock(lang, B, results[5].value.original),
             RoundHeader(lang, 3), TurnBlock(lang, A, results[6].value.original), TurnBlock(lang, B, results[7].value.original),
               TurnBlock(lang, A, results[8].value.original)]
  {
    var r1, r2, r3 := Round1(results), Round2(results), Round3(results);
    assert Outcome(results).value == [r1, r2, r3];
    ThreeRounds(lang, r1, r2, r3);
    ThreeTurns(lang, r1);
    ThreeTurns(lang, r2);
    ThreeTurns(lang, r3);
  }

  lemma ThreeRounds(lang: Language, r1: seq<Entry>, r2: seq<Entry>, r3: seq<Entry>)
    ensures RoundPieces(lang, [r1, r2, r3])
         == [RoundHeader(lang, 1)] + TurnPieces(lang, r1) + [RoundHeader(lang, 2)] + TurnPieces(lang, r2)
            + [RoundHeader(lang, 3)] + TurnPieces(lang, r3)
  {
    var rounds := [r1, r2, r3];
    assert rounds[..0] == [] && rounds[..3] == rounds;
    RoundPiecesStep(lang, rounds, 0);
    RoundPiecesStep(lang, rounds, 1);
    RoundPiecesStep(lang, rounds, 2);
  }

  lemma ThreeTurns(lang: Language, round: seq<Entry>)
    requires |round| == 3
    ensures TurnPieces(lang, round) == [TurnBlock(lang, round[0].side, round[0].response.original),
                                        TurnBlock(lang, round[1].side, round[1].response.original),
                                        TurnBlock(lang, round[2].side, round[2].response.original)]
  {
  }

  // ---------------------------------------------------------------------
  // The verdict

  /** The verdict read off a judgement: by marker priority `[[A]]`, `[[B]]`,
      then `[[Tie]]` or `[[平局]]`, wherever each occurs. */
  function VerdictOf(judgement: string): string
  {
    if Contains(judgement, "[[A]]") then "A"
    else if Contains(judgement, "[[B]]") then "B"
    else if Contains(judgement, "[[Tie]]") || Contains(judgement, "[[平局]]") then "tie"
    else "error"
  }

  /** A judgement that names A anywhere is a win for A, even when a `[[B]]`
      or a tie marker comes first. */
  lemma VerdictPrefersA(p: string, q: string)
    ensures VerdictOf(p + "[[A]]" + q) == "A"
  {
    ContainsInfix(p, "[[A]]", q);
  }

  /** Without `[[A]]`, a `[[B]]` anywhere wins over any tie marker. */
  lemma VerdictPrefersB(p: string, q: string)
    requires !Contains(p + "[[B]]" + q, "[[A]]")
    ensures VerdictOf(p + "[[B]]" + q) == "B"
  {
    ContainsInfix(p, "[[B]]", q);
  }

  /** A tie marker counts only when neither side is named. */
  lemma VerdictTie(p: string, q: string, marker: string)
    requires marker == "[[Tie]]" || marker == "[[平局]]"
    requires !Contains(p + marker + q, "[[A]]") && !Contains(p + marker + q, "[[B]]")
    ensures VerdictOf(p + marker + q) == "tie"
  {
    ContainsInfix(p, marker, q);
  }

  lemma {:induction false} ContainsLength(s: string, t: string)
    ensures Contains(s, t) ==> |t| <= |s|
    decreases |s|
  {
    if s != [] {
      ContainsLength(s[1..], t);
    }
  }

  /** A text with no `[` contains no marker. */
  lemma {:induction false} NoMarkerWithoutBracket(s: string, t: string)
    requires t != [] && t[0] == '['
    requires forall k :: 0 <= k < |s| ==> s[k] != '['
    ensures !Contains(s, t)
    decreases |s|
  {
    if s != [] {
      NoMarkerWithoutBracket(s[1..], t);
    }
  }

  /** `text.replace(shown, '')`, where Python leaves the text alone for an
      empty `shown`. */
  function Cleaned(judgement: string, shown: Option<string>): string
  {
    if shown.Some? && shown.value != "" then Replace(judgement, shown.value, "") else judgement
  }

  /** The judgement `get_evaluation` records for a backend reply, with the
      transcript it showed (if any) cut out; a non-recoverable error
      propagates. */
  function Judged(reply: Reply, shown: Option<string>): Result<string, Exception>
  {
    if reply.Raised? then
      if Recoverable(reply.exception) then Ok(Cleaned(ErrorJudgement, shown)) else Err(reply.exception)
    else Ok(Cleaned(reply.text, shown))
  }

  /** A recoverable backend error becomes the judgement `$ERROR$` and the
      winner `error`, whatever transcript was shown. */
  lemma RecoverableIsError(reply: Reply, lang: Language, debate: Option<DebateHistory>, ref: Option<string>, evaluateTurn: string)
    requires reply.Raised? && Recoverable(reply.exception)
    requires debate.Some? ==> Rendered(lang, debate.value, ref, evaluateTurn).Ok?
    ensures var shown := if debate.Some? then Some(Rendered(lang, debate.value, ref, evaluateTurn).value) else None;
            Judged(reply, shown) == Ok(ErrorJudgement) && VerdictOf(ErrorJudgement) == "error"
  {
    if debate.Some? {
      var text := Rendered(lang, debate.value, ref, evaluateTurn).value;
      RenderedSpec(lang, debate.value, ref, evaluateTurn);
      assert |QuestionLine(lang, debate.value.question.question)| > |ErrorJudgement|;
      ErrorKept(text);
    }
    ErrorVerdict();
  }

  /** A transcript longer than `$ERROR$` does not occur in it, so cutting it
      out leaves `$ERROR$` alone. */
  lemma ErrorKept(text: string)
    requires |text| > |ErrorJudgement|
    ensures Cleaned(ErrorJudgement, Some(text)) == ErrorJudgement
  {
    ContainsLength(ErrorJudgement, text);
  }

  /** `$ERROR$` holds no verdict marker. */
  lemma ErrorVerdict()
    ensures VerdictOf(ErrorJudgement) == "error"
  {
    NoMarkerWithoutBracket(ErrorJudgement, "[[A]]");
    NoMarkerWithoutBracket(ErrorJudgement, "[[B]]");
    NoMarkerWithoutBracket(ErrorJudgement, "[[Tie]]");
    NoMarkerWithoutBracket(ErrorJudgement, "[[平局]]");
  }

  /** `int(300*word2token)` in the judge's language. */
  function JudgeBudget(lang: Language, word2tokenEn: real, word2tokenZh: real): int
  {
    IntOf(300.0 * (if lang == En then word2tokenEn else word2tokenZh))
  }

  /** `(winner, judgement, debate_history)` of `get_evaluation`. */
  datatype Evaluation = Evaluation(winner: string, judgement: string, debateHistory: Option<string>)

  // ---------------------------------------------------------------------
  // The committee message (`receive_committee_response`)

  /** `[j for j in judges if j != self.model_name]`. */
  function Others(judges: seq<string>, self: string): (r: seq<string>)
    ensures forall n :: n in r <==> n in judges && n != self
    ensures forall i :: 0 <= i < |r| ==> r[i] in judges && r[i] != self
  {
    if judges == [] then []
    else Others(judges[..|judges| - 1], self) + (if judges[|judges| - 1] == self then [] else [judges[|judges| - 1]])
  }

  /** `judge_dict[n]["judgement"][round - 1]` exists (Python indexing). */
  predicate HasRound(records: map<string, JudgeRecord>, n: string, round: int)
  {
    n in records && -|records[n].judgement| <= round - 1 < |records[n].judgement|
  }

  /** The judgements of `names` in refinement round `round - 1`. */
  function Judgements(names: seq<string>, records: map<string, JudgeRecord>, round: int): (r: seq<string>)
    requires forall i :: 0 <= i < |names| ==> HasRound(records, names[i], round)
    ensures |r| == |names|
  {
    if names == [] then []
    else
      var n := names[|names| - 1];
      assert HasRound(records, n, round);
      assert forall i :: 0 <= i < |names| - 1 ==> names[..|names| - 1][i] == names[i];
      Judgements(names[..|names| - 1], records, round) + [PyAt(records[n].judgement, round - 1)]
  }

  /** The judgements without the `$ERROR$` ones, in order. */
  function Kept(js: seq<string>): (r: seq<string>)
    ensures |r| <= |js|
  {
    if js == [] then []
    else Kept(js[..|js| - 1]) + (if js[|js| - 1] == ErrorJudgement then [] else [js[|js| - 1]])
  }

  /** A judgement is kept exactly when it is not `$ERROR$`, and keeping
      commutes with concatenation (so the order is kept). */
  lemma {:induction false} KeptSpec(a: seq<string>, b: seq<string>)
    ensures Kept(a + b) == Kept(a) + Kept(b)
    ensures forall x :: x in Kept(a) <==> x in a && x != ErrorJudgement
    decreases |b|
  {
    if b == [] {
      assert a + b == a;
    } else {
      assert (a + b)[..|a + b| - 1] == a + b[..|b| - 1];
      KeptSpec(a, b[..|b| - 1]);
    }
    KeptMembers(a);
  }

  lemma {:induction false} KeptMembers(a: seq<string>)
    ensures forall x :: x in Kept(a) <==> x in a && x != ErrorJudgement
    decreases |a|
  {
    if a != [] {
      KeptMembers(a[..|a| - 1]);
      assert a == a[..|a| - 1] + [a[|a| - 1]];
    }
  }

  function CommitteeLabel(lang: Language, i: nat): string
  {
    if lang == En then "\n\nJudge " + NatToString(i) + ":\n" else "\n\n评委" + NatToString(i) + ":\n"
  }

  /** The judgements `ks`, the k-th one under the ordinal `first + k`. */
  function Labelled(lang: Language, ks: seq<string>, first: nat): (r: seq<string>)
    ensures |r| == |ks|
  {
    if ks == [] then []
    else Labelled(lang, ks[..|ks| - 1], first) + [CommitteeLabel(lang, first + |ks| - 1) + ks[|ks| - 1]]
  }

  /** The committee message for the judgements `js` of the other judges,
      one judgement at a time: a judgement other than `$ERROR$` goes in
      under the next ordinal. */
  function CommitteeMessage(lang: Language, instruction: string, js: seq<string>): string
  {
    if js == [] then instruction
    else
      var front := js[..|js| - 1];
      var judgement := js[|js| - 1];
      if judgement == ErrorJudgement then CommitteeMessage(lang, instruction, front)
      else CommitteeMessage(lang, instruction, front) + (CommitteeLabel(lang, |Kept(front)| + 1) + judgement)
  }

  /** The committee message is the instruction followed by the kept
      judgements, in order, each under its ordinal counted from 1. */
  lemma {:induction false} CommitteeMessageSpec(lang: Language, instruction: string, js: seq<string>)
    ensures CommitteeMessage(lang, instruction, js) == Concat([instruction] + Labelled(lang, Kept(js), 1))
    decreases |js|
  {
    if js == [] {
      ConcatSnoc([], instruction);
    } else {
      CommitteeMessageSpec(lang, instruction, js[..|js| - 1]);
      if js[|js| - 1] == ErrorJudgement {
        SkippedJudgement(lang, instruction, js);
      } else {
        LabelledJudgement(lang, instruction, js);
      }
    }
  }

  lemma SkippedJudgement(lang: Language, instruction: string, js: seq<string>)
    requires js != [] && js[|js| - 1] == ErrorJudgement
    requires CommitteeMessage(lang, instruction, js[..|js| - 1]) == Concat([instruction] + Labelled(lang, Kept(js[..|js| - 1]), 1))
    ensures CommitteeMessage(lang, instruction, js) == Concat([instruction] + Labelled(lang, Kept(js), 1))
  {
    var front := js[..|js| - 1];
    assert Kept(js) == Kept(front) + [] == Kept(front);
    assert CommitteeMessage(lang, instruction, js) == CommitteeMessage(lang, instruction, front);
  }

  lemma LabelledJudgement(lang: Language, instruction: string, js: seq<string>)
    requires js != [] && js[|js| - 1] != ErrorJudgement
    requires CommitteeMessage(lang, instruction, js[..|js| - 1]) == Concat([instruction] + Labelled(lang, Kept(js[..|js| - 1]), 1))
    ensures CommitteeMessage(lang, instruction, js) == Concat([instruction] + Labelled(lang, Kept(js), 1))
  {
    var front := js[..|js| - 1];
    var judgement := js[|js| - 1];
    var kept := Kept(front);
    var block := CommitteeLabel(lang, |kept| + 1) + judgement;
    assert Kept(js) == kept + [judgement];
    assert (kept + [judgement])[..|kept|] == kept;
    var lines := [instruction] + Labelled(lang, kept, 1);
    assert [instruction] + Labelled(lang, Kept(js), 1) == lines + [block];
    ConcatSnoc(lines, block);
    assert CommitteeMessage(lang, instruction, js) == CommitteeMessage(lang, instruction, front) + block;
  }

  // ---------------------------------------------------------------------
  // The majority vote

  /** The votes other than `'error'`, in order. */
  function NonError(votes: seq<string>): (r: seq<string>)
    ensures forall v :: v in r <==> v in votes && v != "error"
    ensures forall v :: v != "error" ==> multiset(r)[v] == multiset(votes)[v]
  {
    if votes == [] then []
    else
      var front := votes[..|votes| - 1];
      assert votes == front + [votes[|votes| - 1]];
      NonError(front) + (if votes[|votes| - 1] == "error" then [] else [votes[|votes| - 1]])
  }

  /** `w` has strictly more votes than any other value. */
  predicate Leads(votes: seq<string>, w: string)
  {
    w in votes && forall v :: v in votes && v != w ==> multiset(votes)[v] < multiset(votes)[w]
  }

  /** A value with the most votes among `xs`, the first one on a draw. */
  function MostVoted(votes: seq<string>, xs: seq<string>): (w: string)
    requires xs != []
    ensures w in xs && forall x :: x in xs ==> multiset(votes)[x] <= multiset(votes)[w]
  {
    if |xs| == 1 then xs[0]
    else
      var w := MostVoted(votes, xs[1..]);
      if multiset(votes)[xs[0]] >= multiset(votes)[w] then xs[0] else w
  }

  /** `majority_vote(results)`: the value with strictly the most votes once
      the `'error'` votes are dropped, `'tie'` when no value has, and the
      `IndexError` of `sorted_count[0]` when nothing is left. */
  function MajorityVote(votes: seq<string>): (r: Result<string, Exception>)
    ensures r.Err? <==> forall v :: v in votes ==> v == "error"
    ensures r.Err? ==> r.error == IndexError
    ensures r.Ok? ==> Leads(NonError(votes), r.value) || (r.value == "tie" && forall w :: !Leads(NonError(votes), w))
  {
    var kept := NonError(votes);
    if kept == [] then Err(IndexError)
    else
      var w := MostVoted(kept, kept);
      if forall v :: v in kept && v != w ==> multiset(kept)[v] < multiset(kept)[w] then Ok(w)
      else Ok("tie")
  }

  /** Dropping `'error'` votes commutes with concatenation. */
  lemma {:induction false} NonErrorAppend(a: seq<string>, b: seq<string>)
    ensures NonError(a + b) == NonError(a) + NonError(b)
    decreases |b|
  {
    if b == [] {
      assert a + b == a;
    } else {
      assert (a + b)[..|a + b| - 1] == a + b[..|b| - 1];
      NonErrorAppend(a, b[..|b| - 1]);
    }
  }

  lemma {:induction false} NoneKept(votes: seq<string>)
    requires forall v :: v in votes ==> v == "error"
    ensures NonError(votes) == []
    decreases |votes|
  {
    if votes != [] {
      var front := votes[..|votes| - 1];
      assert votes[|votes| - 1] in votes;
      forall v | v in front ensures v == "error" {
        assert v in votes;
      }
      NoneKept(front);
    }
  }

  lemma {:induction false} AllKept(votes: seq<string>)
    requires forall v :: v in votes ==> v != "error"
    ensures NonError(votes) == votes
    decreases |votes|
  {
    if votes != [] {
      var front := votes[..|votes| - 1];
      assert votes[|votes| - 1] in votes;
      forall v | v in front ensures v != "error" {
        assert v in votes;
      }
      AllKept(front);
    }
  }

  /** `'error'` votes, wherever they are added, never change the outcome. */
  lemma ErrorsIgnored(before: seq<string>, votes: seq<string>, after: seq<string>)
    requires forall v :: v in before ==> v == "error"
    requires forall v :: v in after ==> v == "error"
    ensures MajorityVote(before + votes + after) == MajorityVote(votes)
  {
    NonErrorAppend(before, votes);
    NonErrorAppend(before + votes, after);
    NoneKept(before);
    NoneKept(after);
    assert NonError(before + votes) == [] + NonError(votes) == NonError(votes);
    assert NonError(before + votes + after) == NonError(votes) + [] == NonError(votes);
    SameKept(before + votes + after, votes);
  }

  /** The outcome depends only on the votes other than `'error'`. */
  lemma SameKept(a: seq<string>, b: seq<string>)
    requires NonError(a) == NonError(b)
    ensures MajorityVote(a) == MajorityVote(b)
  {
  }

  /** A value with strictly the most non-error votes wins. */
  lemma LeaderWins(votes: seq<string>, w: string)
    requires Leads(NonError(votes), w)
    ensures MajorityVote(votes) == Ok(w)
  {
    assert w in votes && w != "error";
  }

  /** With no strict leader, and some non-error vote, the outcome is a tie. */
  lemma NoLeaderTies(votes: seq<string>, v: string)
    requires v in votes && v != "error"
    requires forall w :: !Leads(NonError(votes), w)
    ensures MajorityVote(votes) == Ok("tie")
  {
  }

  /** The order of the votes does not matter (`majority_vote` counts them). */
  lemma VoteOrderIrrelevant(a: seq<string>, b: seq<string>)
    requires multiset(a) == multiset(b)
    ensures MajorityVote(a) == MajorityVote(b)
  {
    var ka, kb := NonError(a), NonError(b);
    assert multiset(ka) == multiset(kb) by {
      forall v ensures multiset(ka)[v] == multiset(kb)[v] {
        if v == "error" {
          assert v !in ka && v !in kb;
        }
      }
    }
    LeadsByCount(ka, kb);
    if w :| Leads(ka, w) {
      LeaderWins(a, w);
      LeaderWins(b, w);
    } else if v :| v in a && v != "error" {
      assert v in multiset(b);
      NoLeaderTies(a, v);
      NoLeaderTies(b, v);
    } else {
      forall v | v in b ensures v == "error" {
        assert v in multiset(b);
        assert v in multiset(a);
        assert v in a;
      }
    }
  }

  lemma LeadsByCount(a: seq<string>, b: seq<string>)
    requires multiset(a) == multiset(b)
    ensures forall w :: Leads(a, w) <==> Leads(b, w)
  {
    forall w ensures Leads(a, w) <==> Leads(b, w) {
      assert w in a <==> w in multiset(a);
      assert w in b <==> w in multiset(b);
      forall v ensures v in a <==> v in b {
        assert v in a <==> v in multiset(a);
        assert v in b <==> v in multiset(b);
      }
    }
  }

  /** Worked examples of `majority_vote`: `[A,A,B] -> A`, `[A,B,tie] -> tie`,
      `[A,A,B,B] -> tie` and `[error,error,A] -> A`. */
  lemma PluralityExample()
    ensures MajorityVote(["A", "A", "B"]) == Ok("A")
  {
    AllKept(["A", "A", "B"]);
    TwoOverOne("A", "B");
    LeaderWins(["A", "A", "B"], "A");
  }

  lemma ThreeWayTieExample()
    ensures MajorityVote(["A", "B", "tie"]) == Ok("tie")
  {
    AllKept(["A", "B", "tie"]);
    ThreeWayDraw("A", "B", "tie");
    NoLeaderTies(["A", "B", "tie"], "A");
  }

  lemma TwoWayTieExample()
    ensures MajorityVote(["A", "A", "B", "B"]) == Ok("tie")
  {
    AllKept(["A", "A", "B", "B"]);
    TwoWayDraw("A", "B");
    NoLeaderTies(["A", "A", "B", "B"], "A");
  }

  lemma TwoOverOne(a: string, b: string)
    requires a != b
    ensures Leads([a, a, b], a)
  {
    var s := [a, a, b];
    assert multiset(s)[a] == 2 && multiset(s)[b] == 1;
  }

  lemma ThreeWayDraw(a: string, b: string, c: string)
    requires a != b && b != c && a != c
    ensures forall w :: !Leads([a, b, c], w)
  {
    var s := [a, b, c];
    assert multiset(s)[a] == 1 && multiset(s)[b] == 1 && multiset(s)[c] == 1;
  }

  lemma TwoWayDraw(a: string, b: string)
    requires a != b
    ensures forall w :: !Leads([a, a, b, b], w)
  {
    var s := [a, a, b, b];
    assert multiset(s)[a] == 2 && multiset(s)[b] == 2;
  }

  /** A single vote other than `'error'` wins. */
  lemma SoleVote(w: string)
    requires w != "error"
    ensures MajorityVote([w]) == Ok(w)
  {
    AllKept([w]);
    LeaderWins([w], w);
  }

  lemma ErrorVotesExample()
    ensures MajorityVote(["error", "error", "A"]) == Ok("A")
  {
    var a, e := "A", "error";
    SoleVote(a);
    ErrorsIgnored([e, e], [a], []);
    assert [e, e] + [a] + [] == [e, e, a];
  }

  // ---------------------------------------------------------------------
  // The judge

  /** `judge_dict[name]`: the judge's verdicts and judgements, one per round. */
  datatype JudgeRecord = JudgeRecord(winner: seq<string>, judgement: seq<string>)

  /** Every recorded verdict is the one read off the judgement beside it. */
  predicate Aligned(records: map<string, JudgeRecord>)
  {
    forall n :: n in records ==>
      && |records[n].winner| == |records[n].judgement|
      && forall t :: 0 <= t < |records[n].winner| ==> records[n].winner[t] == VerdictOf(records[n].judgement[t])
  }

  /** `text += piece`, keeping track of the pieces appended so far. */
  lemma RoundPiecesStep(lang: Language, rounds: seq<seq<Entry>>, i: nat)
    requires i < |rounds|
    ensures RoundPieces(lang, rounds[..i + 1])
      == RoundPieces(lang, rounds[..i]) + ([RoundHeader(lang, i + 1)] + TurnPieces(lang, rounds[i]))
  {
    assert rounds[..i + 1][..i] == rounds[..i];
  }

  lemma SeqAssoc<T>(a: seq<T>, b: seq<T>, c: seq<T>)
    ensures (a + b) + c == a + (b + c)
  {
  }

  /** One round of the `'LD'` mode: its header, then its turns. */
  method AddRound(lang: Language, text: string, ghost lines: seq<string>, rounds: seq<seq<Entry>>, i: nat)
    returns (text': string, ghost lines': seq<string>)
    requires text == Concat(lines) && i < |rounds|
    ensures text' == Concat(lines') && lines' == lines + ([RoundHeader(lang, i + 1)] + TurnPieces(lang, rounds[i]))
  {
    text', lines' := Add(text, lines, RoundHeader(lang, i + 1));
    text', lines' := AddTurns(lang, text', lines', rounds[i]);
    SeqAssoc(lines, [RoundHeader(lang, i + 1)], TurnPieces(lang, rounds[i]));
  }

  /** The inner loop of `reformat_history`: one side-labelled block per turn. */
  method AddTurns(lang: Language, text: string, ghost lines: seq<string>, round: seq<Entry>)
    returns (text': string, ghost lines': seq<string>)
    requires text == Concat(lines)
    ensures text' == Concat(lines') && lines' == lines + TurnPieces(lang, round)
  {
    text', lines' := text, lines;
    assert lines + TurnPieces(lang, round[..0]) == lines;
    for j := 0 to |round|
      invariant text' == Concat(lines') && lines' == lines + TurnPieces(lang, round[..j])
    {
      var block := TurnBlock(lang, round[j].side, round[j].response.original);
      TurnPiecesStep(lang, round, j);
      text', lines' := Add(text', lines', block);
    }
    assert round[..|round|] == round;
  }

  lemma TurnPiecesStep(lang: Language, round: seq<Entry>, j: nat)
    requires j < |round|
    ensures TurnPieces(lang, round[..j + 1]) == TurnPieces(lang, round[..j]) + [TurnBlock(lang, round[j].side, round[j].response.original)]
  {
  }

  method Add(text: string, ghost lines: seq<string>, piece: string) returns (text': string, ghost lines': seq<string>)
    requires text == Concat(lines)
    ensures lines' == lines + [piece] && text' == Concat(lines') && text' == text + piece
  {
    ConcatSnoc(lines, piece);
    text', lines' := text + piece, lines + [piece];
  }

  /** The reduced mode's lines: round 1's header, A's first turn of round 1
      and B's first turn of round 2. */
  method AddOpenings(lang: Language, text: string, ghost lines: seq<string>, rounds: seq<seq<Entry>>)
    returns (text': string, ghost lines': seq<string>)
    requires text == Concat(lines) && |rounds| >= 2 && |rounds[0]| > 0 && |rounds[1]| > 0
    ensures text' == Concat(lines')
    ensures lines' == lines + [RoundHeader(lang, 1), TurnBlock(lang, A, rounds[0][0].response.original),
                               TurnBlock(lang, B, rounds[1][0].response.original)]
  {
    var header := RoundHeader(lang, 1);
    var first := TurnBlock(lang, A, rounds[0][0].response.original);
    var second := TurnBlock(lang, B, rounds[1][0].response.original);
    text', lines' := Add(text, lines, header);
    text', lines' := Add(text', lines', first);
    text', lines' := Add(text', lines', second);
    assert lines' == lines + [header, first, second];
  }

  /** The loop of `receive_committee_response` that builds the message:
      the opening instruction, then each kept judgement with its ordinal. */
  method CommitteeText(lang: Language, instruction: string, others: seq<string>, records: map<string, JudgeRecord>,
                       debateRound: int)
    returns (text: string)
    requires forall n :: n in others ==> HasRound(records, n, debateRound)
    ensures text == CommitteeMessage(lang, instruction, Judgements(others, records, debateRound))
  {
    text := instruction;
    var i := 1;
    for k := 0 to |others|
      invariant forall n :: n in others[..k] ==> HasRound(records, n, debateRound)
      invariant text == CommitteeMessage(lang, instruction, Judgements(others[..k], records, debateRound))
      invariant i == |Kept(Judgements(others[..k], records, debateRound))| + 1
    {
      JudgementsStep(others, records, debateRound, k);
      var judgement := PyAt(records[others[k]].judgement, debateRound - 1);
      text, i := AddJudgement(lang, instruction, Judgements(others[..k], records, debateRound), text, i, judgement);
    }
    assert others[..|others|] == others;
  }

  lemma JudgementsStep(others: seq<string>, records: map<string, JudgeRecord>, debateRound: int, k: nat)
    requires k < |others| && forall n :: n in others ==> HasRound(records, n, debateRound)
    ensures forall n :: n in others[..k] ==> HasRound(records, n, debateRound)
    ensures forall n :: n in others[..k + 1] ==> HasRound(records, n, debateRound)
    ensures HasRound(records, others[k], debateRound)
    ensures Judgements(others[..k + 1], records, debateRound)
            == Judgements(others[..k], records, debateRound) + [PyAt(records[others[k]].judgement, debateRound - 1)]
  {
    assert others[k] in others;
    forall n | n in others[..k + 1]
      ensures HasRound(records, n, debateRound)
    {
      assert n in others;
    }
    forall n | n in others[..k]
      ensures HasRound(records, n, debateRound)
    {
      assert n in others;
    }
    ghost var js := Judgements(others[..k + 1], records, debateRound);
    assert others[..k + 1][..k] == others[..k];
    assert js[..|js| - 1] == Judgements(others[..k], records, debateRound);
  }

  /** One pass of the `receive_committee_response` loop: a judgement other
      than `$ERROR$` goes in under the next ordinal, and `$ERROR$` is
      skipped without taking one. */
  method AddJudgement(lang: Language, instruction: string, ghost js: seq<string>, text: string, i: nat, judgement: string)
    returns (text': string, i': nat)
    requires text == CommitteeMessage(lang, instruction, js) && i == |Kept(js)| + 1
    ensures text' == CommitteeMessage(lang, instruction, js + [judgement]) && i' == |Kept(js + [judgement])| + 1
    ensures judgement == ErrorJudgement ==> text' == text && i' == i
    ensures judgement != ErrorJudgement ==> text' == text + (CommitteeLabel(lang, i) + judgement) && i' == i + 1
  {
    assert (js + [judgement])[..|js|] == js;
    text', i' := text, i;
    if judgement != ErrorJudgement {
      text' := text + (CommitteeLabel(lang, i) + judgement);
      i' := i + 1;
    }
  }

  class Judge {
    const modelName: string
    const language: Language
    /** The backend serving `modelName`. */
    const backend: Oracle
    const word2tokenEn: real
    const word2tokenZh: real
    const debateInstruction: string
    var chatHistory: seq<Message>

    /** `Judge(model_name, language)`. */
    constructor (modelName: string, language: Language, prompts: JudgePrompts, word2tokenEn: real, word2tokenZh: real,
                 backend: Oracle)
      ensures this.modelName == modelName && this.language == language && this.backend == backend
      ensures this.word2tokenEn == word2tokenEn && this.word2tokenZh == word2tokenZh
      ensures debateInstruction == prompts.debateInstruction
      ensures chatHistory == [Message(System, if language == En then prompts.instruction else prompts.instructionZh)]
    {
      this.modelName := modelName;
      this.language := language;
      this.backend := backend;
      this.word2tokenEn := word2tokenEn;
      this.word2tokenZh := word2tokenZh;
      debateInstruction := prompts.debateInstruction;
      if language == En {
        chatHistory := [Message(System, prompts.instruction)];
      } else {
        chatHistory := [Message(System, prompts.instructionZh)];
      }
    }

    /** `reformat_history`, building the text round by round and turn by
        turn. The partial text the reduced mode prints before it raises is
        not modelled. */
    method ReformatHistory(debate: DebateHistory, refAnswer: Option<string>, evaluateTurn: string)
      returns (r: Result<string, Exception>)
      ensures r == Rendered(language, debate, refAnswer, evaluateTurn)
    {
      var q := debate.question;
      var rounds := debate.rounds;
      var text := QuestionLine(language, q.question);
      ghost var lines := [text];
      assert text == Concat(lines) by {
        ConcatSnoc([], text);
      }
      text, lines := Add(text, lines, RefHint(language, q.domain, refAnswer));
      assert lines == [QuestionLine(language, q.question), RefHint(language, q.domain, refAnswer)];
      if evaluateTurn == "LD" {
        text, lines := AddRounds(text, lines, rounds);
        assert lines == Pieces(language, debate, refAnswer, evaluateTurn);
        r := Ok(text);
      } else if |rounds| == 1 {
        if |rounds[0]| < 2 {
          r := Err(IndexError);
        } else {
          r := Err(NotImplemented);
        }
      } else if |rounds| == 0 || |rounds[0]| == 0 || |rounds[1]| == 0 {
        r := Err(IndexError);
      } else {
        text, lines := AddOpenings(language, text, lines, rounds);
        assert lines == Pieces(language, debate, refAnswer, evaluateTurn);
        r := Ok(text);
      }
    }

    /** The `'LD'` loops of `reformat_history`: each round's header, then its
        turns. */
    method AddRounds(text: string, ghost lines: seq<string>, rounds: seq<seq<Entry>>)
      returns (text': string, ghost lines': seq<string>)
      requires text == Concat(lines)
      ensures text' == Concat(lines') && lines' == lines + RoundPieces(language, rounds)
    {
      text', lines' := text, lines;
      assert lines + RoundPieces(language, rounds[..0]) == lines;
      for i := 0 to |rounds|
        invariant text' == Concat(lines') && lines' == lines + RoundPieces(language, rounds[..i])
      {
        text', lines' := AddRound(language, text', lines', rounds, i);
        RoundPiecesStep(language, rounds, i);
        assert lines' == lines + RoundPieces(language, rounds[..i + 1]) by {
          SeqAssoc(lines, RoundPieces(language, rounds[..i]), [RoundHeader(language, i + 1)] + TurnPieces(language, rounds[i]));
        }
      }
      assert rounds[..|rounds|] == rounds;
    }

    /** `get_evaluation(debate, ref_answer, evaluate_turn)`: with a debate,
        its transcript goes into the chat history as one user entry; the
        backend's judgement (or `$ERROR$`) goes in as one assistant entry. */
    method GetEvaluation(debate: Option<DebateHistory>, refAnswer: Option<string>, evaluateTurn: string)
      returns (r: Result<Evaluation, Exception>)
      modifies this, backend
      ensures debate.Some? && Rendered(language, debate.value, refAnswer, evaluateTurn).Err? ==>
                r == Err(Rendered(language, debate.value, refAnswer, evaluateTurn).error)
                && chatHistory == old(chatHistory) && backend.log == old(backend.log)
      ensures debate.None? || Rendered(language, debate.value, refAnswer, evaluateTurn).Ok? ==>
                var shown := if debate.Some? then Some(Rendered(language, debate.value, refAnswer, evaluateTurn).value) else None;
                var asked := old(chatHistory) + (if debate.Some? then [Message(User, shown.value)] else []);
                var judged := Judged(backend.ReplyTo(|old(backend.log)|), shown);
                && backend.log == old(backend.log) + [Request(asked, Some(JudgeBudget(language, word2tokenEn, word2tokenZh)))]
                && (judged.Err? ==> r == Err(judged.error) && chatHistory == asked)
                && (judged.Ok? ==> r == Ok(Evaluation(VerdictOf(judged.value), judged.value, shown))
                                   && chatHistory == asked + [Message(Assistant, judged.value)])
    {
      var shown: Option<string> := None;
      if debate.Some? {
        var text := ReformatHistory(debate.value, refAnswer, evaluateTurn);
        if text.Err? {
          return Err(text.error);
        }
        chatHistory := chatHistory + [Message(User, text.value)];
        shown := Some(text.value);
      } else {
        assert chatHistory == old(chatHistory) + [];
      }
      var reply := backend.Generate(chatHistory, Some(JudgeBudget(language, word2tokenEn, word2tokenZh)));
      var judgement;
      if reply.Raised? {
        if Recoverable(reply.exception) {
          judgement := ErrorJudgement;
        } else {
          return Err(reply.exception);
        }
      } else {
        judgement := reply.text;
      }
      judgement := Cleaned(judgement, shown);
      var winner := VerdictOf(judgement);
      chatHistory := chatHistory + [Message(Assistant, judgement)];
      r := Ok(Evaluation(winner, judgement, shown));
    }

    /** `receive_committee_response(judge_dict, debate_round)`: one user entry
        holding the other judges' judgements of round `debateRound - 1`,
        without the `$ERROR$` ones, labelled 1, 2, 3, ... */
    method ReceiveCommitteeResponse(judges: seq<string>, records: map<string, JudgeRecord>, debateRound: int)
      requires forall n :: n in judges && n != modelName ==> HasRound(records, n, debateRound)
      modifies this
      ensures chatHistory == old(chatHistory)
                + [Message(User, CommitteeMessage(language, debateInstruction, Judgements(Others(judges, modelName), records, debateRound)))]
    {
      var others := Others(judges, modelName);
      var text := CommitteeText(language, debateInstruction, others, records, debateRound);
      chatHistory := chatHistory + [Message(User, text)];
    }
  }
}

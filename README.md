# Auto-Arena debate and judging core, in Dafny

Auto-Arena ranks chat models by having two of them debate a question in a
fixed Lincoln-Douglas format and having a committee of judge models pick a
winner. This project models that pipeline once the backend calls are
abstracted. It covers:

- **The debater.** A `Candidate` keeps a chat history and a list of mandated
  actions. It parses its generated text into tagged actions (`<think>`,
  `<respond>`, `<criticize>`, `<raise>`, or their Chinese forms), renders
  them back, and retries under a token budget when actions are missing.
- **The debate.** `make_pair_debate` runs nine turns over three rounds. On a
  backend error that carries a `param` of `max_tokens` or `security` (a
  *recoverable* error), it truncates the debate, then saves and returns it.
- **The judges.** A `Judge` renders a debate transcript, extracts a verdict
  by marker priority and reads the other judges' judgements.
- **`majority_vote`** decides each round of the committee.
- **`peer_evaluate`** on a debate not judged before: the reference answer,
  the first verdicts, and the refinement rounds.
- **The question bank.** It covers the question-file name, the parse of a
  block of numbered questions, the numbering of generated questions, loading
  with a per-domain cap, and lookup by id.

## Modules

- `wrappers.dfy` holds `Option` and `Result`.
- `text.dfy` holds the Python string operations the code uses: `''.join`,
  `in`, `split`, `replace`, `strip` and `str(int)`.
- `backend.dfy` treats the backend as a scripted oracle.
  - The reply to the n-th call of a run is `script(n)`.
  - Every request is logged with its history and token budget.
  - Any behaviour of the real service during one run is some script.
- `jsonl.dfy` models the jsonlines files appended to, as one log of
  `(file, record)` pairs.
- `protocol.dfy` holds the action tags.
  - It models `re.split` with a capturing group, the insertion rule of
    `append_action_to_parsed_list`, the parse, and the rendering.
  - It proves the round trip of the opponent-visible text.
- `candidate.dfy` holds the class `Candidate`.
- `debate.dfy` holds `make_pair_debate`.
- `judge.dfy` holds the class `Judge` and `majority_vote`.
- `peer.dfy` holds `peer_evaluate` and the reference-answer cache.
- `generator.dfy` holds the class `Generator`.

## Notes

Methods with loops are proved against specification functions, which the
lemmas reason about. Examples are `ParseResponse` against `Parse`,
`LoadQuestions` against `Capped`, and `ReformatHistory` against `Rendered`.

`majority_vote` over a list of nothing but `'error'` votes, or over no list
at all, has no candidate left.
The code instead indexes `sorted_count[0]` of an empty list and raises
`IndexError`. The model follows the code (`Judging.MajorityVote`).

## Model

| member | source | states |
|---|---|---|
| Text.ContainsIff | utils/LD_judge.py:138-142 | Python's `t in s` holds exactly when `t` starts at some position of `s` |
| Text.Before | utils/generator.py:51 | `s.split(sep)[0]` is the longest prefix of `s` free of `sep`; it is all of `s` exactly when `sep` does not occur |
| Text.After | utils/generator.py:49-51 | the text after the first `sep` completes `Before + sep` to the whole input |
| Text.StripSpec | utils/generator.py:49-51 | `strip()` is the infix left after cutting the leading and trailing whitespace, and nothing but whitespace is cut |
| Backend.Oracle.Generate | utils/candidate.py:50 | one backend call logs its request (history and budget) and returns the script's reply to the next call index |
| JsonLines.Sink.Append | utils/LD_debate.py:9-16 | a record is appended to the file log when a file is given, and nothing is written otherwise |
| Protocol.TagsDiffer | utils/candidate.py:140-142 | the four action tags of a language are pairwise different |
| Protocol.ActionListInLanguage | utils/candidate.py:7-12 | the translated list has the same length and order; each English tag becomes the same action's tag in the target language; English is the identity |
| Protocol.WellTagPrefixUnique | utils/candidate.py:140-142 | two tags that both start the same text are equal, so at most one alternative of the split pattern matches at a position |
| Protocol.TagAt | utils/candidate.py:140-142 | the alternative found matches at the start of the text; none found means none matches |
| Protocol.SplitKeep | utils/candidate.py:140-142 | `re.split` with a capturing group yields an odd number of pieces (text, separator, …, text) |
| Protocol.SplitKeepConcat | utils/candidate.py:140-142 | the split pieces concatenate back to the input |
| Protocol.SplitKeepSeparators | utils/candidate.py:140-142 | every odd-indexed piece is one of the tags |
| Protocol.SplitKeepText | utils/candidate.py:140-142 | no tag occurs inside an even-indexed (text) piece |
| Protocol.LastPieceNotTag | utils/candidate.py:140-153 | the last split piece is never a tag, so an opening tag always has a next piece to bind |
| Protocol.Split | utils/candidate.py:140-142 | the split of any text has an odd length and never ends with an opening tag |
| Protocol.CountHas | utils/candidate.py:116-119 | an action occurs in a parsed list exactly when its count is positive |
| Protocol.LastIndex | utils/candidate.py:124-128 | the reverse search finds an entry with the action, and no later entry has it |
| Protocol.AppendActionCases | utils/candidate.py:114-129 | a think, or an absent action, is appended at the end; otherwise the length is kept and only the last occurrence's content is replaced in place, every other entry unchanged |
| Protocol.AppendKeepsAtMostOnce | utils/candidate.py:114-129 | appending never creates a second entry of a non-think action |
| Protocol.MergeSnoc | utils/candidate.py:85-86 | merging one more fragment is one more `append_action_to_parsed_list` |
| Protocol.MergeFresh | utils/candidate.py:85-86 | merging non-think fragments that occur once in all is plain concatenation |
| Protocol.MergeThinks | utils/candidate.py:85-86 | merging think fragments is plain concatenation: thoughts repeat |
| Protocol.MergeKeepsAtMostOnce | utils/candidate.py:85-86 | merging keeps at most one entry of each non-think action |
| Protocol.MergeKeepsActions | utils/candidate.py:85-86 | merging lists whose actions lie in a set gives a list whose actions do |
| Protocol.ParseBind | utils/candidate.py:146-154 | an opening tag binds the very next piece as its content, whatever that piece is, and the piece is skipped |
| Protocol.ParseLoosePiece | utils/candidate.py:150-159 | a lone newline, a piece without a letter, or a closing tag is dropped; any other non-tag piece becomes a respond action |
| Protocol.ParseSkip | utils/candidate.py:150-159 | a newline or closing-tag piece leaves the parse unchanged |
| Protocol.ParsePiecesActions | utils/candidate.py:145-159 | the loop over the pieces only ever records opening tags as actions |
| Protocol.ParsePiecesAtMostOnce | utils/candidate.py:145-159 | the loop over the pieces keeps at most one entry of each non-think action |
| Protocol.ParseActionsAreOpenTags | utils/candidate.py:137-160 | every action `parse_response` returns is one of the language's four opening tags, never a closing tag |
| Protocol.ParseAtMostOnce | utils/candidate.py:137-160 | a parsed turn has at most one respond, criticize and raise |
| Protocol.UntaggedIsRespond | utils/candidate.py:150-159 | untagged text parses to one respond action when it has a letter and is not a lone newline, to nothing otherwise |
| Protocol.ClosingWellTag | utils/candidate.py:134 | `tag.replace("<", "</")` only inserts the slash after the first character |
| Protocol.ClosingOfTag | utils/candidate.py:167 | the closing tag rendered for an action is that action's closing tag in the split pattern |
| Protocol.RenderSnoc | utils/candidate.py:170-174 | `reformat_parsed` renders fragment by fragment, in order |
| Protocol.VisibleOnlySnoc | utils/candidate.py:164-167 | the opponent-visible fragments grow by a fragment exactly when it is a respond or a raise |
| Protocol.VisibleOnlyMembers | utils/candidate.py:164-167 | every visible fragment comes from the turn and is a respond or a raise |
| Protocol.CountVisibleOnly | utils/candidate.py:164-167 | filtering never adds occurrences of an action |
| Protocol.SplitRender | utils/candidate.py:140-142 | splitting a rendered turn yields, per fragment, its tag, its content, its closing tag and a newline |
| Protocol.ParseBlocks | utils/candidate.py:145-159 | parsing those pieces merges the fragments again, in order |
| Protocol.ParseRender | utils/candidate.py:137-174 | re-parsing a rendered turn gives back the merge of its fragments, when contents hold no tag |
| Protocol.ThinksRepeat | utils/candidate.py:119-121 | a turn of think fragments survives render and re-parse unchanged |
| Protocol.VisibleRenderable | utils/candidate.py:162-168 | the visible part of a turn with tag-free visible contents can be rendered faithfully and holds no think |
| Protocol.VisibleOnce | utils/candidate.py:162-168 | with at most one respond and one raise, each visible action occurs once |
| Protocol.NoThoughtRoundTrip | utils/candidate.py:137-168 | re-parsing `no_thought_content` gives exactly the respond and raise fragments, in order, when the turn has at most one of each and their contents hold no tag |
| Candidates.Undone | utils/candidate.py:65-67 | a mandated action is undone exactly when the turn has no fragment of it |
| Candidates.CombinedKeepsAtMostOnce | utils/candidate.py:84-86 | merging the retries' parses never creates a second fragment of a non-think action |
| Candidates.CombinedKeepsActions | utils/candidate.py:84-86 | merged retries keep every action among the opening tags |
| Candidates.TranscriptSnoc | utils/candidate.py:88-93 | each retry adds the whole `original` so far to the last chat entry |
| Candidates.Candidate.constructor | utils/candidate.py:15-41 | the prompt set of the language, the writing guides for extra-space domains, a system and a user entry, and `[respond]` as the mandated actions |
| Candidates.Candidate.AppendActionToParsedList | utils/candidate.py:114-129 | the reverse loop computes the insertion rule `AppendAction` |
| Candidates.Candidate.ParseResponse | utils/candidate.py:137-160 | the pass with `skip_next` over the split computes `Parse` |
| Candidates.Candidate.MergeParsed | utils/candidate.py:85-86 | the loop appends each incoming fragment in order (`Merge`) |
| Candidates.Candidate.NoThoughtContent | utils/candidate.py:162-168 | the loop renders the respond and raise fragments only (`NoThought`) |
| Candidates.Candidate.ReformatParsed | utils/candidate.py:170-174 | the loop renders every fragment (`Render`) |
| Candidates.Candidate.CombinedAtMostOnce | utils/candidate.py:56-86 | the turn `get_response` returns has at most one fragment of each non-think action |
| Candidates.Candidate.CombinedActionsAreOpenTags | utils/candidate.py:56-86 | every action of that turn is an opening tag |
| Candidates.Candidate.Absorb | utils/candidate.py:84-90 | a retry's text is parsed, merged into the turn, and the visible text recomputed |
| Candidates.Candidate.GetResponse | utils/candidate.py:43-100 | The first backend request holds the unchanged history and the full budget. The first text, when it is `$ERROR$`, raises, and so does a raising call. Either way the history is unchanged. Otherwise the history gains exactly one assistant entry. The result is: the first text followed by every retry text (`original`); their merged parse; its opponent-visible text. Retries are at most two. Each is made only while a mandated action is missing and more than ten tokens remain. Each asks under `max_tokens - used_tokens`. A raising retry propagates. |
| Candidates.Candidate.RetryOnce | utils/candidate.py:73-99 | one retry request goes to a copy of the history, with the missing actions and the budget left. A returned text is merged into the turn. The whole `original` so far is added to the last entry. A raising call leaves the history alone. |
| Candidates.Candidate.CompleteActions | utils/candidate.py:64-99 | the retry loop keeps the first text, makes at most two retries and stops exactly when no further one is allowed or one raised |
| Candidates.Candidate.ReceiveOpponentResponse | utils/candidate.py:102-112 | the mandated actions become the guide translated to the candidate's language; exactly one user entry with the guide's prompt and the opponent's text is added |
| Debate.IntOf | utils/LD_debate.py:46-53 | `int()` on a float truncates toward zero |
| Debate.BaseBudget | utils/LD_debate.py:40-53 | the budget is `int(400*w2t)` for an extra-space domain of the language, `int(300*w2t)` otherwise |
| Debate.BudgetOrder | utils/LD_debate.py:44-53 | an extra-space domain never gets the smaller budget, and no budget is negative |
| Debate.OutcomeErr | utils/LD_debate.py:56-120 | an error propagates exactly when it comes from an opening statement or is not recoverable. It is the error raised. |
| Debate.RoundCount | utils/LD_debate.py:60-124 | a returned debate has 1 to 3 rounds; 3 exactly when no error was caught; 1 exactly when round 1 was not committed |
| Debate.SidePatterns | utils/LD_debate.py:69-111 | every round alternates sides (`a,b,a`, `b,a,b` or the openings `a,b`). Round 1 starts with A's opening. Round 2, when it was played, starts with B's opening. Round 3 is `a,b,a`. |
| Debate.Truncation | utils/LD_debate.py:84-118 | a recoverable error before line 69 leaves only the openings round; one after it leaves round 1 and the openings; one in round 3 leaves rounds 1 and 2 |
| Debate.Budgets | utils/LD_debate.py:56-107 | B's rebuttal asks for twice the base budget, every other call for the base budget |
| Debate.Guides | utils/LD_debate.py:63-106 | every turn after the openings gets its guide: `['<criticize>', '<raise>']` for a cross-examination, `['<respond>']` for an answer, all three for B's rebuttal; the turn mandates that guide translated to the debate's language |
| Debate.GuideTags | utils/LD_debate.py:63-106 | translated, the three guides are the language's criticize and raise tags, its respond tag, and respond, criticize and raise, in that order |
| Debate.Speak | utils/LD_debate.py:63-64 | One turn asks the candidate for the guide's actions, in its language, under the given budget. The mandated actions become the turn's. The turn's first request is the next one in its backend's log, which only grows. That request carries the budget and the candidate's chat history as it stood. When the turn answers the opponent, that history is followed by a user entry: the guide's prompt, the opponent label, then the opponent's text. The new chat history is the one sent, plus one assistant entry with the transcript once a reply is accepted. A first reply that raises, or returns `$ERROR$`, becomes the error. Otherwise the accepted texts are the replies to that request and the next ones. Each retry was made only while a mandated action was undone, and its request asks for those actions. The response is the texts joined, with their merged parse and its visible text, unless a retry raised. |
| Debate.Responded | utils/candidate.py:43-100 | what `get_response` promises of its first request (the history as it stands), its replies, its retries and its result is the turn record `Made`, the log only grows, and the new history gains one assistant entry exactly when a reply was accepted |
| Debate.MakePairDebate | utils/LD_debate.py:18-124 | Both debaters are built from the prompt catalog with the language's guide prompts, and the budget is the domain's base budget. Both start from the opening history: the instruction, then the respond prompt, the initial-input label and `question`'s text. The nine calls are made as planned, with their sides, guides, heard texts and budgets. Turn `i` is request `calls[i]` of its side's backend, after the requests the backend held when the debate began. That request carries the budget and its side's chat history after the turns before it: the opening, then for each of that side's earlier turns the entry it heard and its reply transcript. When the turn answers, the request ends with the guide's prompt and the opponent's visible text. The candidates' final histories are those after all the turns. The replies decide the result as `get_response` does: the error of a failed first reply, or the replies joined with their merged parse, each retry asking for the guide's actions still undone. The result is the history with the rounds the outcome determines, or the propagated error. It is saved once when returned and a file is given. |
| Debate.Debate | utils/LD_debate.py:56-124 | for two distinct fresh candidates starting from the same opening history, the same: every planned call is the next request of its side's backend, carrying its side's history of the turns so far, the guide's prompt, the opponent's text and the budget, with its replies and retries as `get_response` makes them; the result is the one the outcome reports, saved once when returned |
| Debate.Step | utils/LD_debate.py:63-106 | a planned turn is the next request of its speaker's backend; that request and the replies from it on are what the turn record states (the speaker's history of the turns so far, guide prompt and opponent's text, budget, retries for the undone actions, result); its result extends the results so far, both backends' logs only grow, and only the speaker's history changes, by that turn's entries |
| Debate.EarlyExit | utils/LD_debate.py:84-95 | after an error in rounds 1-2 the result is the committed rounds plus the openings, or the error itself when it is not recoverable |
| Debate.LateExit | utils/LD_debate.py:112-120 | after an error in round 3 the result is the history as committed, or the error |
| Debate.FullExit | utils/LD_debate.py:109-124 | a full debate reports rounds 1, 2 and 3 |
| Debate.Exchange | utils/LD_debate.py:62-79 | a cross-examination asks, then (unless that call raised) the opponent answers; both are planned turns, each the next request of its side's backend |
| Debate.OpeningsAsked | utils/candidate.py:35-40 | both opening statements are asked on the opening history, the one holding the question, whatever the other side's opening did |
| Debate.HistoryGrows | utils/candidate.py:62 | a side's chat history only grows: its history after any first turns is a prefix of its history after all of them, so no turn resets it |
| Debate.FirstRounds | utils/LD_debate.py:60-83 | rounds 1 and 2 are two cross-examinations of planned turns; they stop at the first error, which is then the last result and the one caught, with round 1 committed exactly when it completed; otherwise all six results are in and rounds 1 and 2 are committed |
| Debate.RoundsOneTwo | utils/LD_debate.py:60-95 | the first `try` block either ends the debate with the reported and saved outcome, or commits rounds 1 and 2 with nothing saved |
| Debate.Closing | utils/LD_debate.py:102-107 | B's rebuttal, then (unless that call raised) A's final answer; both are planned turns, each the next request of its side's backend |
| Debate.ThirdRound | utils/LD_debate.py:97-107 | the calls of round 3 are planned turns; they stop at the first error, which is then the last result and the one caught, and otherwise give all nine results and round 3 as committed |
| Debate.RoundThree | utils/LD_debate.py:97-124 | the second `try` block and the final save report the outcome of all calls and save it once when it is returned |
| Debate.RecoverEarly | utils/LD_debate.py:84-95 | a recoverable error appends the openings round, saves and returns the history; another error propagates unsaved |
| Debate.RecoverLate | utils/LD_debate.py:112-120 | a recoverable error saves and returns the history as it stands; another error propagates unsaved |
| Judging.RenderedSpec | utils/LD_judge.py:36-99 | the transcript starts with the question line; the `'LD'` mode always renders; the reduced mode raises a non-recoverable error on a one-round debate |
| Judging.RefHintIgnored | utils/LD_judge.py:45-48 | outside the reference domains, the transcript does not depend on the reference answer |
| Judging.RefHintShown | utils/LD_judge.py:45-48 | in the reference domains, the transcript shows the hint with the reference answer, or `None` |
| Judging.FullDebateTranscript | utils/LD_judge.py:50-64 | a three-round debate renders as `[[Round 1]]` A, B, A; `[[Round 2]]` B, A, B; `[[Round 3]]` A, B, A, each turn its full text |
| Judging.VerdictPrefersA | utils/LD_judge.py:138-139 | a judgement with `[[A]]` anywhere is a win for A, even after a `[[B]]` or a tie marker |
| Judging.VerdictPrefersB | utils/LD_judge.py:140-141 | without `[[A]]`, a `[[B]]` anywhere wins over a tie marker |
| Judging.VerdictTie | utils/LD_judge.py:142-143 | `[[Tie]]` or `[[平局]]` counts only when neither side is named |
| Judging.RecoverableIsError | utils/LD_judge.py:127-143 | a recoverable backend error becomes the judgement `$ERROR$` and the winner `error`, whatever transcript was shown |
| Judging.Others | utils/LD_judge.py:149 | exactly the committee members other than the judge itself |
| Judging.KeptSpec | utils/LD_judge.py:154 | dropping `$ERROR$` judgements keeps every other one, in order |
| Judging.KeptMembers | utils/LD_judge.py:154 | a judgement is kept exactly when it is not `$ERROR$` |
| Judging.NonError | utils/LD_judge.py:164 | the votes without `'error'`: the same members and the same count of each other value |
| Judging.MostVoted | utils/LD_judge.py:165-167 | the value picked has no fewer votes than any other value |
| Judging.MajorityVote | utils/LD_judge.py:163-170 | the value with strictly the most votes once `'error'` votes are dropped, otherwise `'tie'`. It raises `IndexError` exactly when no non-error vote is left. |
| Judging.ErrorsIgnored | utils/LD_judge.py:164 | `'error'` votes added anywhere never change the outcome |
| Judging.LeaderWins | utils/LD_judge.py:165-167 | a value with strictly the most non-error votes wins |
| Judging.NoLeaderTies | utils/LD_judge.py:166-169 | with no strict leader and some non-error vote, the outcome is `'tie'` |
| Judging.VoteOrderIrrelevant | utils/LD_judge.py:165 | the outcome depends only on how many votes each value has |
| Judging.SameKept | utils/LD_judge.py:164-170 | the outcome depends only on the votes other than `'error'` |
| Judging.SoleVote | utils/LD_judge.py:163-170 | a single vote other than `'error'` wins |
| Judging.PluralityExample | utils/LD_judge.py:163-170 | `[A,A,B]` gives A |
| Judging.ThreeWayTieExample | utils/LD_judge.py:163-170 | `[A,B,tie]` gives tie |
| Judging.TwoWayTieExample | utils/LD_judge.py:163-170 | `[A,A,B,B]` gives tie |
| Judging.ErrorVotesExample | utils/LD_judge.py:163-170 | `[error,error,A]` gives A |
| Judging.AddRound | utils/LD_judge.py:53-64 | one round appends its header, then its turns |
| Judging.AddTurns | utils/LD_judge.py:59-64 | the inner loop appends one side-labelled block per turn, in order |
| Judging.AddOpenings | utils/LD_judge.py:82-96 | the reduced mode appends round 1's header, then A's first turn of round 1 and B's first turn of round 2 |
| Judging.CommitteeText | utils/LD_judge.py:149-160 | the loop builds the committee message from the other judges' judgements of the previous round |
| Judging.CommitteeMessageSpec | utils/LD_judge.py:149-160 | the committee message is the instruction followed by the judgements other than `$ERROR$`, in order, each under its ordinal counted from 1 |
| Judging.AddJudgement | utils/LD_judge.py:153-160 | a judgement other than `$ERROR$` goes in under the next ordinal; `$ERROR$` is skipped and takes no ordinal |
| Judging.Judge.constructor | utils/LD_judge.py:27-34 | the chat history is the one system entry with the language's judge instruction |
| Judging.Judge.ReformatHistory | utils/LD_judge.py:36-99 | the text built round by round is the transcript `Rendered`, or its error |
| Judging.Judge.AddRounds | utils/LD_judge.py:50-64 | the `'LD'` loops append every round's header and turns, in order |
| Judging.Judge.GetEvaluation | utils/LD_judge.py:114-146 | with a debate, the transcript becomes one user entry. A transcript error propagates with nothing changed. One backend call is made, with the history and `int(300*w2t)` tokens. The judgement, with the transcript cut out, or `$ERROR$` on a recoverable error, becomes one assistant entry. The winner is the marker verdict of that judgement. A non-recoverable error propagates. |
| Judging.Judge.ReceiveCommitteeResponse | utils/LD_judge.py:148-161 | exactly one user entry is added; it holds the other judges' judgements of `debate_round - 1` without the `$ERROR$` ones, labelled 1, 2, 3, … |
| PeerEvaluation.RefPrompt | utils/LD_judge.py:173-176 | the prompt is the language's instruction followed by the question |
| PeerEvaluation.GenerateRefAnswer | utils/LD_judge.py:172-179 | one backend call with the default budget; its reply with the prompt cut out, or its exception |
| PeerEvaluation.RefAnswers.constructor | utils/LD_judge.py:8-11 | the cache starts as the loaded content |
| PeerEvaluation.RefAnswers.ReferenceAnswer | utils/LD_judge.py:217-228 | An unknown language raises `KeyError`. A cached answer under `str(id)` is returned without a backend call. Otherwise one answer is generated and stored under the integer `id`. The member's empty entry is created first and stays even when the call raises. |
| PeerEvaluation.Seeded | utils/LD_judge.py:218-219 | after seeding, the member has an entry in the language's cache |
| PeerEvaluation.StoreMissesLookup | utils/LD_judge.py:220-225 | a stored answer is never found by the next lookup of the same question, since the store's key is the integer and the lookup's the string |
| PeerEvaluation.RoundVotesStable | utils/LD_judge.py:255-260 | growing the records leaves the votes of earlier rounds alone |
| PeerEvaluation.Record | utils/LD_judge.py:236-237 | STEP1 records each judge's first verdict and judgement, and appends the verdict to `winners` |
| PeerEvaluation.FirstJudgement | utils/LD_judge.py:234-235 | a new judge for the member, shown the transcript, if it renders, in one request with the judge's budget; its judgement is the one read off the reply and its verdict matches it, and the debate history is the transcript; a transcript error propagates before any call |
| PeerEvaluation.InitialVotes | utils/LD_judge.py:233-240 | each member, in order, judges the debate once: its new judge is shown the transcript and sends its request right after the previous member's, and its judgement is the one read off the reply; the loop succeeds exactly when every reply gives a judgement, and a transcript error propagates before any call. The records are keyed by member name. Every verdict matches its judgement. A later judge of the same name overwrites an earlier one's entry. `winners` has one entry per member. The debate history is the transcript. |
| PeerEvaluation.Step1 | utils/LD_judge.py:233-240 | the STEP1 loop: on an error, the failing member is the first whose reply gives no judgement (or the transcript failed); on success every member was asked in turn, its entry recorded and its new judge seated |
| PeerEvaluation.Step1Next | utils/LD_judge.py:233-238 | one pass of the loop: the member's request is the next one in the log; it fails exactly when the transcript or that reply fails, and otherwise the loop's state covers one member more |
| PeerEvaluation.JudgeNext | utils/LD_judge.py:234-235 | the next judge, with the member's name, language and backend; it fails exactly when the transcript or its reply fails, and otherwise its judgement joins those read off the replies in turn |
| PeerEvaluation.AskedAll | utils/LD_judge.py:233-235 | every reply STEP1 asked for gave a judgement |
| PeerEvaluation.Refine | utils/LD_judge.py:255-260 | a judge's verdict and judgement lists grow by one; its vote is the new verdict, or its previous one (`winner[-2]`) when the new one is `'error'` |
| PeerEvaluation.RefineRound | utils/LD_judge.py:250-260 | every judge, in committee order, reads the previous round's committee message and judges again: its request is the next in the log, ends with that message and carries the judge's budget, and its judgement is read off the reply. The round succeeds exactly when every reply gives a judgement, and then the entries and votes are those `Refine` gives |
| PeerEvaluation.Shown | utils/LD_judge.py:149-160 | every member's committee message of a round is defined once every entry holds the round before |
| PeerEvaluation.Tell | utils/LD_judge.py:148-161 | the judge's chat gains exactly the committee message of the round, the same read off the entries as they stand or as the round began |
| PeerEvaluation.AskAgain | utils/LD_judge.py:251-256 | the judge is told its message and asked again; its request is the next in the log, it fails exactly when the reply gives no judgement, and its verdict matches its judgement |
| PeerEvaluation.Reconsider | utils/LD_judge.py:251-260 | one refinement turn with the entry and vote updated: it fails exactly when the reply gives no judgement, and otherwise the round's state covers one judge more |
| PeerEvaluation.RefiningStart | utils/LD_judge.py:249-251 | before its first judge a round has changed no entry and made no request |
| PeerEvaluation.AgainAll | utils/LD_judge.py:251-256 | every reply a refinement round asked for gave a judgement |
| PeerEvaluation.FirstRound | utils/LD_judge.py:241-242 | STEP1's records and majority form the state before any refinement |
| PeerEvaluation.FirstVotes | utils/LD_judge.py:233-241 | with distinct names, round 0's votes are STEP1's `winners` |
| PeerEvaluation.NextRound | utils/LD_judge.py:249-262 | a refinement round and its majority extend the state by one round |
| PeerEvaluation.EvenNext | utils/LD_judge.py:255-260 | with distinct names, every judge's lists grow in lockstep and the round's votes are recorded in them |
| PeerEvaluation.Refinements | utils/LD_judge.py:244-262 | After rounds `1..k`, each entry holds at least `k+1` verdicts matching its judgements, and `final_winner` holds `k+1` majorities. With distinct names each entry holds exactly `k+1` verdicts, and each majority is that of the round's recorded votes. The rounds' requests follow one another in the backend log, one per judge in committee order. Each ends with the judge's committee message of the round, read off the entries, and carries the judge's budget. With distinct names each entry holds its STEP1 judgement, then the judgement read off its reply in each round. |
| PeerEvaluation.DiscussedSnoc | utils/LD_judge.py:249-256 | a round whose requests follow the earlier rounds' extends the discussion by one round |
| PeerEvaluation.HeldFirst | utils/LD_judge.py:233-240 | with distinct names, each STEP1 entry holds the member's STEP1 judgement |
| PeerEvaluation.HeldNext | utils/LD_judge.py:249-260 | a refinement round keeps what the entries held and adds its committee messages; with distinct names each entry's new judgement is the one its reply gave |
| PeerEvaluation.MessagesStable | utils/LD_judge.py:149-160 | a round's committee messages read the same off entries that only grew |
| PeerEvaluation.RelayedStable | utils/LD_judge.py:149-160 | the committee messages of every round held so far read the same off entries that only grew |
| PeerEvaluation.RetainedNext | utils/LD_judge.py:255-260 | entries that each gained one judgement keep the earlier ones and hold the new one at the next index |
| PeerEvaluation.Verdicts | utils/LD_judge.py:232-262 | an empty committee fails with `IndexError`; a success has the transcript as debate history and the state after all refinement rounds; STEP1's requests, one per member, each show the transcript, then the refinement rounds' requests follow, and with distinct names the entries hold the judgements read off those replies |
| PeerEvaluation.RefStep | utils/LD_judge.py:214-231 | outside the reference domains no reference answer and nothing changed; inside them an empty committee raises `IndexError` before anything changes, and otherwise the answer is the one `ReferenceAnswer` gives for the first member and the question id (cached, generated and stored, or the error), with exactly the backend call that needs, the only call STEP0 makes |
| PeerEvaluation.PeerEvaluate | utils/LD_judge.py:181-271 | an empty committee, or the reduced mode on a one-round debate, raises, and nothing is saved. Otherwise the record is saved once when a file is given. It holds: the gamekey, the committee, the mode and the number of rounds; a reference answer exactly in the reference domains; the transcript as debate history; `final_winner` with one majority per round; every judge's verdict and judgement lists, grown in lockstep when names are distinct, each round's majority being that of the votes with `'error'` replaced by the judge's previous verdict. After STEP0's call, if any, STEP1's requests show the transcript in turn and the refinement rounds' requests follow, each ending with its judge's committee message. With distinct names every entry holds the judgements read off those replies, round by round. The cache changes only in the reference domains. |
| Generation.ReplaceKeepsEnding | utils/generator.py:25-26 | replacing `.jsonl` in a name ending with it gives a name ending with the replacement |
| Generation.NoOverlap | utils/generator.py:25-26 | a pattern without a border that starts and ends a longer text occurs twice in it without overlapping |
| Generation.QuestionFileNames | utils/generator.py:19-26 | In English the name is kept. In Chinese, a name ending in `_zh.jsonl` leaves the attribute unset. In Chinese, a name ending in `.jsonl` otherwise becomes one ending in `_zh.jsonl`. In Chinese, a name without `.jsonl` is kept. |
| Generation.SplitOn | utils/generator.py:49-51 | `str.split` gives at least two pieces exactly when the separator occurs |
| Generation.SplitOnSpec | utils/generator.py:49-51 | the pieces of `str.split` hold no separator, and joining them with it gives the text back |
| Generation.SecondPiece | utils/generator.py:49-51 | `split(m)[1]` exists exactly when `m` occurs, and otherwise raises `IndexError` |
| Generation.SecondPieceContent | utils/generator.py:49-51 | `split(m)[1]` is the text after the first `m`, up to the next `m` |
| Generation.Item | utils/generator.py:48-51 | item `i` exists exactly when `(i).` occurs, and otherwise raises `IndexError` |
| Generation.ItemContent | utils/generator.py:48-51 | item `i` is the text after the first `(i).`, cut at a second `(i).` and, unless it is the last, at the next `(i+1).`, and stripped |
| Generation.Collect | utils/generator.py:46-53 | the loop succeeds exactly when every item does, and then holds each item's value in order |
| Generation.CollectError | utils/generator.py:46-53 | a failing loop fails as its first failing item does |
| Generation.ItemsOf | utils/generator.py:47-52 | the loop visits items `(1).` to `(n).` in order |
| Generation.ParsedLength | utils/generator.py:44-53 | a successful parse holds exactly `n_each_time` questions |
| Generation.ParsedQuestionsSpec | utils/generator.py:44-53 | the parse fails with `IndexError` exactly when one of `(1).` … `(n).` is missing. Otherwise it returns `n` questions; question `k` is the text after the first `(k).`, cut at a second `(k).` and, unless `k` is `n`, at the next `(k+1).`, and stripped. |
| Generation.CappedPerDomain | utils/generator.py:79-92 | per domain, the cap keeps the earliest `cap` records in file order (all of them for a cap of `0`/`False`) |
| Generation.KeptInOrder | utils/generator.py:79-92 | the loaded records are the records of the file at rising positions: the cap keeps file order |
| Generation.KeptExactly | utils/generator.py:85-90 | a record is kept exactly when the cap is `0`/`False`, or fewer than `cap` earlier records share its domain |
| Generation.WithId | utils/generator.py:97 | the comprehension holds exactly the records with the id |
| Generation.FirstWithId | utils/generator.py:97 | the lookup fails with `IndexError` exactly when no record has the id; otherwise it finds a record with it |
| Generation.FirstWithIdIsFirst | utils/generator.py:97 | the record found is the earliest one with the id |
| Generation.Lookup | utils/generator.py:94-97 | over loaded records the lookup is `FirstWithId`; over the domain dictionary that `generate_questions` stores it raises (`IndexError` when empty, a `TypeError` otherwise) |
| Generation.FloorDiv | utils/generator.py:61 | `//` rounds the quotient down |
| Generation.NumberQuestions | utils/generator.py:70-75 | the writing loop numbers the questions `1, 2, 3, …` across domains, in domain order and question order |
| Generation.LookupNumbered | utils/generator.py:70-97 | with those ids, `get_question(k)` finds the k-th written question |
| Generation.Generator.constructor | utils/generator.py:11-29 | the language's domain list, the file name `__init__` leaves (or none), and no questions |
| Generation.Generator.ParseQuestions | utils/generator.py:44-53 | the loop computes `ParsedQuestions` with `max(n_each_time, 0)` items |
| Generation.Generator.LoadQuestions | utils/generator.py:79-92 | the loop with `defaultdict` counters loads and stores the capped file `Capped`; a generator whose question file was never set raises its `AttributeError` and loads nothing |
| Generation.Generator.GetQuestion | utils/generator.py:94-97 | loads the whole file first when nothing is loaded (raising the unset file's `AttributeError` when there is none), then looks the id up in what is stored: the first record with the id, or `IndexError` |
| Generation.Generator.ParseSamples | utils/generator.py:64-68 | the sampled texts of a domain are parsed in turn and concatenated, or fail at the first text that fails |
| Generation.Generator.GenerateQuestions | utils/generator.py:55-77 | with `n_each_time == 0`, the division raises `ZeroDivisionError`. A text that fails to parse propagates its `IndexError`. A generator whose question file was never set raises the `AttributeError` of writing the file. A success stores the domain dictionary in `questions` and writes the questions of every domain, in domain order, numbered `1, 2, 3, …`. |
| Generation.ParserLength | utils/generator.py:44-53 | every successful parse holds `n` questions |
| Generation.SampledSpec | utils/generator.py:64-68 | a domain's texts parse exactly when each does, and then give `n` questions per text |
| Generation.SampledFails | utils/generator.py:64-68 | once the texts before it parsed, a failing text fails the domain with its error |
| Generation.GroupedFails | utils/generator.py:58-68 | a failing domain fails the whole generation with its error, once the domains before it succeeded |

## Left out

- Backend calls (`generate_response`, `chat_completion_openai`): network calls whose sampling and model choice are invisible. They are a script of replies, and the retry-loop and judge calls see its replies in order.
- The prompt texts of `utils/prompts.py` and `get_prompt`: wording only. Action-guide tables and instructions are opaque parameters. Only the guide keys, the extra-space domain lists and the reference domains are constants. The reference-answer instruction texts are a constant of the cache class.
- `count_tokens`, `word2token_en/zh` and `str.isalpha`: defined outside these files. They are parameters (`countTokens`, the two real factors, `isAlpha`).
- jsonlines reading and writing:
  - the module-level read of the reference-answer file and its rewrite on a store;
  - the question file's reading and writing;
  - the debate and judgement saves. These are logged as `(file, record)` appends.
  - `load_questions` and `get_question` take the file's records as an argument.
- `print` calls and the partial transcript `reformat_history` prints before it raises: console output only.
- `receive_previous_response` and the resume path of `peer_evaluate`. The code calls the builtin `eval` in `len(eval)` and drops the language, so it has no coherent behaviour.
- `load_question_from_generator`: file-existence check and I/O around the modelled methods.
- `reconstruct_response` has the body of `reformat_parsed`, so `ReformatParsed` stands for both.
- Languages other than English and Chinese, where the source leaves attributes unset (an `AttributeError` later).
- The unused score patterns and `TIE_DELTA` of `utils/LD_judge.py`.
- Candidates.Candidate.GetResponse: its history entry follows the code literally: each retry re-adds the whole `original`. The exact text is stated, but no intent is claimed for it.
- Candidates.Candidate.ReceiveOpponentResponse: requires the guide to have a prompt and, in Chinese, a translation. An unknown guide raises `KeyError` in the source, but the debate only passes its three fixed guides.
- Protocol.ActionListInLanguage: requires, in Chinese, every action to be in the translation table, where the source raises `KeyError`.
- Generation.Generator.GenerateQuestions: returns the numbered records written to the file; the source's return value is the domain dictionary, which the model stores in `questions`. A single sample (`sample_n == 1`, a string instead of a list) is a one-element list of texts. `num_each_domain_to_generate` sets only the number of samples, which the sampling oracle supplies.
- PeerEvaluation.PeerEvaluate: the judges' chat histories are not stated in its contract. For a committee with repeated names, only the lengths, the verdict-judgement agreement and the requests are stated. Neither the per-round votes nor which reply an entry holds are stated, since the dictionary keyed by name is overwritten.
- PeerEvaluation.PeerEvaluate: `judge_dict` is one dictionary in the source, so a committee member named like one of its fixed keys (`gamekey`, `judges`, `num_rounds`, `judge_debate_rounds`, `ref_answer`, `debate_history`, `final_winner`) overwrites that key, or has its entry overwritten. `JudgeDict` keeps the fixed fields and the members' entries apart.
- Judging.Judge.GetEvaluation: the judge's budget `int(300*w2t)` is computed on exact reals, as `Debate.BaseBudget`'s is, while the source multiplies binary64 floats. STEP1 and the refinement rounds of `peer_evaluate` ask under the same budget.
- Debate.BaseBudget: the budget is computed on exact reals, while the source multiplies binary64 floats: `int(400*0.29)` is 115 in the source, since the product is 115.99999999999999, and 116 here.

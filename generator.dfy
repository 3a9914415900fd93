/** The question bank (utils/generator.py): the generator's file naming, the
    parse of one generated block of numbered questions, id assignment, loading
    with a per-domain cap, and lookup by id. */
module Generation {
  import opened Wrappers
  import opened Text
  import opened Backend
  import opened Protocol

  /** One question record: `{'domain': ..., 'id': ..., 'question': ...}`. */
  datatype Question = Question(id: int, domain: string, question: string)

  /** Python's `ZeroDivisionError` and the `AttributeError` of reading an
      attribute that was never set. */
  const ZeroDivision: Exception := RuntimeError("integer division or modulo by zero")
  const MissingQuestionFile: Exception := RuntimeError("'Generator' object has no attribute 'question_file'")

  // ---------------------------------------------------------------------
  // `Generator.__init__`

  const DomainsEn: seq<string> :=
    ["writing", "roleplay", "extraction", "reasoning", "math", "coding", "STEM knowledge", "humanities/social science knowledge"]
  const DomainsZh: seq<string> := ["写作", "角色扮演", "信息提取", "推理", "数学", "编程", "理工/自然科学知识", "人文社科知识"]

  function DomainsFor(lang: Language): seq<string>
  {
    if lang == En then DomainsEn else DomainsZh
  }

  /** `self.question_file` as `__init__` leaves it: the given name in
      English; in Chinese the name with every `.jsonl` turned into
      `_zh.jsonl`, unless it already ends in `_zh.jsonl`, in which case the
      attribute is never set (`None` here). */
  function QuestionFileFor(lang: Language, file: string): Option<string>
  {
    if lang == En then Some(file)
    else if EndsWith(file, "_zh.jsonl") then None
    else Some(Replace(file, ".jsonl", "_zh.jsonl"))
  }

  /** No proper suffix of `p` starts like `p`: two occurrences of `p` cannot
      overlap. */
  predicate Unbordered(p: string)
  {
    p != [] && forall k :: 0 < k < |p| ==> p[k] != p[0]
  }

  lemma EndsWithTail(s: string, j: nat, pat: string)
    requires EndsWith(s, pat) && j + |pat| <= |s|
    ensures EndsWith(s[j..], pat)
  {
    assert s[j..][|s| - j - |pat|..] == s[|s| - |pat|..];
  }

  lemma EndsWithAppend(x: string, r: string, rep: string)
    requires EndsWith(r, rep)
    ensures EndsWith(x + r, rep)
  {
    assert (x + r)[|x + r| - |rep|..] == r[|r| - |rep|..];
  }

  /** Replacing an unbordered pattern in a text ending with it gives a text
      ending with the replacement. */
  lemma {:induction false} ReplaceKeepsEnding(s: string, pat: string, rep: string)
    requires Unbordered(pat) && EndsWith(s, pat)
    ensures EndsWith(Replace(s, pat, rep), rep)
    decreases |s|
  {
    if IsPrefix(pat, s) {
      if |s| == |pat| {
        assert Replace(s, pat, rep) == rep + Replace([], pat, rep);
      } else {
        // the two occurrences cannot overlap, so the last one lies in the rest
        NoOverlap(s, pat);
        EndsWithTail(s, |pat|, pat);
        ReplaceKeepsEnding(s[|pat|..], pat, rep);
        EndsWithAppend(rep, Replace(s[|pat|..], pat, rep), rep);
      }
    } else {
      assert |s| > |pat|;
      EndsWithTail(s, 1, pat);
      ReplaceKeepsEnding(s[1..], pat, rep);
      EndsWithAppend([s[0]], Replace(s[1..], pat, rep), rep);
    }
  }

  /** An unbordered pattern that starts and ends a longer text occurs twice
      in it without overlapping. */
  lemma NoOverlap(s: string, pat: string)
    requires Unbordered(pat) && IsPrefix(pat, s) && EndsWith(s, pat) && |pat| < |s|
    ensures 2 * |pat| <= |s|
  {
    var d := |s| - |pat|;
    assert s[d] == pat[0] by {
      assert s[d..][0] == s[d];
    }
    assert forall k :: 0 <= k < |pat| ==> s[k] == pat[k];
  }

  /** A Chinese question file named `….jsonl`, not yet `…_zh.jsonl`, is
      renamed to one ending in `_zh.jsonl`; an English one keeps its name; a
      name without `.jsonl` is kept. */
  lemma QuestionFileNames(file: string)
    ensures QuestionFileFor(En, file) == Some(file)
    ensures EndsWith(file, "_zh.jsonl") ==> QuestionFileFor(Zh, file) == None
    ensures EndsWith(file, ".jsonl") && !EndsWith(file, "_zh.jsonl") ==>
              QuestionFileFor(Zh, file).Some? && EndsWith(QuestionFileFor(Zh, file).value, "_zh.jsonl")
    ensures !Contains(file, ".jsonl") ==> QuestionFileFor(Zh, file) == Some(file)
  {
    if EndsWith(file, ".jsonl") && !EndsWith(file, "_zh.jsonl") {
      ReplaceKeepsEnding(file, ".jsonl", "_zh.jsonl");
    }
    if EndsWith(file, "_zh.jsonl") {
      SuffixContained(file);
    }
  }

  /** A name ending in `_zh.jsonl` contains `.jsonl`. */
  lemma SuffixContained(file: string)
    requires EndsWith(file, "_zh.jsonl")
    ensures Contains(file, ".jsonl")
  {
    var p := file[..|file| - 6];
    assert file[|file| - 6..] == "_zh.jsonl"[3..];
    assert file == p + ".jsonl" + "";
    ContainsInfix(p, ".jsonl", "");
  }

  // ---------------------------------------------------------------------
  // `parse_questions`

  /** The serial-number marker `(i).`. */
  function Marker(i: nat): string
  {
    "(" + NatToString(i) + ")."
  }

  /** `s.split(sep)`: the pieces between the occurrences of `sep`, scanning
      from the left; there are at least two exactly when `sep` occurs. */
  function SplitOn(s: string, sep: string): (r: seq<string>)
    requires sep != []
    ensures |r| >= 1
    ensures |r| >= 2 <==> Contains(s, sep)
    decreases |s|
  {
    if Contains(s, sep) then [Before(s, sep)] + SplitOn(After(s, sep), sep) else [s]
  }

  /** The pieces of `s.split(sep)` hold no `sep`, and joining them with `sep`
      gives `s` back. */
  lemma {:induction false} SplitOnSpec(s: string, sep: string)
    requires sep != []
    ensures forall k :: 0 <= k < |SplitOn(s, sep)| ==> !Contains(SplitOn(s, sep)[k], sep)
    ensures JoinWith(SplitOn(s, sep), sep) == s
    decreases |s|
  {
    if Contains(s, sep) {
      var b, a := Before(s, sep), After(s, sep);
      SplitOnSpec(a, sep);
      var rest := SplitOn(a, sep);
      assert SplitOn(s, sep) == [b] + rest;
      assert ([b] + rest)[1..] == rest;
      assert JoinWith([b] + rest, sep) == b + sep + JoinWith(rest, sep);
    }
  }

  /** `qs.split(m)[1]`, or Python's `IndexError` when `m` does not occur. */
  function SecondPiece(qs: string, m: string): (r: Result<string, Exception>)
    requires m != []
    ensures r.Ok? <==> Contains(qs, m)
    ensures r.Err? ==> r.error == IndexError
  {
    var pieces := SplitOn(qs, m);
    if |pieces| < 2 then Err(IndexError) else Ok(pieces[1])
  }

  /** The second piece of `qs.split(m)` is the text after the first `m`, up
      to the next `m` if there is one. */
  lemma SecondPieceContent(qs: string, m: string)
    requires m != [] && Contains(qs, m)
    ensures SecondPiece(qs, m) == Ok(Before(After(qs, m), m))
  {
    var a := After(qs, m);
    assert SplitOn(qs, m) == [Before(qs, m)] + SplitOn(a, m);
    assert SplitOn(a, m)[0] == Before(a, m);
  }

  /** Question `i` of `n`: the second piece at `(i).`, cut at the first
      `(i+1).` unless it is the last one, and stripped. */
  function Item(qs: string, i: nat, n: nat): (r: Result<string, Exception>)
    ensures r.Ok? <==> Contains(qs, Marker(i))
    ensures r.Err? ==> r.error == IndexError
  {
    var piece := SecondPiece(qs, Marker(i));
    if piece.Err? then Err(piece.error)
    else if i == n then Ok(Strip(piece.value))
    else Ok(Strip(Before(piece.value, Marker(i + 1))))
  }

  /** Question `i` is the text after the first `(i).`, cut at a second `(i).`
      if there is one and, unless `i` is the last number, at the first
      `(i+1).` after that, with the whitespace around it stripped. */
  lemma ItemContent(qs: string, i: nat, n: nat)
    requires Contains(qs, Marker(i))
    ensures Item(qs, i, n)
         == Ok(Strip(if i == n then Before(After(qs, Marker(i)), Marker(i))
                     else Before(Before(After(qs, Marker(i)), Marker(i)), Marker(i + 1))))
  {
    SecondPieceContent(qs, Marker(i));
  }

  /** The loop of `parse_questions` over the items it computes in turn: all
      their values in order, or the failure of the first item that fails. */
  function Collect(items: seq<Result<string, Exception>>): (r: Result<seq<string>, Exception>)
    ensures r.Ok? <==> forall k :: 0 <= k < |items| ==> items[k].Ok?
    ensures r.Ok? ==> |r.value| == |items| && forall k :: 0 <= k < |items| ==> items[k] == Ok(r.value[k])
  {
    if items == [] then Ok([])
    else
      var front := Collect(items[..|items| - 1]);
      var last := items[|items| - 1];
      if front.Err? then front
      else if last.Err? then Err(last.error)
      else Ok(front.value + [last.value])
  }

  /** A failed run fails as its first failing item does. */
  lemma {:induction false} CollectError(items: seq<Result<string, Exception>>)
    requires Collect(items).Err?
    ensures exists k :: 0 <= k < |items| && items[k] == Err(Collect(items).error) && forall j :: 0 <= j < k ==> items[j].Ok?
    decreases |items|
  {
    var front := items[..|items| - 1];
    if Collect(front).Err? {
      CollectError(front);
      var k :| 0 <= k < |front| && front[k] == Err(Collect(front).error) && forall j :: 0 <= j < k ==> front[j].Ok?;
      assert items[k] == front[k];
      assert forall j :: 0 <= j < k ==> items[j] == front[j];
    } else {
      assert forall j :: 0 <= j < |front| ==> items[j] == front[j];
    }
  }

  /** Once a prefix of the items fails, the whole run fails the same way. */
  lemma {:induction false} CollectFails(items: seq<Result<string, Exception>>, t: nat)
    requires t <= |items| && Collect(items[..t]).Err?
    ensures Collect(items) == Collect(items[..t])
    decreases |items|
  {
    if t < |items| {
      var front := items[..|items| - 1];
      assert front[..t] == items[..t];
      CollectFails(front, t);
    } else {
      assert items[..t] == items;
    }
  }

  /** The items `(1).` to `(n).` of `qs`. */
  function ItemsOf(qs: string, n: nat): (r: seq<Result<string, Exception>>)
    ensures |r| == n && forall k :: 0 <= k < n ==> r[k] == Item(qs, k + 1, n)
  {
    seq(n, k requires 0 <= k < n => Item(qs, k + 1, n))
  }

  /** `parse_questions(qs)` with `n_each_time == n`. */
  function ParsedQuestions(qs: string, n: nat): Result<seq<string>, Exception>
  {
    Collect(ItemsOf(qs, n))
  }

  /** A successful parse holds exactly `n` questions. */
  lemma ParsedLength(qs: string, n: nat)
    ensures ParsedQuestions(qs, n).Ok? ==> |ParsedQuestions(qs, n).value| == n
  {
    assert |ItemsOf(qs, n)| == n;
  }

  /** `parse_questions` fails, with an `IndexError`, exactly when one of the
      markers `(1).` to `(n).` is missing; otherwise it returns `n` questions,
      question `k + 1` being the stripped text after the first `(k+1).`, up to
      the next `(k+1).` and, but for the last, the first `(k+2).` after it. */
  lemma ParsedQuestionsSpec(qs: string, n: nat)
    ensures ParsedQuestions(qs, n).Ok? <==> forall i :: 1 <= i <= n ==> Contains(qs, Marker(i))
    ensures ParsedQuestions(qs, n).Err? ==> ParsedQuestions(qs, n).error == IndexError
    ensures ParsedQuestions(qs, n).Ok? ==> |ParsedQuestions(qs, n).value| == n
    ensures ParsedQuestions(qs, n).Ok? ==>
              forall k :: 0 <= k < n ==>
                ParsedQuestions(qs, n).value[k]
                == Strip(if k + 1 == n then Before(After(qs, Marker(k + 1)), Marker(k + 1))
                         else Before(Before(After(qs, Marker(k + 1)), Marker(k + 1)), Marker(k + 2)))
  {
    ParsedLength(qs, n);
    var items := ItemsOf(qs, n);
    if Collect(items).Err? {
      CollectError(items);
    }
    forall i | 1 <= i <= n ensures items[i - 1].Ok? <==> Contains(qs, Marker(i)) {
    }
    if Collect(items).Ok? {
      forall k | 0 <= k < n
        ensures Contains(qs, Marker(k + 1))
        ensures Collect(items).value[k]
             == Strip(if k + 1 == n then Before(After(qs, Marker(k + 1)), Marker(k + 1))
                      else Before(Before(After(qs, Marker(k + 1)), Marker(k + 1)), Marker(k + 2)))
      {
        ParsedItem(qs, n, items, k);
      }
    }
  }

  lemma ParsedItem(qs: string, n: nat, items: seq<Result<string, Exception>>, k: nat)
    requires items == ItemsOf(qs, n) && Collect(items).Ok? && k < n
    ensures Contains(qs, Marker(k + 1))
    ensures Collect(items).value[k]
         == Strip(if k + 1 == n then Before(After(qs, Marker(k + 1)), Marker(k + 1))
                  else Before(Before(After(qs, Marker(k + 1)), Marker(k + 1)), Marker(k + 2)))
  {
    assert items[k] == Ok(Collect(items).value[k]) && items[k] == Item(qs, k + 1, n);
    ItemContent(qs, k + 1, n);
  }

  // ---------------------------------------------------------------------
  // `load_questions` and `get_question`

  /** The questions of domain `d`, in order. */
  function OfDomain(qs: seq<Question>, d: string): (r: seq<Question>)
    ensures |r| <= |qs|
  {
    if qs == [] then []
    else OfDomain(qs[..|qs| - 1], d) + (if qs[|qs| - 1].domain == d then [qs[|qs| - 1]] else [])
  }

  /** What `load_questions(cap)` keeps of the file: everything for a cap of
      `False` or `0` (`0 == False` in Python); otherwise each record of which
      fewer than `cap` earlier records share the domain. */
  function Capped(file: seq<Question>, cap: int): (r: seq<Question>)
  {
    if cap == 0 || file == [] then file
    else
      var front, last := file[..|file| - 1], file[|file| - 1];
      Capped(front, cap) + (if |OfDomain(front, last.domain)| < cap then [last] else [])
  }

  /** How many records of a domain with `c` in the file a cap keeps. */
  function KeptOf(c: nat, cap: int): nat
  {
    if cap == 0 then c else if cap < 0 then 0 else if c < cap then c else cap
  }

  /** Per domain, the cap keeps the earliest `cap` records of the file, in
      file order. */
  lemma {:induction false} CappedPerDomain(file: seq<Question>, cap: int, d: string)
    ensures OfDomain(Capped(file, cap), d) == OfDomain(file, d)[..KeptOf(|OfDomain(file, d)|, cap)]
    decreases |file|
  {
    if cap == 0 || file == [] {
      assert OfDomain(file, d)[..KeptOf(|OfDomain(file, d)|, cap)] == OfDomain(file, d);
    } else {
      var front, last := file[..|file| - 1], file[|file| - 1];
      CappedPerDomain(front, cap, d);
      var keep := if |OfDomain(front, last.domain)| < cap then [last] else [];
      assert Capped(file, cap) == Capped(front, cap) + keep;
      OfDomainAppend(Capped(front, cap), keep, d);
      var before := OfDomain(front, d);
      var c := |before|;
      if last.domain == d {
        assert OfDomain(file, d) == before + [last];
        assert OfDomain(keep, d) == keep;
        KeptOfStep(c, cap);
        SliceSnoc(before, last, KeptOf(c, cap), KeptOf(c + 1, cap));
      } else {
        assert OfDomain(file, d) == before;
        assert OfDomain(keep, d) == [];
      }
    }
  }

  /** One record more of a domain is kept exactly when the cap was not yet
      reached. */
  lemma KeptOfStep(c: nat, cap: int)
    requires cap != 0
    ensures KeptOf(c, cap) <= c
    ensures c < cap ==> KeptOf(c, cap) == c && KeptOf(c + 1, cap) == c + 1
    ensures c >= cap ==> KeptOf(c + 1, cap) == KeptOf(c, cap)
  {
  }

  /** Keeping a prefix of `xs + [x]`: it is `x` more exactly when the prefix
      grows past `xs`. */
  lemma SliceSnoc(xs: seq<Question>, x: Question, k: nat, k': nat)
    requires k <= |xs| && k <= k' <= k + 1 && k' <= |xs| + 1 && (k' == k + 1 ==> k == |xs|)
    ensures (xs + [x])[..k'] == xs[..k] + (if k' == k + 1 then [x] else [])
  {
    if k' == k + 1 {
      assert (xs + [x])[..k'] == xs + [x];
    } else {
      assert (xs + [x])[..k'] == xs[..k];
    }
  }

  lemma {:induction false} OfDomainAppend(a: seq<Question>, b: seq<Question>, d: string)
    ensures OfDomain(a + b, d) == OfDomain(a, d) + OfDomain(b, d)
    decreases |b|
  {
    if b == [] {
      assert a + b == a;
    } else {
      var b' := b[..|b| - 1];
      assert (a + b)[..|a + b| - 1] == a + b';
      OfDomainAppend(a, b', d);
      assert OfDomain(b, d) == OfDomain(b', d) + (if b[|b| - 1].domain == d then [b[|b| - 1]] else []);
    }
  }

  /** The positions of the records `Capped` keeps. */
  function KeptPositions(file: seq<Question>, cap: int): seq<nat>
  {
    if cap == 0 || file == [] then seq(|file|, i requires 0 <= i < |file| => i)
    else
      var front, last := file[..|file| - 1], file[|file| - 1];
      KeptPositions(front, cap) + (if |OfDomain(front, last.domain)| < cap then [|file| - 1] else [])
  }

  /** The records `Capped` keeps are the records of the file at
      `KeptPositions`, which rise: the cap keeps file order. */
  lemma {:induction false} KeptInOrder(file: seq<Question>, cap: int)
    ensures var ps := KeptPositions(file, cap);
            && |ps| == |Capped(file, cap)|
            && (forall i :: 0 <= i < |ps| ==> ps[i] < |file| && Capped(file, cap)[i] == file[ps[i]])
            && (forall i, j :: 0 <= i < j < |ps| ==> ps[i] < ps[j])
    decreases |file|
  {
    if cap != 0 && file != [] {
      var front, last := file[..|file| - 1], file[|file| - 1];
      KeptInOrder(front, cap);
      var ps' := KeptPositions(front, cap);
      var kept := |OfDomain(front, last.domain)| < cap;
      assert KeptPositions(file, cap) == ps' + (if kept then [|file| - 1] else []);
      assert Capped(file, cap) == Capped(front, cap) + (if kept then [last] else []);
      forall i | 0 <= i < |ps'| ensures ps'[i] < |file| - 1 && Capped(file, cap)[i] == file[ps'[i]] {
        assert Capped(file, cap)[i] == Capped(front, cap)[i] == front[ps'[i]];
      }
    }
  }

  /** The cap keeps a record exactly when it is one of the first `cap` of its
      domain; with cap `0` every record. */
  lemma {:induction false} KeptExactly(file: seq<Question>, cap: int, k: nat)
    requires k < |file|
    ensures k in KeptPositions(file, cap) <==> cap == 0 || |OfDomain(file[..k], file[k].domain)| < cap
    decreases |file|
  {
    if cap == 0 {
      assert KeptPositions(file, cap)[k] == k;
    } else {
      var front := file[..|file| - 1];
      var ps' := KeptPositions(front, cap);
      assert |file| - 1 !in ps' by {
        KeptInOrder(front, cap);
      }
      if k < |file| - 1 {
        KeptExactly(front, cap, k);
        assert front[..k] == file[..k] && front[k] == file[k];
      } else {
        assert front == file[..k];
      }
    }
  }

  /** `[q for q in questions if q['id'] == id]`. */
  function WithId(questions: seq<Question>, id: int): (r: seq<Question>)
    ensures forall q :: q in r <==> q in questions && q.id == id
  {
    if questions == [] then []
    else WithId(questions[..|questions| - 1], id) + (if questions[|questions| - 1].id == id then [questions[|questions| - 1]] else [])
  }

  /** `[...][0]`: the first record with the id, or `IndexError`. */
  function FirstWithId(questions: seq<Question>, id: int): (r: Result<Question, Exception>)
    ensures r.Err? <==> forall q :: q in questions ==> q.id != id
    ensures r.Err? ==> r.error == IndexError
    ensures r.Ok? ==> r.value in questions && r.value.id == id
  {
    var matching := WithId(questions, id);
    if matching == [] then Err(IndexError)
    else
      assert matching[0] in matching;
      Ok(matching[0])
  }

  /** The first record with the id comes before every other one. */
  lemma {:induction false} FirstWithIdIsFirst(questions: seq<Question>, id: int, k: nat)
    requires k < |questions| && questions[k].id == id
    requires forall j :: 0 <= j < k ==> questions[j].id != id
    ensures FirstWithId(questions, id) == Ok(questions[k])
    decreases |questions|
  {
    if k < |questions| - 1 {
      var front := questions[..|questions| - 1];
      FirstWithIdIsFirst(front, id, k);
    } else {
      WithIdNone(questions[..k], id);
    }
  }

  lemma {:induction false} WithIdNone(questions: seq<Question>, id: int)
    requires forall j :: 0 <= j < |questions| ==> questions[j].id != id
    ensures WithId(questions, id) == []
  {
    if questions != [] {
      WithIdNone(questions[..|questions| - 1], id);
    }
  }

  // ---------------------------------------------------------------------
  // `generate_questions`: id assignment

  /** The pieces of a question block, one record per question. */
  function Flatten(groups: seq<(string, seq<string>)>): (r: seq<(string, string)>)
  {
    if groups == [] then []
    else
      var g := groups[|groups| - 1];
      Flatten(groups[..|groups| - 1]) + seq(|g.1|, k requires 0 <= k < |g.1| => (g.0, g.1[k]))
  }

  /** Records carry ids `1, 2, 3, …` in order. */
  predicate Consecutive(records: seq<Question>)
  {
    forall k :: 0 <= k < |records| ==> records[k].id == k + 1
  }

  /** The records read as `(domain, question)` pairs. */
  function Pairs(records: seq<Question>): (r: seq<(string, string)>)
    ensures |r| == |records|
  {
    seq(|records|, k requires 0 <= k < |records| => (records[k].domain, records[k].question))
  }

  /** The loop that writes the question file: each domain's questions, in
      domain order, under a running id that starts at 1. */
  method NumberQuestions(groups: seq<(string, seq<string>)>) returns (records: seq<Question>)
    ensures Consecutive(records) && Pairs(records) == Flatten(groups)
  {
    records := [];
    var i := 1;
    for g := 0 to |groups|
      invariant i == |records| + 1 && Consecutive(records) && Pairs(records) == Flatten(groups[..g])
    {
      var (domain, qs) := groups[g];
      ghost var before := records;
      for k := 0 to |qs|
        invariant i == |records| + 1 && Consecutive(records)
        invariant records == before + seq(k, j requires 0 <= j < k => Question(|before| + 1 + j, domain, qs[j]))
      {
        records := records + [Question(i, domain, qs[k])];
        i := i + 1;
      }
      NumberedGroup(groups, g, before, records);
    }
    assert groups[..|groups|] == groups;
  }

  lemma NumberedGroup(groups: seq<(string, seq<string>)>, g: nat, before: seq<Question>, records: seq<Question>)
    requires g < |groups| && Pairs(before) == Flatten(groups[..g])
    requires records == before + seq(|groups[g].1|, j requires 0 <= j < |groups[g].1| =>
                                       Question(|before| + 1 + j, groups[g].0, groups[g].1[j]))
    ensures Pairs(records) == Flatten(groups[..g + 1])
  {
    assert groups[..g + 1][..g] == groups[..g];
    var tail := seq(|groups[g].1|, k requires 0 <= k < |groups[g].1| => (groups[g].0, groups[g].1[k]));
    assert Flatten(groups[..g + 1]) == Flatten(groups[..g]) + tail;
    assert Pairs(records) == Pairs(before) + tail;
  }

  /** Consecutive ids make `get_question(k)` find the `k`-th record. */
  lemma LookupNumbered(records: seq<Question>, k: nat)
    requires Consecutive(records) && 1 <= k <= |records|
    ensures FirstWithId(records, k) == Ok(records[k - 1])
  {
    FirstWithIdIsFirst(records, k, k - 1);
  }

  /** `loaded_domain_num[d]`, a `defaultdict` of `0`. */
  function Get(loaded: map<string, int>, d: string): int
  {
    if d in loaded then loaded[d] else 0
  }

  /** The counters hold, per domain, how many records were kept. */
  ghost predicate Tallied(loaded: map<string, int>, kept: seq<Question>)
  {
    forall d :: Get(loaded, d) == |OfDomain(kept, d)|
  }

  lemma TallyStep(loaded: map<string, int>, kept: seq<Question>, obj: Question)
    requires Tallied(loaded, kept)
    ensures Tallied(loaded[obj.domain := Get(loaded, obj.domain) + 1], kept + [obj])
  {
    forall d ensures Get(loaded[obj.domain := Get(loaded, obj.domain) + 1], d) == |OfDomain(kept + [obj], d)| {
      OfDomainAppend(kept, [obj], d);
    }
  }

  /** One record more: it is kept when fewer than `cap` records of its
      domain have been kept so far. */
  lemma CappedStep(file: seq<Question>, k: nat, cap: int)
    requires k < |file|
    ensures Capped(file[..k + 1], cap) ==
              Capped(file[..k], cap) + (if cap == 0 || |OfDomain(Capped(file[..k], cap), file[k].domain)| < cap then [file[k]] else [])
  {
    var front := file[..k];
    assert file[..k + 1][..k] == front && file[..k + 1][k] == file[k];
    if cap == 0 {
      assert Capped(front, cap) == front;
      assert Capped(file[..k + 1], cap) == file[..k + 1];
    } else {
      CappedPerDomain(front, cap, file[k].domain);
    }
  }

  /** `self.questions`: the list of records `load_questions` stores, or the
      dictionary from each domain to its questions that `generate_questions`
      stores. */
  datatype Bank = Records(records: seq<Question>) | ByDomain(groups: seq<(string, seq<string>)>)

  /** The `TypeError` of `q['id']` on a string. */
  const StringIndex: Exception := RuntimeError("string indices must be integers")

  /** `[q for q in self.questions if q['id'] == id][0]`: over a list, the first
      record with the id; over the dictionary, iteration yields the domain
      names, and reading `'id'` of the first one raises. */
  function Lookup(bank: Bank, id: int): (r: Result<Question, Exception>)
    ensures bank.Records? ==> r == FirstWithId(bank.records, id)
    ensures bank.ByDomain? ==> r == Err(if bank.groups == [] then IndexError else StringIndex)
  {
    match bank
    case Records(rs) => FirstWithId(rs, id)
    case ByDomain(groups) => if groups == [] then Err(IndexError) else Err(StringIndex)
  }

  /** Python's `//` on integers: the quotient rounded down. */
  function FloorDiv(a: int, b: int): (q: int)
    requires b != 0
    ensures b > 0 ==> q * b <= a < (q + 1) * b
    ensures b < 0 ==> q * b >= a > (q + 1) * b
  {
    if b > 0 then a / b else (-a) / (-b)
  }

  /** The sampling oracle asked for `n` samples per domain. */
  function Requested(samples: (string, int) -> seq<string>, n: int): string -> seq<string>
  {
    d => samples(d, n)
  }

  // ---------------------------------------------------------------------
  // The `Generator` object

  /** `Generator(model_name, question_file, n_each_time, language)`. The
      question file's content is handed to the methods that read it. */
  class Generator {
    const modelName: string
    const language: Language
    const domains: seq<string>
    const questionFile: Option<string>
    const nEachTime: int
    var questions: Bank

    constructor (modelName: string, questionFile: string, nEachTime: int, language: Language)
      ensures this.modelName == modelName && this.language == language && this.nEachTime == nEachTime
      ensures domains == DomainsFor(language) && this.questionFile == QuestionFileFor(language, questionFile)
      ensures questions == Records([])
    {
      this.modelName := modelName;
      this.language := language;
      domains := DomainsFor(language);
      this.questionFile := QuestionFileFor(language, questionFile);
      this.nEachTime := nEachTime;
      questions := Records([]);
    }

    /** `parse_questions(qs)`: one item for each of `(1).` … `(n).`, in
        order. */
    method ParseQuestions(qs: string) returns (r: Result<seq<string>, Exception>)
      ensures r == ParsedQuestions(qs, Each(nEachTime))
    {
      var parsed: seq<string> := [];
      var n := Each(nEachTime);
      ghost var items := ItemsOf(qs, n);
      for i := 1 to n + 1
        invariant Collect(items[..i - 1]) == Ok(parsed)
      {
        var q := Item(qs, i, n);
        assert items[..i][..i - 1] == items[..i - 1] && items[..i][i - 1] == q;
        if q.Err? {
          CollectFails(items, i);
          return Err(q.error);
        }
        parsed := parsed + [q.value];
      }
      assert items[..n] == items;
      r := Ok(parsed);
    }

    /** `load_questions(cap)` over the records of the question file, in file
        order. Opening a question file that was never set raises the
        `AttributeError`. */
    method LoadQuestions(file: seq<Question>, cap: int) returns (r: Result<seq<Question>, Exception>)
      modifies this
      ensures questionFile.None? ==> r == Err(MissingQuestionFile) && questions == old(questions)
      ensures questionFile.Some? ==> r == Ok(Capped(file, cap)) && questions == Records(Capped(file, cap))
    {
      if questionFile.None? {
        return Err(MissingQuestionFile);
      }
      var loaded: map<string, int> := map[];
      var kept: seq<Question> := [];
      for k := 0 to |file|
        invariant kept == Capped(file[..k], cap)
        invariant cap != 0 ==> Tallied(loaded, kept)
      {
        var obj := file[k];
        CappedStep(file, k, cap);
        if cap == 0 {
          kept := kept + [obj];
        } else if Get(loaded, obj.domain) < cap {
          TallyStep(loaded, kept, obj);
          kept := kept + [obj];
          loaded := loaded[obj.domain := Get(loaded, obj.domain) + 1];
        }
      }
      assert file[..|file|] == file;
      questions := Records(kept);
      r := Ok(kept);
    }

    /** `get_question(id)`: load every question first when none are loaded
        (`self.questions == []`, which the dictionary never equals), then the
        first record with the id. */
    method GetQuestion(id: int, file: seq<Question>) returns (r: Result<Question, Exception>)
      modifies this
      ensures old(questions) == Records([]) && questionFile.None? ==>
                r == Err(MissingQuestionFile) && questions == old(questions)
      ensures old(questions) == Records([]) && questionFile.Some? ==>
                questions == Records(file) && r == FirstWithId(file, id)
      ensures old(questions) != Records([]) ==> questions == old(questions) && r == Lookup(questions, id)
    {
      if questions == Records([]) {
        var loaded := LoadQuestions(file, 0);
        if loaded.Err? {
          return Err(loaded.error);
        }
      }
      r := Lookup(questions, id);
    }

    /** The questions of one domain: `parse_questions` of each sampled
        response in turn, concatenated. */
    method ParseSamples(texts: seq<string>) returns (r: Result<seq<string>, Exception>)
      ensures r == Sampled(texts, Parser(Each(nEachTime)))
    {
      var qs: seq<string> := [];
      for t := 0 to |texts|
        invariant Sampled(texts[..t], Parser(Each(nEachTime))) == Ok(qs)
      {
        var parsed := ParseQuestions(texts[t]);
        assert texts[..t + 1][..t] == texts[..t] && texts[..t + 1][t] == texts[t];
        if parsed.Err? {
          SampledFails(texts, t, Parser(Each(nEachTime)));
          return Err(parsed.error);
        }
        qs := qs + parsed.value;
      }
      assert texts[..|texts|] == texts;
      r := Ok(qs);
    }

    /** `generate_questions(num)`, given the texts the backend samples for a
        domain when asked for `num // n_each_time` of them: every text parsed,
        the domain dictionary stored in `questions`, and the questions
        numbered across domains from 1 in domain order as the question file
        is written. */
    method GenerateQuestions(numEachDomain: int, samples: (string, int) -> seq<string>)
      returns (r: Result<seq<Question>, Exception>)
      modifies this
      ensures nEachTime == 0 ==> r == Err(ZeroDivision) && questions == old(questions)
      ensures nEachTime != 0 ==>
                var grouped := Grouped(domains, Requested(samples, FloorDiv(numEachDomain, nEachTime)), Parser(Each(nEachTime)));
                && (grouped.Err? ==> r == Err(grouped.error) && questions == old(questions))
                && (grouped.Ok? && questionFile.None? ==> r == Err(MissingQuestionFile) && questions == old(questions))
                && (grouped.Ok? && questionFile.Some? ==>
                      && r.Ok? && questions == ByDomain(grouped.value)
                      && Consecutive(r.value) && Pairs(r.value) == Flatten(grouped.value))
    {
      if nEachTime == 0 {
        return Err(ZeroDivision);
      }
      var sampleN := FloorDiv(numEachDomain, nEachTime);
      var grouped := ParseDomains(Requested(samples, sampleN));
      if grouped.Err? {
        return Err(grouped.error);
      }
      if questionFile.None? {
        return Err(MissingQuestionFile);
      }
      var records := NumberQuestions(grouped.value);
      questions := ByDomain(grouped.value);
      r := Ok(records);
    }

    /** The loop of `generate_questions` over the domains: each domain's
        sampled texts parsed in turn, or the first failure. */
    method ParseDomains(perDomain: string -> seq<string>) returns (r: Result<seq<(string, seq<string>)>, Exception>)
      ensures r == Grouped(domains, perDomain, Parser(Each(nEachTime)))
    {
      var groups: seq<(string, seq<string>)> := [];
      for d := 0 to |domains|
        invariant Grouped(domains[..d], perDomain, Parser(Each(nEachTime))) == Ok(groups)
      {
        var qs := ParseSamples(perDomain(domains[d]));
        assert domains[..d + 1][..d] == domains[..d] && domains[..d + 1][d] == domains[d];
        if qs.Err? {
          GroupedFails(domains, d, perDomain, Parser(Each(nEachTime)));
          return Err(qs.error);
        }
        groups := groups + [(domains[d], qs.value)];
      }
      assert domains[..|domains|] == domains;
      r := Ok(groups);
    }
  }

  /** `max(n, 0)`: the number of iterations of `range(1, n + 1)`. */
  function Each(n: int): nat
  {
    if n > 0 then n else 0
  }

  /** `parse_questions` with `n_each_time == n`, as a value. */
  function Parser(n: nat): string -> Result<seq<string>, Exception>
  {
    qs => ParsedQuestions(qs, n)
  }

  /** Every successful parse holds `n` questions. */
  lemma ParserLength(n: nat)
    ensures forall qs :: Parser(n)(qs).Ok? ==> |Parser(n)(qs).value| == n
  {
    forall qs {
      ParsedLength(qs, n);
    }
  }

  /** The questions of one domain: the parses of its sampled texts, in
      order, or the error of the first text that does not parse. */
  function Sampled(texts: seq<string>, parse: string -> Result<seq<string>, Exception>): Result<seq<string>, Exception>
  {
    if texts == [] then Ok([])
    else
      var front := Sampled(texts[..|texts| - 1], parse);
      if front.Err? then front
      else
        var last := parse(texts[|texts| - 1]);
        if last.Err? then Err(last.error) else Ok(front.value + last.value)
  }

  /** The sampled texts of a domain parse exactly when each of them does, and
      then give `n` questions per text. */
  lemma {:induction false} SampledSpec(texts: seq<string>, parse: string -> Result<seq<string>, Exception>, n: nat)
    requires forall qs :: parse(qs).Ok? ==> |parse(qs).value| == n
    ensures Sampled(texts, parse).Ok? <==> forall t :: 0 <= t < |texts| ==> parse(texts[t]).Ok?
    ensures Sampled(texts, parse).Ok? ==> |Sampled(texts, parse).value| == n * |texts|
    decreases |texts|
  {
    if texts != [] {
      var front := texts[..|texts| - 1];
      SampledSpec(front, parse, n);
      if forall t :: 0 <= t < |texts| ==> parse(texts[t]).Ok? {
        forall t | 0 <= t < |front| ensures parse(front[t]).Ok? {
          assert front[t] == texts[t];
        }
      }
      MulSucc(n, |front|);
    }
  }

  lemma MulSucc(n: nat, m: nat)
    ensures n * (m + 1) == n * m + n
  {
  }

  /** Every domain with its questions, in domain order, or the first error. */
  function Grouped(domains: seq<string>, samples: string -> seq<string>, parse: string -> Result<seq<string>, Exception>): Result<seq<(string, seq<string>)>, Exception>
  {
    if domains == [] then Ok([])
    else
      var front := Grouped(domains[..|domains| - 1], samples, parse);
      if front.Err? then front
      else
        var qs := Sampled(samples(domains[|domains| - 1]), parse);
        if qs.Err? then Err(qs.error) else Ok(front.value + [(domains[|domains| - 1], qs.value)])
  }

  /** A text that fails to parse makes every longer run of texts fail with
      the same error, once the texts before it parsed. */
  lemma {:induction false} SampledFails(texts: seq<string>, t: nat, parse: string -> Result<seq<string>, Exception>)
    requires t < |texts| && Sampled(texts[..t], parse).Ok? && parse(texts[t]).Err?
    ensures Sampled(texts, parse) == Err(parse(texts[t]).error)
    decreases |texts|
  {
    assert texts[..t + 1][..t] == texts[..t];
    if t + 1 < |texts| {
      var front := texts[..|texts| - 1];
      assert front[..t] == texts[..t] && front[t] == texts[t];
      SampledFails(front, t, parse);
    } else {
      assert texts[..t] == texts[..|texts| - 1];
    }
  }

  lemma {:induction false} GroupedFails(domains: seq<string>, d: nat, samples: string -> seq<string>, parse: string -> Result<seq<string>, Exception>)
    requires d < |domains| && Grouped(domains[..d], samples, parse).Ok? && Sampled(samples(domains[d]), parse).Err?
    ensures Grouped(domains, samples, parse) == Err(Sampled(samples(domains[d]), parse).error)
    decreases |domains|
  {
    if d + 1 < |domains| {
      var front := domains[..|domains| - 1];
      assert front[..d] == domains[..d] && front[d] == domains[d];
      GroupedFails(front, d, samples, parse);
    } else {
      assert domains[..d] == domains[..|domains| - 1];
    }
  }
}

/** The action protocol of a debater's output (utils/candidate.py): the four
    action tags in each language, the tokenizer that `re.split` with a
    capturing group performs, the "think repeats, every other action is
    overwritten in place" insertion rule, the parse of a generated text, and
    the rendering of a parsed turn back into tagged text. */
module Protocol {
  import opened Wrappers
  import opened Text

  datatype Language = En | Zh

  datatype Kind = Think | Respond | Criticize | Raise

  /** The opening tag of an action in a language. */
  function Tag(lang: Language, k: Kind): string
  {
    match k
    case Think => if lang == En then "<think>" else "<思考>"
    case Respond => if lang == En then "<respond>" else "<回答>"
    case Criticize => if lang == En then "<criticize>" else "<批评>"
    case Raise => if lang == En then "<raise>" else "<提问>"
  }

  /** Different actions have different tags. */
  lemma TagsDiffer(lang: Language, k: Kind, k': Kind)
    requires k != k'
    ensures Tag(lang, k) != Tag(lang, k')
  {
    assert Tag(lang, k)[1] != Tag(lang, k')[1] || Tag(lang, k)[2] != Tag(lang, k')[2];
  }

  /** The closing tag of an action: `tag.replace("<", "</")` (see `ClosingOfTag`). */
  function CloseTag(lang: Language, k: Kind): string
  {
    "</" + Tag(lang, k)[1..]
  }

  function OpenTags(lang: Language): seq<string>
  {
    [Tag(lang, Think), Tag(lang, Respond), Tag(lang, Criticize), Tag(lang, Raise)]
  }

  function CloseTags(lang: Language): seq<string>
  {
    [CloseTag(lang, Think), CloseTag(lang, Respond), CloseTag(lang, Criticize), CloseTag(lang, Raise)]
  }

  /** The alternatives of the splitting pattern, in the pattern's order. */
  function SplitTags(lang: Language): seq<string>
  {
    [Tag(lang, Think), CloseTag(lang, Think), Tag(lang, Respond), CloseTag(lang, Respond),
     Tag(lang, Criticize), CloseTag(lang, Criticize), Tag(lang, Raise), CloseTag(lang, Raise)]
  }

  /** `actions_en_to_zh`. */
  const EnToZh: map<string, string> :=
    map["<respond>" := "<回答>", "<think>" := "<思考>", "<criticize>" := "<批评>", "<raise>" := "<提问>"]

  /** `action_list_in_language`: English action names, translated when the
      language is Chinese (a name outside the table raises KeyError there). */
  function ActionListInLanguage(actions: seq<string>, lang: Language): (r: seq<string>)
    requires lang == Zh ==> forall a :: a in actions ==> a in EnToZh
    ensures |r| == |actions|
    ensures forall i, k :: 0 <= i < |actions| && actions[i] == Tag(En, k) ==> r[i] == Tag(lang, k)
    ensures lang == En ==> r == actions
  {
    if actions == [] then []
    else
      var head := if lang == En then actions[0] else EnToZh[actions[0]];
      [head] + ActionListInLanguage(actions[1..], lang)
  }

  // ---------------------------------------------------------------------------
  // Tag shape: every tag starts with '<', ends with '>', and has neither
  // character anywhere else. This is what makes the tokenizer unambiguous.

  predicate WellTag(t: string)
  {
    && |t| >= 2 && t[0] == '<' && t[|t| - 1] == '>'
    && (forall i :: 0 < i < |t| ==> t[i] != '<')
    && (forall i :: 0 <= i < |t| - 1 ==> t[i] != '>')
  }

  predicate WellTags(tags: seq<string>)
  {
    forall t :: t in tags ==> WellTag(t)
  }

  lemma OpenTagWellFormed(lang: Language, k: Kind)
    ensures WellTag(Tag(lang, k))
  {
  }

  /** Inserting '/' after the '<' of a well-formed tag gives a well-formed tag. */
  lemma SlashWellTag(t: string)
    requires WellTag(t)
    ensures WellTag("</" + t[1..])
  {
    var c := "</" + t[1..];
    assert forall i :: 2 <= i < |c| ==> c[i] == t[i - 1];
  }

  lemma TagWellFormed(lang: Language, k: Kind)
    ensures WellTag(Tag(lang, k)) && WellTag(CloseTag(lang, k))
  {
    OpenTagWellFormed(lang, k);
    SlashWellTag(Tag(lang, k));
  }

  lemma SplitTagsWellFormed(lang: Language)
    ensures WellTags(SplitTags(lang))
  {
    TagWellFormed(lang, Think);
    TagWellFormed(lang, Respond);
    TagWellFormed(lang, Criticize);
    TagWellFormed(lang, Raise);
  }

  lemma SplitTagsNonEmpty(lang: Language)
    ensures forall t :: t in SplitTags(lang) ==> t != []
  {
  }

  lemma TagsInSplitTags(lang: Language)
    ensures forall k :: Tag(lang, k) in SplitTags(lang) && CloseTag(lang, k) in SplitTags(lang)
  {
  }

  lemma OpenCloseInSplitTags(lang: Language)
    ensures forall t :: t in OpenTags(lang) ==> t in SplitTags(lang)
    ensures forall t :: t in CloseTags(lang) ==> t in SplitTags(lang)
  {
  }

  /** No opening tag has '/' as its second character. */
  lemma OpenTagsNoSlash(lang: Language)
    ensures forall t :: t in OpenTags(lang) ==> |t| >= 2 && t[1] != '/'
  {
  }

  lemma CloseTagsNotOpen(lang: Language)
    ensures forall k :: CloseTag(lang, k) !in OpenTags(lang)
  {
    OpenTagsNoSlash(lang);
    forall k ensures CloseTag(lang, k) !in OpenTags(lang) {
      assert CloseTag(lang, k)[1] == '/';
    }
  }

  /** Two well-formed tags that are both prefixes of one string are equal. */
  lemma WellTagPrefixUnique(t1: string, t2: string, s: string)
    requires WellTag(t1) && WellTag(t2) && IsPrefix(t1, s) && IsPrefix(t2, s)
    ensures t1 == t2
  {
    var n := if |t1| <= |t2| then |t1| else |t2|;
    assert t1[n - 1] == s[n - 1] == t2[n - 1];
    assert |t1| == |t2| == n;
  }

  // ---------------------------------------------------------------------------
  // The tokenizer: `re.split('(' + '|'.join(tags) + ')', s)`.

  /** The alternative that matches at the start of `s`, trying `tags` in order. */
  function TagAt(s: string, tags: seq<string>): (r: Option<string>)
    ensures r.Some? ==> r.value in tags && IsPrefix(r.value, s)
    ensures r.None? ==> forall t :: t in tags ==> !IsPrefix(t, s)
  {
    if tags == [] then None
    else if IsPrefix(tags[0], s) then Some(tags[0])
    else
      assert forall t :: t in tags ==> t == tags[0] || t in tags[1..];
      TagAt(s, tags[1..])
  }

  /** No alternative matches anywhere inside `u`. */
  predicate NoTagIn(u: string, tags: seq<string>)
  {
    forall i :: 0 <= i < |u| ==> TagAt(u[i..], tags).None?
  }

  /** `re.split` with one capturing group: text, separator, text, ..., text.
      Matches are found leftmost first and do not overlap. */
  function SplitKeep(s: string, tags: seq<string>): (r: seq<string>)
    requires forall t :: t in tags ==> t != []
    ensures |r| % 2 == 1
    decreases |s|
  {
    if s == [] then [""]
    else match TagAt(s, tags)
      case Some(t) => ["", t] + SplitKeep(s[|t|..], tags)
      case None =>
        var rest := SplitKeep(s[1..], tags);
        [[s[0]] + rest[0]] + rest[1..]
  }

  /** What `re.split` promises: the pieces concatenate to the input ... */
  lemma {:induction false} SplitKeepConcat(s: string, tags: seq<string>)
    requires forall t :: t in tags ==> t != []
    ensures Concat(SplitKeep(s, tags)) == s
    decreases |s|
  {
    if s != [] {
      match TagAt(s, tags)
      case Some(t) =>
        var rest := SplitKeep(s[|t|..], tags);
        SplitKeepConcat(s[|t|..], tags);
        assert (["", t] + rest)[1..] == [t] + rest;
        assert ([t] + rest)[1..] == rest;
        assert s == t + s[|t|..];
      case None =>
        var rest := SplitKeep(s[1..], tags);
        SplitKeepConcat(s[1..], tags);
        var r := [[s[0]] + rest[0]] + rest[1..];
        assert Concat(rest) == rest[0] + Concat(rest[1..]);
        assert r[1..] == rest[1..];
        assert s == [s[0]] + s[1..];
    }
  }

  /** ... every odd piece is a separator ... */
  lemma {:induction false} SplitKeepSeparators(s: string, tags: seq<string>)
    requires forall t :: t in tags ==> t != []
    ensures forall k :: 0 <= k < |SplitKeep(s, tags)| && k % 2 == 1 ==> SplitKeep(s, tags)[k] in tags
    decreases |s|
  {
    if s != [] {
      match TagAt(s, tags)
      case Some(t) =>
        var rest := SplitKeep(s[|t|..], tags);
        SplitKeepSeparators(s[|t|..], tags);
        var r := ["", t] + rest;
        assert SplitKeep(s, tags) == r;
        assert r[1] == t;
        assert forall k :: 2 <= k < |r| ==> r[k] == rest[k - 2];
      case None =>
        var rest := SplitKeep(s[1..], tags);
        SplitKeepSeparators(s[1..], tags);
        var r := [[s[0]] + rest[0]] + rest[1..];
        assert SplitKeep(s, tags) == r;
        assert forall k :: 1 <= k < |r| ==> r[k] == rest[k];
    }
  }

  /** ... and no separator occurs inside an even piece. */
  lemma {:induction false} SplitKeepText(s: string, tags: seq<string>)
    requires forall t :: t in tags ==> t != []
    ensures forall k :: 0 <= k < |SplitKeep(s, tags)| && k % 2 == 0 ==> NoTagIn(SplitKeep(s, tags)[k], tags)
    decreases |s|
  {
    if s != [] {
      match TagAt(s, tags)
      case Some(t) =>
        var rest := SplitKeep(s[|t|..], tags);
        SplitKeepText(s[|t|..], tags);
        var r := ["", t] + rest;
        assert SplitKeep(s, tags) == r;
        assert NoTagIn(r[0], tags);
        assert forall k :: 2 <= k < |r| ==> r[k] == rest[k - 2];
      case None =>
        var rest := SplitKeep(s[1..], tags);
        SplitKeepText(s[1..], tags);
        SplitKeepConcat(s[1..], tags);
        assert Concat(rest) == rest[0] + Concat(rest[1..]);
        var head := [s[0]] + rest[0];
        var r := [head] + rest[1..];
        assert SplitKeep(s, tags) == r;
        assert forall k :: 1 <= k < |r| ==> r[k] == rest[k];
        HeadNoTag(s, rest[0], tags);
        assert r[0] == head;
    }
  }

  /** A character at which no separator starts, followed by tag-free text that
      begins the rest of the input, is tag-free. */
  lemma HeadNoTag(s: string, u: string, tags: seq<string>)
    requires s != [] && TagAt(s, tags).None? && NoTagIn(u, tags) && IsPrefix(u, s[1..])
    ensures NoTagIn([s[0]] + u, tags)
  {
    var head := [s[0]] + u;
    assert IsPrefix(head, s);
    forall i | 0 <= i < |head| ensures TagAt(head[i..], tags).None? {
      if i == 0 {
        forall t | t in tags ensures !IsPrefix(t, head) {
          PrefixTrans(t, head, s);
        }
      } else {
        assert head[i..] == u[i - 1..];
      }
    }
  }

  /** A separator at the start of the text is split off on its own. */
  lemma {:induction false} SplitTagFirst(t: string, v: string, tags: seq<string>)
    requires WellTags(tags) && t in tags
    ensures SplitKeep(t + v, tags) == ["", t] + SplitKeep(v, tags)
  {
    var s := t + v;
    assert IsPrefix(t, s);
    var m := TagAt(s, tags);
    WellTagPrefixUnique(m.value, t, s);
    assert s[|t|..] == v;
  }

  /** Text in which no separator starts is kept whole, glued to whatever text
      follows it. */
  lemma {:induction false} SplitTextFirst(u: string, w: string, tags: seq<string>)
    requires WellTags(tags)
    requires forall i :: 0 <= i < |u| ==> TagAt((u + w)[i..], tags).None?
    ensures SplitKeep(u + w, tags) == [u + SplitKeep(w, tags)[0]] + SplitKeep(w, tags)[1..]
    decreases |u|
  {
    if u == [] {
      assert u + w == w;
      var r := SplitKeep(w, tags);
      assert r == [r[0]] + r[1..];
      assert u + r[0] == r[0];
    } else {
      var s := u + w;
      assert s[0..] == s;
      assert s[1..] == u[1..] + w;
      forall i | 0 <= i < |u[1..]| ensures TagAt((u[1..] + w)[i..], tags).None? {
        assert (u[1..] + w)[i..] == s[i + 1..];
      }
      SplitTextFirst(u[1..], w, tags);
      assert TagAt(s, tags).None?;
      SplitKeepNone(s, tags);
      GlueChar(u, SplitKeep(w, tags), SplitKeep(s[1..], tags));
    }
  }

  /** Text at whose start no separator matches: its first character joins the
      first piece of the rest. */
  lemma SplitKeepNone(s: string, tags: seq<string>)
    requires forall t :: t in tags ==> t != []
    requires s != [] && TagAt(s, tags).None?
    ensures SplitKeep(s, tags) == [[s[0]] + SplitKeep(s[1..], tags)[0]] + SplitKeep(s[1..], tags)[1..]
  {
  }

  lemma GlueChar(u: string, r: seq<string>, rest: seq<string>)
    requires u != [] && |r| >= 1 && rest == [u[1..] + r[0]] + r[1..]
    ensures [[u[0]] + rest[0]] + rest[1..] == [u + r[0]] + r[1..]
  {
    assert rest[1..] == r[1..];
    assert [u[0]] + (u[1..] + r[0]) == u + r[0];
  }

  /** A separator cannot start inside tag-free text and run on into text that
      starts with '<' (a separator's only '<' is its first character). */
  lemma NoStraddle(c: string, w: string, tags: seq<string>)
    requires WellTags(tags) && NoTagIn(c, tags)
    requires w == [] || w[0] == '<'
    ensures forall i :: 0 <= i < |c| ==> TagAt((c + w)[i..], tags).None?
  {
    forall i, t | 0 <= i < |c| && t in tags ensures !IsPrefix(t, (c + w)[i..]) {
      var u := (c + w)[i..];
      assert TagAt(c[i..], tags).None?;
      if |t| <= |c| - i {
        assert u[..|t|] == c[i..][..|t|];
      } else if |t| <= |u| {
        assert u[|c| - i] == w[0];
        assert t[|c| - i] != '<';
        assert u[..|t|][|c| - i] != t[|c| - i];
      }
    }
  }

  /** A tag-free text is not itself a tag. */
  lemma NoTagInNotTag(u: string, tags: seq<string>)
    requires NoTagIn(u, tags) && forall t :: t in tags ==> t != []
    ensures u !in tags
  {
    if |u| > 0 {
      assert u[0..] == u;
      assert TagAt(u[0..], tags).None?;
    }
  }

  lemma ContainsFreeNoTag(c: string, tags: seq<string>)
    requires forall t :: t in tags ==> !Contains(c, t)
    ensures NoTagIn(c, tags)
  {
    forall i | 0 <= i < |c| ensures TagAt(c[i..], tags).None? {
      var m := TagAt(c[i..], tags);
      forall t | t in tags ensures !IsPrefix(t, c[i..]) {
        ContainsIff(c, t);
      }
    }
  }

  // ---------------------------------------------------------------------------
  // Parsed turns and the insertion rule (`append_action_to_parsed_list`).

  /** One `(action, content)` pair of a parsed turn. */
  datatype Fragment = Fragment(action: string, content: string)

  /** `action in [p[0] for p in parsed]`. */
  predicate Has(parsed: seq<Fragment>, action: string)
  {
    exists i :: 0 <= i < |parsed| && parsed[i].action == action
  }

  function Count(parsed: seq<Fragment>, action: string): nat
  {
    if parsed == [] then 0
    else (if parsed[|parsed| - 1].action == action then 1 else 0) + Count(parsed[..|parsed| - 1], action)
  }

  lemma {:induction false} CountHas(parsed: seq<Fragment>, action: string)
    ensures Count(parsed, action) > 0 <==> Has(parsed, action)
  {
    if parsed != [] {
      var init := parsed[..|parsed| - 1];
      CountHas(init, action);
      if Has(init, action) {
        var i :| 0 <= i < |init| && init[i].action == action;
        assert parsed[i] == init[i];
      }
      if Has(parsed, action) && parsed[|parsed| - 1].action != action {
        var i :| 0 <= i < |parsed| && parsed[i].action == action;
        assert init[i] == parsed[i];
      }
    }
  }

  lemma {:induction false} CountConcat(a: seq<Fragment>, b: seq<Fragment>, action: string)
    ensures Count(a + b, action) == Count(a, action) + Count(b, action)
    decreases |b|
  {
    if b == [] {
      assert a + b == a;
    } else {
      assert (a + b)[..|a + b| - 1] == a + b[..|b| - 1];
      CountConcat(a, b[..|b| - 1], action);
    }
  }

  lemma {:induction false} CountUpdate(parsed: seq<Fragment>, j: nat, f: Fragment, action: string)
    requires j < |parsed| && parsed[j].action == f.action
    ensures Count(parsed[j := f], action) == Count(parsed, action)
  {
    var n := |parsed| - 1;
    if j < n {
      assert parsed[j := f][..n] == parsed[..n][j := f];
      CountUpdate(parsed[..n], j, f, action);
    } else {
      assert parsed[j := f][..n] == parsed[..n];
    }
  }

  /** The index of the last fragment with the given action. */
  function LastIndex(parsed: seq<Fragment>, action: string): (j: nat)
    requires Has(parsed, action)
    ensures j < |parsed| && parsed[j].action == action
    ensures forall k :: j < k < |parsed| ==> parsed[k].action != action
  {
    var n := |parsed| - 1;
    if parsed[n].action == action then n
    else
      assert Has(parsed[..n], action) by {
        var i :| 0 <= i < |parsed| && parsed[i].action == action;
        assert parsed[..n][i] == parsed[i];
      }
      LastIndex(parsed[..n], action)
  }

  /** `append_action_to_parsed_list`: a think is always appended; any other
      action is appended when absent and otherwise overwrites the content of its
      last occurrence, which keeps its position. */
  function AppendAction(lang: Language, parsed: seq<Fragment>, action: string, content: string): (r: seq<Fragment>)
  {
    if !Has(parsed, action) || action == Tag(lang, Think) then parsed + [Fragment(action, content)]
    else parsed[LastIndex(parsed, action) := Fragment(action, content)]
  }

  /** The insertion rule, stated for each case. */
  lemma AppendActionCases(lang: Language, parsed: seq<Fragment>, action: string, content: string)
    ensures var r := AppendAction(lang, parsed, action, content);
      if action == Tag(lang, Think) || !Has(parsed, action) then
        r == parsed + [Fragment(action, content)]
      else
        && |r| == |parsed|
        && (exists j :: 0 <= j < |r| && r[j] == Fragment(action, content) && parsed[j].action == action
                        && (forall k :: j < k < |parsed| ==> parsed[k].action != action)
                        && (forall k :: 0 <= k < |r| && k != j ==> r[k] == parsed[k]))
  {
    if !(action == Tag(lang, Think) || !Has(parsed, action)) {
      var j := LastIndex(parsed, action);
      assert AppendAction(lang, parsed, action, content)[j] == Fragment(action, content);
    }
  }

  /** Appending never creates a second fragment of a non-think action. */
  lemma AppendKeepsAtMostOnce(lang: Language, parsed: seq<Fragment>, action: string, content: string, a: string)
    requires a != Tag(lang, Think) && Count(parsed, a) <= 1
    ensures Count(AppendAction(lang, parsed, action, content), a) <= 1
  {
    var f := Fragment(action, content);
    if !Has(parsed, action) || action == Tag(lang, Think) {
      CountConcat(parsed, [f], a);
      assert [f][..0] == [];
      if action == a {
        CountHas(parsed, a);
      }
    } else {
      CountUpdate(parsed, LastIndex(parsed, action), f, a);
    }
  }

  /** `for p in incoming: parsed = append_action_to_parsed_list(parsed, *p)`. */
  function Merge(lang: Language, parsed: seq<Fragment>, incoming: seq<Fragment>): seq<Fragment>
    decreases |incoming|
  {
    if incoming == [] then parsed
    else Merge(lang, AppendAction(lang, parsed, incoming[0].action, incoming[0].content), incoming[1..])
  }

  lemma {:induction false} MergeSnoc(lang: Language, parsed: seq<Fragment>, incoming: seq<Fragment>, f: Fragment)
    ensures Merge(lang, parsed, incoming + [f]) == AppendAction(lang, Merge(lang, parsed, incoming), f.action, f.content)
    decreases |incoming|
  {
    if incoming == [] {
      assert (incoming + [f])[1..] == [];
    } else {
      assert (incoming + [f])[1..] == incoming[1..] + [f];
      MergeSnoc(lang, AppendAction(lang, parsed, incoming[0].action, incoming[0].content), incoming[1..], f);
    }
  }

  lemma CountFront(f: Fragment, rest: seq<Fragment>, a: string)
    ensures Count([f] + rest, a) == (if f.action == a then 1 else 0) + Count(rest, a)
  {
    CountConcat([f], rest, a);
    assert [f][..0] == [];
  }

  /** An action that is not yet present is appended. */
  lemma AppendFresh(lang: Language, acc: seq<Fragment>, f: Fragment)
    requires Count(acc, f.action) == 0
    ensures AppendAction(lang, acc, f.action, f.content) == acc + [f]
  {
    CountHas(acc, f.action);
  }

  /** Merging fragments whose actions are not think and occur once in all is
      plain concatenation. */
  lemma {:induction false} MergeFresh(lang: Language, acc: seq<Fragment>, incoming: seq<Fragment>)
    requires forall f :: f in incoming ==> f.action != Tag(lang, Think) && Count(acc + incoming, f.action) <= 1
    ensures Merge(lang, acc, incoming) == acc + incoming
    decreases |incoming|
  {
    if incoming != [] {
      var f := incoming[0];
      var rest := incoming[1..];
      assert incoming == [f] + rest;
      assert acc + incoming == (acc + [f]) + rest;
      CountConcat(acc, incoming, f.action);
      CountFront(f, rest, f.action);
      AppendFresh(lang, acc, f);
      assert forall g :: g in rest ==> g in incoming;
      MergeFresh(lang, acc + [f], rest);
    }
  }

  /** Merging think fragments is plain concatenation: thoughts repeat. */
  lemma {:induction false} MergeThinks(lang: Language, acc: seq<Fragment>, incoming: seq<Fragment>)
    requires forall f :: f in incoming ==> f.action == Tag(lang, Think)
    ensures Merge(lang, acc, incoming) == acc + incoming
    decreases |incoming|
  {
    if incoming != [] {
      var f := incoming[0];
      var rest := incoming[1..];
      assert incoming == [f] + rest;
      assert acc + incoming == (acc + [f]) + rest;
      assert forall g :: g in rest ==> g in incoming;
      MergeThinks(lang, acc + [f], rest);
    }
  }

  lemma {:induction false} MergeKeepsAtMostOnce(lang: Language, parsed: seq<Fragment>, incoming: seq<Fragment>, a: string)
    requires a != Tag(lang, Think) && Count(parsed, a) <= 1
    ensures Count(Merge(lang, parsed, incoming), a) <= 1
    decreases |incoming|
  {
    if incoming != [] {
      AppendKeepsAtMostOnce(lang, parsed, incoming[0].action, incoming[0].content, a);
      MergeKeepsAtMostOnce(lang, AppendAction(lang, parsed, incoming[0].action, incoming[0].content), incoming[1..], a);
    }
  }

  predicate ActionsIn(parsed: seq<Fragment>, actions: seq<string>)
  {
    forall f :: f in parsed ==> f.action in actions
  }

  lemma {:induction false} MergeKeepsActions(lang: Language, parsed: seq<Fragment>, incoming: seq<Fragment>, actions: seq<string>)
    requires ActionsIn(parsed, actions) && ActionsIn(incoming, actions)
    ensures ActionsIn(Merge(lang, parsed, incoming), actions)
    decreases |incoming|
  {
    if incoming != [] {
      var next := AppendAction(lang, parsed, incoming[0].action, incoming[0].content);
      assert ActionsIn(next, actions) by {
        forall f | f in next ensures f.action in actions {
          var j :| 0 <= j < |next| && next[j] == f;
          if j < |parsed| && next[j] != parsed[j] {
            assert f.action == incoming[0].action;
          } else if j < |parsed| {
            assert parsed[j] in parsed;
          }
        }
      }
      MergeKeepsActions(lang, next, incoming[1..], actions);
    }
  }

  // ---------------------------------------------------------------------------
  // Parsing a generated text (`parse_response`).

  /** `any(c.isalpha() for c in s)`, for an abstract `isalpha`. */
  predicate HasAlpha(isAlpha: char -> bool, s: string)
  {
    exists i :: 0 <= i < |s| && isAlpha(s[i])
  }

  /** Every opening tag contains a letter, as `str.isalpha` says of the real tags. */
  predicate TagsHaveLetters(isAlpha: char -> bool, lang: Language)
  {
    forall k :: HasAlpha(isAlpha, Tag(lang, k))
  }

  /** The split list never ends with an opening tag, so an opening tag always
      has a next element to bind. */
  predicate WellEnded(lang: Language, pieces: seq<string>)
  {
    pieces == [] || pieces[|pieces| - 1] !in OpenTags(lang)
  }

  /** The loop of `parse_response` over the split pieces, from `acc` on: a
      piece that is `"\n"` or has no letter is dropped; an opening tag binds the
      next piece as its content and that piece is skipped; a closing tag is
      dropped; any other piece becomes a respond action. */
  function ParsePieces(lang: Language, isAlpha: char -> bool, pieces: seq<string>, acc: seq<Fragment>): seq<Fragment>
    requires WellEnded(lang, pieces)
    decreases |pieces|
  {
    if pieces == [] then acc
    else
      var s := pieces[0];
      if s != "\n" && HasAlpha(isAlpha, s) && s in OpenTags(lang) then
        ParsePieces(lang, isAlpha, pieces[2..], AppendAction(lang, acc, s, pieces[1]))
      else if s != "\n" && HasAlpha(isAlpha, s) && s !in CloseTags(lang) then
        ParsePieces(lang, isAlpha, pieces[1..], AppendAction(lang, acc, Tag(lang, Respond), s))
      else
        ParsePieces(lang, isAlpha, pieces[1..], acc)
  }

  /** The split of a text, with the facts parsing needs. */
  function Split(lang: Language, text: string): (r: seq<string>)
    ensures WellEnded(lang, r) && |r| % 2 == 1
  {
    SplitTagsNonEmpty(lang);
    OpenCloseInSplitTags(lang);
    var r := SplitKeep(text, SplitTags(lang));
    LastPieceNotTag(text, SplitTags(lang));
    r
  }

  lemma LastPieceNotTag(s: string, tags: seq<string>)
    requires forall t :: t in tags ==> t != []
    ensures var r := SplitKeep(s, tags); r[|r| - 1] !in tags
  {
    var r := SplitKeep(s, tags);
    SplitKeepText(s, tags);
    NoTagInNotTag(r[|r| - 1], tags);
  }

  /** `parse_response(text)`. */
  function Parse(lang: Language, isAlpha: char -> bool, text: string): seq<Fragment>
  {
    ParsePieces(lang, isAlpha, Split(lang, text), [])
  }

  lemma {:induction false} ParsePiecesActions(lang: Language, isAlpha: char -> bool, pieces: seq<string>, acc: seq<Fragment>)
    requires WellEnded(lang, pieces) && ActionsIn(acc, OpenTags(lang))
    ensures ActionsIn(ParsePieces(lang, isAlpha, pieces, acc), OpenTags(lang))
    decreases |pieces|
  {
    if pieces != [] {
      var s := pieces[0];
      if s != "\n" && HasAlpha(isAlpha, s) && s in OpenTags(lang) {
        MergeKeepsActions(lang, acc, [Fragment(s, pieces[1])], OpenTags(lang));
        assert Merge(lang, acc, [Fragment(s, pieces[1])]) == AppendAction(lang, acc, s, pieces[1]);
        ParsePiecesActions(lang, isAlpha, pieces[2..], AppendAction(lang, acc, s, pieces[1]));
      } else if s != "\n" && HasAlpha(isAlpha, s) && s !in CloseTags(lang) {
        MergeKeepsActions(lang, acc, [Fragment(Tag(lang, Respond), s)], OpenTags(lang));
        assert Merge(lang, acc, [Fragment(Tag(lang, Respond), s)]) == AppendAction(lang, acc, Tag(lang, Respond), s);
        ParsePiecesActions(lang, isAlpha, pieces[1..], AppendAction(lang, acc, Tag(lang, Respond), s));
      } else {
        ParsePiecesActions(lang, isAlpha, pieces[1..], acc);
      }
    }
  }

  lemma {:induction false} ParsePiecesAtMostOnce(lang: Language, isAlpha: char -> bool, pieces: seq<string>, acc: seq<Fragment>, a: string)
    requires WellEnded(lang, pieces) && a != Tag(lang, Think) && Count(acc, a) <= 1
    ensures Count(ParsePieces(lang, isAlpha, pieces, acc), a) <= 1
    decreases |pieces|
  {
    if pieces != [] {
      var s := pieces[0];
      if s != "\n" && HasAlpha(isAlpha, s) && s in OpenTags(lang) {
        AppendKeepsAtMostOnce(lang, acc, s, pieces[1], a);
        ParsePiecesAtMostOnce(lang, isAlpha, pieces[2..], AppendAction(lang, acc, s, pieces[1]), a);
      } else if s != "\n" && HasAlpha(isAlpha, s) && s !in CloseTags(lang) {
        AppendKeepsAtMostOnce(lang, acc, Tag(lang, Respond), s, a);
        ParsePiecesAtMostOnce(lang, isAlpha, pieces[1..], AppendAction(lang, acc, Tag(lang, Respond), s), a);
      } else {
        ParsePiecesAtMostOnce(lang, isAlpha, pieces[1..], acc, a);
      }
    }
  }

  /** Parsing never yields a closing tag or a foreign string as an action: every
      action is one of the language's four opening tags. */
  lemma ParseActionsAreOpenTags(lang: Language, isAlpha: char -> bool, text: string)
    ensures ActionsIn(Parse(lang, isAlpha, text), OpenTags(lang))
  {
    ParsePiecesActions(lang, isAlpha, Split(lang, text), []);
  }

  /** A parsed turn has at most one fragment of each action other than think. */
  lemma ParseAtMostOnce(lang: Language, isAlpha: char -> bool, text: string, k: Kind)
    requires k != Think
    ensures Count(Parse(lang, isAlpha, text), Tag(lang, k)) <= 1
  {
    ParsePiecesAtMostOnce(lang, isAlpha, Split(lang, text), [], Tag(lang, k));
  }

  /** Text without any tag is one respond action when it has a letter and is
      not a lone newline, and nothing otherwise. */
  lemma UntaggedIsRespond(lang: Language, isAlpha: char -> bool, text: string)
    requires NoTagIn(text, SplitTags(lang))
    ensures Parse(lang, isAlpha, text) ==
      if text != "\n" && HasAlpha(isAlpha, text) then [Fragment(Tag(lang, Respond), text)] else []
  {
    SplitTagsWellFormed(lang);
    SplitTagsNonEmpty(lang);
    OpenCloseInSplitTags(lang);
    var tags := SplitTags(lang);
    assert text + "" == text;
    NoStraddle(text, "", tags);
    SplitTextFirst(text, "", tags);
    var pieces := Split(lang, text);
    assert pieces == [text];
    NoTagInNotTag(text, tags);
    assert pieces[1..] == [];
    if text != "\n" && HasAlpha(isAlpha, text) {
      assert !Has([], Tag(lang, Respond));
      assert ParsePieces(lang, isAlpha, pieces, []) == ParsePieces(lang, isAlpha, [], [Fragment(Tag(lang, Respond), text)]);
    } else {
      assert ParsePieces(lang, isAlpha, pieces, []) == ParsePieces(lang, isAlpha, [], []);
    }
  }

  // ---------------------------------------------------------------------------
  // Rendering (`reformat_parsed`, `no_thought_content`).

  /** `tag.replace("<", "</")`. */
  function Closing(tag: string): string
  {
    Replace(tag, "<", "</")
  }

  /** On a well-formed tag, `replace("<", "</")` touches the first character only. */
  lemma ClosingWellTag(t: string)
    requires WellTag(t)
    ensures Closing(t) == "</" + t[1..]
  {
    assert IsPrefix("<", t);
    assert !Contains(t[1..], "<") by {
      ContainsIff(t[1..], "<");
      forall i | 0 <= i <= |t[1..]| ensures !IsPrefix("<", t[1..][i..]) {
        if i < |t[1..]| {
          assert t[1..][i..][0] == t[i + 1];
        }
      }
    }
  }

  lemma ClosingOfTag(lang: Language, k: Kind)
    ensures Closing(Tag(lang, k)) == CloseTag(lang, k)
  {
    TagWellFormed(lang, k);
    ClosingWellTag(Tag(lang, k));
  }

  /** `f'{tag}{content}{closing tag}\n'`. */
  function RenderFragment(f: Fragment): string
  {
    f.action + f.content + Closing(f.action) + "\n"
  }

  /** `reformat_parsed(parsed)`. */
  function Render(parsed: seq<Fragment>): string
  {
    if parsed == [] then "" else RenderFragment(parsed[0]) + Render(parsed[1..])
  }

  lemma {:induction false} RenderSnoc(parsed: seq<Fragment>, f: Fragment)
    ensures Render(parsed + [f]) == Render(parsed) + RenderFragment(f)
    decreases |parsed|
  {
    if parsed == [] {
      assert ([] + [f])[1..] == [];
    } else {
      assert (parsed + [f])[1..] == parsed[1..] + [f];
      RenderSnoc(parsed[1..], f);
    }
  }

  /** The actions the opponent may see. */
  predicate Visible(lang: Language, f: Fragment)
  {
    f.action == Tag(lang, Respond) || f.action == Tag(lang, Raise)
  }

  /** The respond and raise fragments of a turn, in order. */
  function VisibleOnly(lang: Language, parsed: seq<Fragment>): (r: seq<Fragment>)
  {
    if parsed == [] then []
    else (if Visible(lang, parsed[0]) then [parsed[0]] else []) + VisibleOnly(lang, parsed[1..])
  }

  lemma {:induction false} VisibleOnlySnoc(lang: Language, parsed: seq<Fragment>, f: Fragment)
    ensures VisibleOnly(lang, parsed + [f]) == VisibleOnly(lang, parsed) + (if Visible(lang, f) then [f] else [])
    decreases |parsed|
  {
    var p := parsed + [f];
    if parsed == [] {
      assert p[1..] == [];
    } else {
      var head := if Visible(lang, parsed[0]) then [parsed[0]] else [];
      assert p[0] == parsed[0] && p[1..] == parsed[1..] + [f];
      assert VisibleOnly(lang, p) == head + VisibleOnly(lang, p[1..]);
      VisibleOnlySnoc(lang, parsed[1..], f);
      assert VisibleOnly(lang, parsed) == head + VisibleOnly(lang, parsed[1..]);
    }
  }

  lemma {:induction false} VisibleOnlyMembers(lang: Language, parsed: seq<Fragment>)
    ensures forall f :: f in VisibleOnly(lang, parsed) ==> f in parsed && Visible(lang, f)
    decreases |parsed|
  {
    if parsed != [] {
      VisibleOnlyMembers(lang, parsed[1..]);
      assert forall f :: f in parsed[1..] ==> f in parsed;
    }
  }

  lemma {:induction false} CountVisibleOnly(lang: Language, parsed: seq<Fragment>, a: string)
    ensures Count(VisibleOnly(lang, parsed), a) <= Count(parsed, a)
    decreases |parsed|
  {
    if parsed != [] {
      var head := [parsed[0]];
      var tail := parsed[1..];
      var kept := if Visible(lang, parsed[0]) then head else [];
      assert parsed == head + tail;
      assert VisibleOnly(lang, parsed) == kept + VisibleOnly(lang, tail);
      CountConcat(kept, VisibleOnly(lang, tail), a);
      CountConcat(head, tail, a);
      assert head[..0] == [];
      CountVisibleOnly(lang, tail, a);
    }
  }

  /** `no_thought_content(parsed)`: the rendering of the respond and raise
      fragments only. */
  function NoThought(lang: Language, parsed: seq<Fragment>): string
  {
    Render(VisibleOnly(lang, parsed))
  }

  // ---------------------------------------------------------------------------
  // Round trip.

  /** The split of a rendered turn: an empty text, then per fragment its tag,
      its content, its closing tag and a newline. */
  function Blocks(parsed: seq<Fragment>): seq<string>
  {
    if parsed == [] then []
    else [parsed[0].action, parsed[0].content, Closing(parsed[0].action), "\n"] + Blocks(parsed[1..])
  }

  /** Fragments whose actions are opening tags and whose contents contain no
      tag string. */
  predicate Renderable(lang: Language, parsed: seq<Fragment>)
  {
    forall f :: f in parsed ==> f.action in OpenTags(lang) && forall t :: t in SplitTags(lang) ==> !Contains(f.content, t)
  }

  /** The split of one rendered fragment in front of more text. */
  lemma SplitBlock(o: string, c: string, cl: string, rest: string, tags: seq<string>)
    requires WellTags(tags) && o in tags && cl in tags && NoTagIn(c, tags)
    ensures SplitKeep(o + (c + (cl + ("\n" + rest))), tags)
         == ["", o, c, cl, "\n" + SplitKeep(rest, tags)[0]] + SplitKeep(rest, tags)[1..]
  {
    var y := cl + ("\n" + rest);
    var r := SplitKeep(rest, tags);
    SplitCloseFirst(cl, rest, tags);
    assert y[0] == cl[0] == '<';
    SplitTextBeforeTag(c, y, tags);
    GlueText(c, SplitKeep(y, tags), cl, "\n" + r[0], r[1..]);
    SplitTagFirst(o, c + y, tags);
    GlueTag(o, SplitKeep(c + y, tags), [c, cl, "\n" + r[0]] + r[1..]);
  }

  lemma GlueTag(o: string, sx: seq<string>, b: seq<string>)
    requires sx == b && |b| >= 3
    ensures ["", o] + sx == ["", o, b[0], b[1], b[2]] + b[3..]
  {
  }

  lemma GlueText(c: string, sy: seq<string>, cl: string, h: string, tail: seq<string>)
    requires sy == ["", cl, h] + tail
    ensures [c + sy[0]] + sy[1..] == [c, cl, h] + tail
  {
    assert c + sy[0] == c;
    assert sy[1..] == [cl, h] + tail;
  }

  /** Tag-free text in front of a tag is a text piece of its own. */
  lemma SplitTextBeforeTag(c: string, y: string, tags: seq<string>)
    requires WellTags(tags) && NoTagIn(c, tags) && (y == [] || y[0] == '<')
    ensures SplitKeep(c + y, tags) == [c + SplitKeep(y, tags)[0]] + SplitKeep(y, tags)[1..]
  {
    NoStraddle(c, y, tags);
    SplitTextFirst(c, y, tags);
  }

  /** A closing tag and a newline in front of more text. */
  lemma SplitCloseFirst(cl: string, rest: string, tags: seq<string>)
    requires WellTags(tags) && cl in tags
    ensures SplitKeep(cl + ("\n" + rest), tags)
         == ["", cl, "\n" + SplitKeep(rest, tags)[0]] + SplitKeep(rest, tags)[1..]
  {
    SplitNewlineFirst(rest, tags);
    SplitTagFirst(cl, "\n" + rest, tags);
  }

  /** A newline in front of more text joins the first text piece. */
  lemma SplitNewlineFirst(rest: string, tags: seq<string>)
    requires WellTags(tags)
    ensures SplitKeep("\n" + rest, tags) == ["\n" + SplitKeep(rest, tags)[0]] + SplitKeep(rest, tags)[1..]
  {
    var z := "\n" + rest;
    assert z[0..] == z;
    assert TagAt(z[0..], tags).None?;
    SplitTextFirst("\n", rest, tags);
  }

  /** What splitting needs to know about one renderable fragment. */
  lemma FragmentFacts(lang: Language, f: Fragment)
    requires f.action in OpenTags(lang)
    requires forall t :: t in SplitTags(lang) ==> !Contains(f.content, t)
    ensures WellTags(SplitTags(lang)) && f.action in SplitTags(lang) && Closing(f.action) in SplitTags(lang)
    ensures NoTagIn(f.content, SplitTags(lang))
  {
    var k :| f.action == Tag(lang, k);
    ClosingOfTag(lang, k);
    TagsInSplitTags(lang);
    SplitTagsWellFormed(lang);
    ContainsFreeNoTag(f.content, SplitTags(lang));
  }

  /** One rendered fragment in front of a rendered rest whose split is known. */
  lemma SplitRenderStep(o: string, c: string, cl: string, rest: string, b: seq<string>, tags: seq<string>)
    requires WellTags(tags) && o in tags && cl in tags && NoTagIn(c, tags)
    requires SplitKeep(rest, tags) == [""] + b
    ensures SplitKeep(o + (c + (cl + ("\n" + rest))), tags) == [""] + ([o, c, cl, "\n"] + b)
  {
    SplitBlock(o, c, cl, rest, tags);
    GlueBlocks(SplitKeep(rest, tags), b, o, c, cl);
  }

  lemma {:induction false} SplitRender(lang: Language, parsed: seq<Fragment>)
    requires Renderable(lang, parsed)
    ensures Split(lang, Render(parsed)) == [""] + Blocks(parsed)
    decreases |parsed|
  {
    if parsed != [] {
      var f := parsed[0];
      FragmentFacts(lang, f);
      assert Renderable(lang, parsed[1..]);
      SplitRender(lang, parsed[1..]);
      RenderCons(parsed);
      SplitRenderStep(f.action, f.content, Closing(f.action), Render(parsed[1..]), Blocks(parsed[1..]), SplitTags(lang));
    }
  }

  lemma RenderCons(parsed: seq<Fragment>)
    requires parsed != []
    ensures Render(parsed)
         == parsed[0].action + (parsed[0].content + (Closing(parsed[0].action) + ("\n" + Render(parsed[1..]))))
  {
  }

  lemma GlueBlocks(r: seq<string>, b: seq<string>, o: string, c: string, cl: string)
    requires r == [""] + b
    ensures ["", o, c, cl, "\n" + r[0]] + r[1..] == [""] + ([o, c, cl, "\n"] + b)
  {
    assert "\n" + r[0] == "\n";
    assert r[1..] == b;
  }

  /** A newline or a closing tag is dropped by the parse. */
  lemma ParseSkip(lang: Language, isAlpha: char -> bool, p: string, rest: seq<string>, acc: seq<Fragment>)
    requires WellEnded(lang, rest) && (p == "\n" || p in CloseTags(lang)) && p !in OpenTags(lang)
    ensures WellEnded(lang, [p] + rest)
    ensures ParsePieces(lang, isAlpha, [p] + rest, acc) == ParsePieces(lang, isAlpha, rest, acc)
  {
    assert ([p] + rest)[1..] == rest;
  }

  /** An opening tag with a letter binds the piece after it. */
  lemma ParseBind(lang: Language, isAlpha: char -> bool, o: string, c: string, rest: seq<string>, acc: seq<Fragment>)
    requires WellEnded(lang, rest) && WellEnded(lang, [o, c] + rest)
    requires o != "\n" && HasAlpha(isAlpha, o) && o in OpenTags(lang)
    ensures ParsePieces(lang, isAlpha, [o, c] + rest, acc) == ParsePieces(lang, isAlpha, rest, AppendAction(lang, acc, o, c))
  {
    assert ([o, c] + rest)[2..] == rest;
  }

  /** What the parse does with a piece that is not an opening tag: a lone
      newline or a piece without a letter is dropped, a closing tag is dropped,
      and any other piece becomes a respond action. */
  lemma ParseLoosePiece(lang: Language, isAlpha: char -> bool, p: string, rest: seq<string>, acc: seq<Fragment>)
    requires WellEnded(lang, [p] + rest) && p !in OpenTags(lang)
    ensures WellEnded(lang, rest)
    ensures p == "\n" || !HasAlpha(isAlpha, p) || p in CloseTags(lang) ==>
              ParsePieces(lang, isAlpha, [p] + rest, acc) == ParsePieces(lang, isAlpha, rest, acc)
    ensures p != "\n" && HasAlpha(isAlpha, p) && p !in CloseTags(lang) ==>
              ParsePieces(lang, isAlpha, [p] + rest, acc) == ParsePieces(lang, isAlpha, rest, AppendAction(lang, acc, Tag(lang, Respond), p))
  {
    assert ([p] + rest)[1..] == rest;
  }

  /** What parsing needs to know about an action's two tags. */
  lemma TagFacts(lang: Language, isAlpha: char -> bool, k: Kind)
    requires TagsHaveLetters(isAlpha, lang)
    ensures Tag(lang, k) != "\n" && HasAlpha(isAlpha, Tag(lang, k)) && Tag(lang, k) in OpenTags(lang)
    ensures CloseTag(lang, k) in CloseTags(lang) && CloseTag(lang, k) !in OpenTags(lang)
    ensures "\n" !in OpenTags(lang)
  {
    CloseTagsNotOpen(lang);
    OpenTagsNoSlash(lang);
    OpenTagWellFormed(lang, k);
  }

  /** Parsing one rendered fragment: the tag binds the content, the closing tag
      and the newline are dropped. */
  lemma ParseBlock(lang: Language, isAlpha: char -> bool, o: string, c: string, cl: string, rest: seq<string>, acc: seq<Fragment>)
    requires WellEnded(lang, rest) && o != "\n" && HasAlpha(isAlpha, o) && o in OpenTags(lang)
    requires cl in CloseTags(lang) && cl !in OpenTags(lang) && "\n" !in OpenTags(lang)
    ensures WellEnded(lang, [o, c, cl, "\n"] + rest)
    ensures ParsePieces(lang, isAlpha, [o, c, cl, "\n"] + rest, acc)
         == ParsePieces(lang, isAlpha, rest, AppendAction(lang, acc, o, c))
  {
    var acc' := AppendAction(lang, acc, o, c);
    var q := ["\n"] + rest;
    ParseSkip(lang, isAlpha, "\n", rest, acc');
    ParseSkip(lang, isAlpha, cl, q, acc');
    BlockPieces(o, c, cl, rest);
    ParseBind(lang, isAlpha, o, c, [cl] + q, acc);
  }

  lemma BlockPieces(o: string, c: string, cl: string, rest: seq<string>)
    ensures [o, c] + ([cl] + (["\n"] + rest)) == [o, c, cl, "\n"] + rest
    ensures ([o, c, cl, "\n"] + rest)[|[o, c, cl, "\n"] + rest| - 1] == if rest == [] then "\n" else rest[|rest| - 1]
  {
  }

  lemma {:induction false} ParseBlocks(lang: Language, isAlpha: char -> bool, parsed: seq<Fragment>, acc: seq<Fragment>)
    requires TagsHaveLetters(isAlpha, lang) && Renderable(lang, parsed)
    ensures WellEnded(lang, Blocks(parsed))
    ensures ParsePieces(lang, isAlpha, Blocks(parsed), acc) == Merge(lang, acc, parsed)
    decreases |parsed|
  {
    if parsed != [] {
      var f := parsed[0];
      var k :| f.action == Tag(lang, k);
      ClosingOfTag(lang, k);
      TagFacts(lang, isAlpha, k);
      assert Renderable(lang, parsed[1..]);
      ParseBlocks(lang, isAlpha, parsed[1..], AppendAction(lang, acc, f.action, f.content));
      ParseBlock(lang, isAlpha, f.action, f.content, Closing(f.action), Blocks(parsed[1..]), acc);
    }
  }

  /** Parsing a rendered turn merges its fragments again, in order. */
  lemma ParseRender(lang: Language, isAlpha: char -> bool, parsed: seq<Fragment>)
    requires TagsHaveLetters(isAlpha, lang) && Renderable(lang, parsed)
    ensures Parse(lang, isAlpha, Render(parsed)) == Merge(lang, [], parsed)
  {
    SplitRender(lang, parsed);
    ParseBlocks(lang, isAlpha, parsed, []);
    var pieces := [""] + Blocks(parsed);
    assert !HasAlpha(isAlpha, "");
    assert pieces[1..] == Blocks(parsed);
  }

  /** Thoughts survive a render and re-parse one by one: a turn made only of
      think fragments is given back unchanged. */
  lemma ThinksRepeat(lang: Language, isAlpha: char -> bool, p: seq<Fragment>)
    requires TagsHaveLetters(isAlpha, lang)
    requires forall f :: f in p ==> f.action == Tag(lang, Think)
    requires forall f :: f in p ==> forall t :: t in SplitTags(lang) ==> !Contains(f.content, t)
    ensures Parse(lang, isAlpha, Render(p)) == p
  {
    assert Renderable(lang, p);
    ParseRender(lang, isAlpha, p);
    MergeThinks(lang, [], p);
    assert [] + p == p;
  }

  /** The respond and think tags, and the raise and think tags, differ. */
  lemma VisibleNotThink(lang: Language, f: Fragment)
    requires Visible(lang, f)
    ensures f.action != Tag(lang, Think) && f.action in OpenTags(lang)
  {
  }

  /** The visible part of a turn with tag-free visible contents renders
      faithfully. */
  lemma VisibleRenderable(lang: Language, parsed: seq<Fragment>)
    requires forall f :: f in parsed && Visible(lang, f) ==> forall t :: t in SplitTags(lang) ==> !Contains(f.content, t)
    ensures Renderable(lang, VisibleOnly(lang, parsed))
    ensures forall f :: f in VisibleOnly(lang, parsed) ==> f.action != Tag(lang, Think)
  {
    VisibleOnlyMembers(lang, parsed);
    forall f | f in VisibleOnly(lang, parsed) ensures f.action in OpenTags(lang) && f.action != Tag(lang, Think) {
      VisibleNotThink(lang, f);
    }
  }

  /** With at most one respond and one raise, every visible action occurs once. */
  lemma VisibleOnce(lang: Language, parsed: seq<Fragment>)
    requires Count(parsed, Tag(lang, Respond)) <= 1 && Count(parsed, Tag(lang, Raise)) <= 1
    ensures forall f :: f in VisibleOnly(lang, parsed) ==> Count([] + VisibleOnly(lang, parsed), f.action) <= 1
  {
    var v := VisibleOnly(lang, parsed);
    VisibleOnlyMembers(lang, parsed);
    assert [] + v == v;
    forall f | f in v ensures Count(v, f.action) <= 1 {
      CountVisibleOnly(lang, parsed, f.action);
    }
  }

  /** Re-parsing the opponent-visible text gives back exactly the respond and
      raise fragments it was built from, provided the turn has at most one of
      each and their contents contain no tag string. */
  lemma NoThoughtRoundTrip(lang: Language, isAlpha: char -> bool, parsed: seq<Fragment>)
    requires TagsHaveLetters(isAlpha, lang)
    requires Count(parsed, Tag(lang, Respond)) <= 1 && Count(parsed, Tag(lang, Raise)) <= 1
    requires forall f :: f in parsed && Visible(lang, f) ==> forall t :: t in SplitTags(lang) ==> !Contains(f.content, t)
    ensures Parse(lang, isAlpha, NoThought(lang, parsed)) == VisibleOnly(lang, parsed)
  {
    var v := VisibleOnly(lang, parsed);
    VisibleRenderable(lang, parsed);
    ParseRender(lang, isAlpha, v);
    VisibleOnce(lang, parsed);
    MergeFresh(lang, [], v);
    assert [] + v == v;
  }
}

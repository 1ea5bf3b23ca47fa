/** Routing rules: a stable sort by priority, and what it makes of any way of matching. */
module Routing {
  import opened PyValues

  datatype MatchType = Keyword | Regex | Default

  datatype Rule = Rule(
    name: string,
    target: string,
    matchType: MatchType,
    keywords: seq<string>,
    pattern: Option<string>,
    priority: int,
    reason: Option<string>,
    metadata: Dict)

  // ---- sorted_rules ----

  /** Insert behind every rule of the same or a better priority. */
  function Insert(rule: Rule, rules: seq<Rule>): seq<Rule> {
    if rules == [] || rule.priority < rules[0].priority then [rule] + rules
    else [rules[0]] + Insert(rule, rules[1..])
  }

  /** `sorted(rules, key=lambda r: r.priority)`. */
  function SortedRules(rules: seq<Rule>): seq<Rule> {
    if rules == [] then []
    else Insert(rules[|rules| - 1], SortedRules(rules[..|rules| - 1]))
  }

  ghost predicate InOrder(rules: seq<Rule>) {
    forall i, j :: 0 <= i < j < |rules| ==> rules[i].priority <= rules[j].priority
  }

  function Where(p: Rule -> bool, rules: seq<Rule>): seq<Rule> {
    if rules == [] then []
    else (if p(rules[0]) then [rules[0]] else []) + Where(p, rules[1..])
  }

  lemma {:induction false} InsertRearranges(rule: Rule, rules: seq<Rule>)
    ensures multiset(Insert(rule, rules)) == multiset(rules) + multiset{rule}
  {
    if rules != [] && rule.priority >= rules[0].priority {
      InsertRearranges(rule, rules[1..]);
      assert rules == [rules[0]] + rules[1..];
    }
  }

  lemma {:induction false} InsertKeepsOrder(rule: Rule, rules: seq<Rule>)
    requires InOrder(rules)
    ensures InOrder(Insert(rule, rules))
  {
    if rules != [] && rule.priority >= rules[0].priority {
      InsertKeepsOrder(rule, rules[1..]);
      InsertBounds(rule, rules[1..], rules[0].priority);
    }
  }

  lemma {:induction false} InsertBounds(rule: Rule, rules: seq<Rule>, low: int)
    requires rule.priority >= low && forall r :: r in rules ==> r.priority >= low
    ensures forall r :: r in Insert(rule, rules) ==> r.priority >= low
  {
    if rules != [] && rule.priority >= rules[0].priority {
      InsertBounds(rule, rules[1..], low);
    }
  }

  /** The output is the input rearranged, in ascending priority. */
  lemma {:induction false} SortedRulesSorts(rules: seq<Rule>)
    ensures InOrder(SortedRules(rules))
    ensures multiset(SortedRules(rules)) == multiset(rules)
  {
    if rules != [] {
      var front := rules[..|rules| - 1];
      SortedRulesSorts(front);
      assert rules == front + [rules[|rules| - 1]];
      InsertKeepsOrder(rules[|rules| - 1], SortedRules(front));
      InsertRearranges(rules[|rules| - 1], SortedRules(front));
    }
  }

  lemma {:induction false} WhereInsert(p: Rule -> bool, rule: Rule, rules: seq<Rule>)
    requires InOrder(rules)
    ensures Where(p, Insert(rule, rules)) ==
            if p(rule) then Insert(rule, Where(p, rules)) else Where(p, rules)
  {
    if rules == [] {
    } else if rule.priority < rules[0].priority {
      assert ([rule] + rules)[1..] == rules;
      WhereIsPart(p, rules);
      var matches := Where(p, rules);
      assert matches != [] ==> matches[0] in matches;
    } else {
      WhereInsert(p, rule, rules[1..]);
      assert Insert(rule, rules)[1..] == Insert(rule, rules[1..]);
      var matches := Where(p, rules[1..]);
      assert ([rules[0]] + matches)[1..] == matches;
      assert !p(rules[0]) ==> Where(p, rules) == matches;
    }
  }

  lemma {:induction false} WhereIsPart(p: Rule -> bool, rules: seq<Rule>)
    ensures forall r :: r in Where(p, rules) <==> r in rules && p(r)
  {
    if rules != [] {
      WhereIsPart(p, rules[1..]);
    }
  }

  lemma {:induction false} WhereConcat(p: Rule -> bool, a: seq<Rule>, b: seq<Rule>)
    ensures Where(p, a + b) == Where(p, a) + Where(p, b)
  {
    if a == [] {
      assert a + b == b;
    } else {
      assert (a + b)[1..] == a[1..] + b;
      WhereConcat(p, a[1..], b);
      var head := if p(a[0]) then [a[0]] else [];
      assert head + (Where(p, a[1..]) + Where(p, b)) == (head + Where(p, a[1..])) + Where(p, b);
    }
  }

  /** Sorting commutes with every way of matching: picking the matching rules out of the sorted list is
      sorting the matching rules, ties kept in declaration order. */
  lemma {:induction false} SortingCommutesWithMatching(p: Rule -> bool, rules: seq<Rule>)
    ensures Where(p, SortedRules(rules)) == SortedRules(Where(p, rules))
  {
    if rules != [] {
      var front, last := rules[..|rules| - 1], rules[|rules| - 1];
      SortingCommutesWithMatching(p, front);
      SortedRulesSorts(front);
      WhereInsert(p, last, SortedRules(front));
      assert rules == front + [last];
      WhereConcat(p, front, [last]);
      if p(last) {
        assert Where(p, rules)[..|Where(p, front)|] == Where(p, front);
      } else {
        assert Where(p, rules) == Where(p, front);
      }
    }
  }

  function AtPriority(x: int): Rule -> bool {
    (rule: Rule) => rule.priority == x
  }

  lemma {:induction false} OnePrioritySorted(rules: seq<Rule>, x: int)
    requires forall r :: r in rules ==> r.priority == x
    ensures SortedRules(rules) == rules
  {
    if rules != [] {
      var front, last := rules[..|rules| - 1], rules[|rules| - 1];
      OnePrioritySorted(front, x);
      InsertLast(last, front);
      assert rules == front + [last];
    }
  }

  lemma {:induction false} InsertLast(rule: Rule, rules: seq<Rule>)
    requires forall r :: r in rules ==> r.priority <= rule.priority
    ensures Insert(rule, rules) == rules + [rule]
  {
    if rules != [] {
      InsertLast(rule, rules[1..]);
    }
  }

  /** Rules of one priority keep their declaration order. */
  lemma {:induction false} SortedRulesStable(rules: seq<Rule>, x: int)
    ensures Where(AtPriority(x), SortedRules(rules)) == Where(AtPriority(x), rules)
  {
    SortingCommutesWithMatching(AtPriority(x), rules);
    WhereIsPart(AtPriority(x), rules);
    OnePrioritySorted(Where(AtPriority(x), rules), x);
  }

  lemma {:induction false} SameGroups(a: seq<Rule>, b: seq<Rule>)
    requires InOrder(a) && InOrder(b) && forall x :: Where(AtPriority(x), a) == Where(AtPriority(x), b)
    ensures a == b
  {
    if a != [] {
      NonEmptyTogether(a, b);
    }
    if b != [] {
      NonEmptyTogether(b, a);
      HeadGroup(a, b);
      HeadGroup(b, a);
      forall x ensures Where(AtPriority(x), a[1..]) == Where(AtPriority(x), b[1..]) {
        assert Where(AtPriority(x), a) == Where(AtPriority(x), b);
        var head := if a[0].priority == x then [a[0]] else [];
        assert (head + Where(AtPriority(x), a[1..]))[|head|..] == Where(AtPriority(x), a[1..]);
        assert (head + Where(AtPriority(x), b[1..]))[|head|..] == Where(AtPriority(x), b[1..]);
      }
      SameGroups(a[1..], b[1..]);
    }
  }

  lemma {:induction false} NonEmptyTogether(a: seq<Rule>, b: seq<Rule>)
    requires a != [] && forall x :: Where(AtPriority(x), a) == Where(AtPriority(x), b)
    ensures b != []
  {
    var x := a[0].priority;
    assert Where(AtPriority(x), a)[0] == a[0];
    assert Where(AtPriority(x), b) != [];
  }

  /** The first rule of a sorted list heads the other list too, if the groups are the same. */
  lemma {:induction false} HeadGroup(a: seq<Rule>, b: seq<Rule>)
    requires a != [] && b != [] && InOrder(b)
    requires Where(AtPriority(a[0].priority), a) == Where(AtPriority(a[0].priority), b)
    ensures b[0].priority <= a[0].priority
    ensures b[0].priority == a[0].priority ==> a[0] == b[0]
  {
    var x := a[0].priority;
    var group := Where(AtPriority(x), b);
    assert group[0] == a[0] && group[0] in group;
    WhereIsPart(AtPriority(x), b);
    var j :| 0 <= j < |b| && b[j] == group[0];
  }

  /** The result is the only stable sort: any list in ascending priority that keeps every priority's
      rules in declaration order is this one, whatever algorithm produced it. */
  lemma {:induction false} StableSortIsUnique(rules: seq<Rule>, out: seq<Rule>)
    requires InOrder(out) && forall x :: Where(AtPriority(x), out) == Where(AtPriority(x), rules)
    ensures out == SortedRules(rules)
  {
    SortedRulesSorts(rules);
    forall x ensures Where(AtPriority(x), out) == Where(AtPriority(x), SortedRules(rules)) {
      SortedRulesStable(rules, x);
    }
    SameGroups(out, SortedRules(rules));
  }

  ghost predicate SomeMatch(p: Rule -> bool, rules: seq<Rule>) {
    exists j :: 0 <= j < |rules| && p(rules[j])
  }

  /** Rule i outranks rule j: a lower priority number, or the same and declared no later. */
  ghost predicate Outranks(rules: seq<Rule>, i: nat, j: nat)
    requires i < |rules| && j < |rules|
  {
    rules[i].priority < rules[j].priority || (rules[i].priority == rules[j].priority && i <= j)
  }

  /** A matching rule that outranks every matching rule. */
  ghost predicate IsBest(p: Rule -> bool, rules: seq<Rule>, i: nat) {
    i < |rules| && p(rules[i]) && forall j :: 0 <= j < |rules| && p(rules[j]) ==> Outranks(rules, i, j)
  }

  /** A matching rule that every matching rule outranks. */
  ghost predicate IsWorst(p: Rule -> bool, rules: seq<Rule>, i: nat) {
    i < |rules| && p(rules[i]) && forall j :: 0 <= j < |rules| && p(rules[j]) ==> Outranks(rules, j, i)
  }

  lemma {:induction false} BestExtends(p: Rule -> bool, front: seq<Rule>, last: Rule, i: nat)
    requires IsBest(p, front, i)
    ensures IsBest(p, front + [last], if p(last) && last.priority < front[i].priority then |front| else i)
  {
    assert forall j :: 0 <= j < |front| ==> (front + [last])[j] == front[j];
    forall j | 0 <= j < |front| && p(front[j]) ensures Outranks(front, i, j) {}
  }

  lemma {:induction false} WorstExtends(p: Rule -> bool, front: seq<Rule>, last: Rule, i: nat)
    requires IsWorst(p, front, i)
    ensures IsWorst(p, front + [last], if p(last) && last.priority >= front[i].priority then |front| else i)
  {
    assert forall j :: 0 <= j < |front| ==> (front + [last])[j] == front[j];
    forall j | 0 <= j < |front| && p(front[j]) ensures Outranks(front, j, i) {}
  }

  /** Declaring one more rule. */
  lemma {:induction false} SortedSnoc(p: Rule -> bool, front: seq<Rule>, last: Rule)
    ensures var matches := Where(p, SortedRules(front));
            && InOrder(matches)
            && Where(p, SortedRules(front + [last])) == if p(last) then Insert(last, matches) else matches
  {
    assert (front + [last])[..|front|] == front;
    SortedRulesSorts(front);
    WhereInsert(p, last, SortedRules(front));
    SortingCommutesWithMatching(p, front);
    SortedRulesSorts(Where(p, front));
  }

  lemma {:induction false} InsertEnds(rule: Rule, rules: seq<Rule>)
    requires InOrder(rules) && rules != []
    ensures var r := Insert(rule, rules);
            && r != []
            && r[0] == (if rule.priority < rules[0].priority then rule else rules[0])
            && r[|r| - 1] == (if rule.priority < rules[|rules| - 1].priority then rules[|rules| - 1] else rule)
  {
    if |rules| > 1 && rule.priority >= rules[0].priority {
      InsertEnds(rule, rules[1..]);
    }
  }

  /** The ends of a sorted match list when one more rule is declared. */
  lemma {:induction false} ExtremesExtend(p: Rule -> bool, front: seq<Rule>, last: Rule,
                                          matches: seq<Rule>, b: nat, w: nat)
    returns (best: nat, worst: nat)
    requires IsBest(p, front, b) && IsWorst(p, front, w) && InOrder(matches)
    requires matches != [] && matches[0] == front[b] && matches[|matches| - 1] == front[w]
    ensures var rules := front + [last];
            var now := if p(last) then Insert(last, matches) else matches;
            && IsBest(p, rules, best) && IsWorst(p, rules, worst)
            && now != [] && now[0] == rules[best] && now[|now| - 1] == rules[worst]
  {
    BestExtends(p, front, last, b);
    WorstExtends(p, front, last, w);
    InsertEnds(last, matches);
    best := if p(last) && last.priority < front[b].priority then |front| else b;
    worst := if p(last) && last.priority >= front[w].priority then |front| else w;
  }

  lemma {:induction false} OnlyLast(p: Rule -> bool, front: seq<Rule>, last: Rule)
    requires !SomeMatch(p, front) && SomeMatch(p, front + [last])
    ensures p(last) && IsBest(p, front + [last], |front|) && IsWorst(p, front + [last], |front|)
  {
    var rules := front + [last];
    assert forall j :: 0 <= j < |front| ==> rules[j] == front[j];
  }

  /** The first match in sorted order is rules[best], which outranks every other match, and the last one is
      rules[worst], which every other match outranks. */
  ghost predicate Extremes(p: Rule -> bool, rules: seq<Rule>, best: nat, worst: nat) {
    var matches := Where(p, SortedRules(rules));
    && IsBest(p, rules, best) && IsWorst(p, rules, worst)
    && matches != [] && matches[0] == rules[best] && matches[|matches| - 1] == rules[worst]
  }

  lemma {:induction false} FirstMatchExtremes(p: Rule -> bool, front: seq<Rule>, last: Rule)
    requires !SomeMatch(p, front) && SomeMatch(p, front + [last])
    ensures Extremes(p, front + [last], |front|, |front|)
  {
    OnlyLast(p, front, last);
    NoMatch(p, front);
    SortedSnoc(p, front, last);
  }

  lemma {:induction false} NextExtremes(p: Rule -> bool, front: seq<Rule>, last: Rule, b: nat, w: nat)
    returns (best: nat, worst: nat)
    requires Extremes(p, front, b, w)
    ensures Extremes(p, front + [last], best, worst)
  {
    SortedSnoc(p, front, last);
    best, worst := ExtremesExtend(p, front, last, Where(p, SortedRules(front)), b, w);
  }

  /** The ends of the sorted matches are the best and the worst ranked match, if there is any. */
  lemma {:induction false} EndsAreExtreme(p: Rule -> bool, rules: seq<Rule>) returns (best: nat, worst: nat)
    requires SomeMatch(p, rules)
    ensures Extremes(p, rules, best, worst)
    decreases |rules|
  {
    var front, last := rules[..|rules| - 1], rules[|rules| - 1];
    assert rules == front + [last];
    if SomeMatch(p, front) {
      best, worst := EndsAreExtreme(p, front);
      best, worst := NextExtremes(p, front, last, best, worst);
    } else {
      best, worst := |front|, |front|;
      FirstMatchExtremes(p, front, last);
    }
  }

  lemma {:induction false} NoMatch(p: Rule -> bool, rules: seq<Rule>)
    ensures SomeMatch(p, rules) <==> Where(p, SortedRules(rules)) != []
  {
    SortedRulesSorts(rules);
    WhereIsPart(p, SortedRules(rules));
    var matches := Where(p, SortedRules(rules));
    forall r ensures r in SortedRules(rules) <==> r in rules {
      assert r in multiset(SortedRules(rules)) <==> r in multiset(rules);
    }
    if matches != [] {
      assert matches[0] in matches;
    }
    if SomeMatch(p, rules) {
      var j :| 0 <= j < |rules| && p(rules[j]);
      assert rules[j] in matches;
    }
  }

  // ---- route_one and route_many ----

  /** Lower-casing, regular-expression search (None is an invalid pattern), and how a keyword list and a
      match type print, abstract. */
  datatype TextOps = TextOps(
    lower: string -> string,
    search: (string, string) -> Option<bool>,
    listText: seq<string> -> string,
    typeText: MatchType -> string)

  predicate Contains(text: string, part: string) {
    exists i :: 0 <= i <= |text| - |part| && part <= Rest(text, i)
  }

  function Rest(text: string, i: nat): string
    requires i <= |text|
  {
    text[i..]
  }

  /** `_match_regex`: no pattern and an invalid one match nothing. */
  predicate MatchRegex(ops: TextOps, input: string, pattern: Option<string>) {
    pattern.Some? && pattern.value != "" && ops.search(pattern.value, input) == Some(true)
  }

  /** `in` on strings: the text can be cut so that the part stands in the middle. */
  lemma ContainsIff(text: string, part: string)
    ensures Contains(text, part) <==> exists a, b :: text == a + part + b
  {
    if Contains(text, part) {
      var i :| 0 <= i <= |text| - |part| && part <= Rest(text, i);
      assert text == text[..i] + part + Rest(text, i)[|part|..];
    }
    if a, b :| text == a + part + b {
      assert part <= Rest(text, |a|) by {
        assert text[|a|..] == part + b;
      }
    }
  }

  predicate Hits(ops: TextOps, rule: Rule, input: string) {
    match rule.matchType
    case Keyword => exists k :: 0 <= k < |rule.keywords| && Contains(ops.lower(input), ops.lower(rule.keywords[k]))
    case Regex => MatchRegex(ops, input, rule.pattern)
    case Default => false
  }

  datatype Decision = Decision(target: string, ruleName: string, reason: string, metadata: Dict)

  /** `rule.reason or ...`. */
  function Because(rule: Rule, otherwise: string): string {
    if rule.reason.Some? && rule.reason.value != "" then rule.reason.value else otherwise
  }

  const FALLBACK := "default fallback"

  function PatternText(pattern: Option<string>): string {
    match pattern case Some(text) => text case None => "None"
  }

  function DecidedBy(rule: Rule, otherwise: string): Decision {
    Decision(rule.target, rule.name, Because(rule, otherwise), rule.metadata)
  }

  function DecisionOf(ops: TextOps, rule: Rule): Decision {
    DecidedBy(rule,
      match rule.matchType
      case Keyword => "matched keywords: " + ops.listText(rule.keywords)
      case Regex => "matched regex: " + PatternText(rule.pattern)
      case Default => FALLBACK)
  }

  function HitRule(ops: TextOps, input: string, allowed: seq<string>): Rule -> bool {
    (rule: Rule) => rule.target in allowed && Hits(ops, rule, input)
  }

  function DefaultRule(allowed: seq<string>): Rule -> bool {
    (rule: Rule) => rule.target in allowed && rule.matchType.Default?
  }

  /** A rule is tried only for an allowed target, and then hits by a lower-cased keyword found in the
      lower-cased input, or by a non-empty pattern that the search finds in the input as it is. */
  lemma HitMeans(ops: TextOps, input: string, allowed: seq<string>, rule: Rule)
    ensures HitRule(ops, input, allowed)(rule) <==>
            rule.target in allowed
            && ((rule.matchType == Keyword
                 && exists word, a, b :: word in rule.keywords && ops.lower(input) == a + ops.lower(word) + b)
                || (rule.matchType == Regex
                    && exists text ::
                         text != "" && rule.pattern == Some(text) && ops.search(text, input) == Some(true)))
    ensures DefaultRule(allowed)(rule) <==> rule.target in allowed && rule.matchType == Default
  {
    forall word ensures Contains(ops.lower(input), ops.lower(word)) <==>
                        exists a, b :: ops.lower(input) == a + ops.lower(word) + b
    {
      ContainsIff(ops.lower(input), ops.lower(word));
    }
    if rule.matchType == Keyword {
      if word, a, b :| word in rule.keywords && ops.lower(input) == a + ops.lower(word) + b {
        assert Contains(ops.lower(input), ops.lower(word));
      }
    }
  }

  /** What a decision says of the rule it was taken for. */
  ghost predicate Speaks(d: Decision, rule: Rule, otherwise: string) {
    && d.target == rule.target && d.ruleName == rule.name && d.metadata == rule.metadata
    && if rule.reason in {None, Some("")} then d.reason == otherwise else Some(d.reason) == rule.reason
  }

  function LastDecision(ops: TextOps, rules: seq<Rule>): Option<Decision> {
    if rules == [] then None else Some(DecisionOf(ops, rules[|rules| - 1]))
  }

  function FirstDecision(ops: TextOps, rules: seq<Rule>): Option<Decision> {
    if rules == [] then None else Some(DecisionOf(ops, rules[0]))
  }

  /** The first allowed rule that hits, in priority order; failing that, the last allowed default. */
  function RouteOf(ops: TextOps, rules: seq<Rule>, input: string, allowed: seq<string>): Option<Decision> {
    var hits := Where(HitRule(ops, input, allowed), SortedRules(rules));
    if hits != [] then FirstDecision(ops, hits) else LastDecision(ops, Where(DefaultRule(allowed), SortedRules(rules)))
  }

  /** A decision of route_one for a rule: its target, name and metadata, and its own reason or the words for
      the way it matched. */
  ghost predicate Answers(ops: TextOps, d: Decision, rule: Rule) {
    match rule.matchType
    case Keyword => Speaks(d, rule, "matched keywords: " + ops.listText(rule.keywords))
    case Regex => exists text :: rule.pattern == Some(text) && Speaks(d, rule, "matched regex: " + text)
    case Default => Speaks(d, rule, "default fallback")
  }

  /** Which rule route_one picks: among the allowed rules that hit, the one that outranks all others;
      if none hits, among the allowed defaults the one that all others outrank; if there is neither, none.
      And what the decision for it says. */
  lemma RouteIsExtreme(ops: TextOps, rules: seq<Rule>, input: string, allowed: seq<string>) returns (i: nat)
    ensures var hit, fallback := HitRule(ops, input, allowed), DefaultRule(allowed);
            var route := RouteOf(ops, rules, input, allowed);
            if SomeMatch(hit, rules)
            then IsBest(hit, rules, i) && route.Some? && Answers(ops, route.value, rules[i])
            else if SomeMatch(fallback, rules)
            then IsWorst(fallback, rules, i) && route.Some? && Answers(ops, route.value, rules[i])
            else route.None?
  {
    var hit, fallback := HitRule(ops, input, allowed), DefaultRule(allowed);
    NoMatch(hit, rules);
    NoMatch(fallback, rules);
    i := 0;
    if Where(hit, SortedRules(rules)) != [] {
      var best, _ := EndsAreExtreme(hit, rules);
      i := best;
      DecisionAnswers(ops, rules[i]);
    } else if Where(fallback, SortedRules(rules)) != [] {
      var _, worst := EndsAreExtreme(fallback, rules);
      i := worst;
      DecisionAnswers(ops, rules[i]);
    }
  }

  lemma DecisionAnswers(ops: TextOps, rule: Rule)
    requires rule.matchType.Regex? ==> rule.pattern.Some?
    ensures Answers(ops, DecisionOf(ops, rule), rule)
  {}

  lemma {:induction false} WhereSnoc(p: Rule -> bool, rules: seq<Rule>, n: nat)
    requires n < |rules|
    ensures Where(p, rules[..n + 1]) == Where(p, rules[..n]) + (if p(rules[n]) then [rules[n]] else [])
  {
    var last := [rules[n]];
    assert rules[..n + 1] == rules[..n] + last;
    WhereConcat(p, rules[..n], last);
    assert last[1..] == [];
  }

  lemma {:induction false} WhereStarts(p: Rule -> bool, rules: seq<Rule>, n: nat)
    requires n <= |rules|
    ensures Where(p, rules[..n]) <= Where(p, rules)
  {
    assert rules == rules[..n] + rules[n..];
    WhereConcat(p, rules[..n], rules[n..]);
  }

  method MatchKeyword(ops: TextOps, inputLower: string, keywords: seq<string>) returns (found: bool)
    ensures found <==> exists k :: 0 <= k < |keywords| && Contains(inputLower, ops.lower(keywords[k]))
  {
    for n := 0 to |keywords|
      invariant forall k :: 0 <= k < n ==> !Contains(inputLower, ops.lower(keywords[k]))
    {
      if Contains(inputLower, ops.lower(keywords[n])) {
        return true;
      }
    }
    found := false;
  }

  /** What looking at the next rule of the sorted list settles. */
  lemma {:induction false} NextRule(ops: TextOps, rules: seq<Rule>, input: string, allowed: seq<string>, n: nat)
    requires n < |SortedRules(rules)|
    requires Where(HitRule(ops, input, allowed), SortedRules(rules)[..n]) == []
    ensures var sorted := SortedRules(rules);
            && (HitRule(ops, input, allowed)(sorted[n]) ==>
                  RouteOf(ops, rules, input, allowed) == Some(DecisionOf(ops, sorted[n])))
            && (!HitRule(ops, input, allowed)(sorted[n]) ==> Where(HitRule(ops, input, allowed), sorted[..n + 1]) == [])
            && LastDecision(ops, Where(DefaultRule(allowed), sorted[..n + 1])) ==
                 if DefaultRule(allowed)(sorted[n]) then Some(DecisionOf(ops, sorted[n]))
                 else LastDecision(ops, Where(DefaultRule(allowed), sorted[..n]))
  {
    WhereSnoc(HitRule(ops, input, allowed), SortedRules(rules), n);
    WhereStarts(HitRule(ops, input, allowed), SortedRules(rules), n + 1);
    WhereSnoc(DefaultRule(allowed), SortedRules(rules), n);
  }

  method RouteOne(ops: TextOps, rules: seq<Rule>, input: string, allowed: seq<string>) returns (d: Option<Decision>)
    ensures d == RouteOf(ops, rules, input, allowed)
    ensures d.Some? ==> d.value.target in allowed && exists i :: 0 <= i < |rules| && Answers(ops, d.value, rules[i])
  {
    var i := RouteIsExtreme(ops, rules, input, allowed);
    var sorted := SortedRules(rules);
    var inputLower := ops.lower(input);
    var fallback: Option<Decision> := None;
    for n := 0 to |sorted|
      invariant Where(HitRule(ops, input, allowed), sorted[..n]) == []
      invariant fallback == LastDecision(ops, Where(DefaultRule(allowed), sorted[..n]))
    {
      var rule := sorted[n];
      NextRule(ops, rules, input, allowed, n);
      if rule.target in allowed {
        if rule.matchType.Default? {
          fallback := Some(Decision(rule.target, rule.name, Because(rule, FALLBACK), rule.metadata));
        } else if rule.matchType.Keyword? {
          var matched := MatchKeyword(ops, inputLower, rule.keywords);
          if matched {
            var why := "matched keywords: " + ops.listText(rule.keywords);
            return Some(Decision(rule.target, rule.name, Because(rule, why), rule.metadata));
          }
        } else if MatchRegex(ops, input, rule.pattern) {
          var why := "matched regex: " + PatternText(rule.pattern);
          return Some(Decision(rule.target, rule.name, Because(rule, why), rule.metadata));
        }
      }
    }
    assert sorted[..|sorted|] == sorted;
    d := fallback;
  }

  function ManyOf(ops: TextOps, rules: seq<Rule>): seq<Decision> {
    seq(|rules|, k requires 0 <= k < |rules| =>
      DecidedBy(rules[k], "matched " + ops.typeText(rules[k].matchType)))
  }

  /** One decision for each rule, in order, with the rule's own reason or the match type's. */
  ghost predicate SpeakInTurn(ops: TextOps, ds: seq<Decision>, rules: seq<Rule>) {
    |ds| == |rules|
    && forall k :: 0 <= k < |ds| ==> Speaks(ds[k], rules[k], "matched " + ops.typeText(rules[k].matchType))
  }

  lemma {:induction false} ManySpeak(ops: TextOps, input: string, allowed: seq<string>, rules: seq<Rule>)
    ensures var hits := Where(HitRule(ops, input, allowed), rules);
            && SpeakInTurn(ops, ManyOf(ops, hits), hits)
            && forall d :: d in ManyOf(ops, hits) ==> d.target in allowed
  {
    var hits := Where(HitRule(ops, input, allowed), rules);
    WhereIsPart(HitRule(ops, input, allowed), rules);
    var ds := ManyOf(ops, hits);
    forall k | 0 <= k < |hits| ensures ds[k].target in allowed {
      assert hits[k] in hits;
      assert HitRule(ops, input, allowed)(hits[k]);
      assert ds[k] == DecidedBy(hits[k], "matched " + ops.typeText(hits[k].matchType));
    }
  }

  /** Every allowed non-default rule that hits, in priority order. */
  method RouteMany(ops: TextOps, rules: seq<Rule>, input: string, allowed: seq<string>) returns (ds: seq<Decision>)
    ensures ds == ManyOf(ops, SortedRules(Where(HitRule(ops, input, allowed), rules)))
    ensures SpeakInTurn(ops, ds, SortedRules(Where(HitRule(ops, input, allowed), rules)))
    ensures forall d :: d in ds ==> d.target in allowed
  {
    var sorted := SortedRules(rules);
    var inputLower := ops.lower(input);
    ds := [];
    for n := 0 to |sorted|
      invariant ds == ManyOf(ops, Where(HitRule(ops, input, allowed), sorted[..n]))
    {
      var rule := sorted[n];
      WhereSnoc(HitRule(ops, input, allowed), sorted, n);
      var matched := false;
      if rule.target in allowed && rule.matchType.Keyword? {
        matched := MatchKeyword(ops, inputLower, rule.keywords);
      } else if rule.target in allowed && rule.matchType.Regex? {
        matched := MatchRegex(ops, input, rule.pattern);
      }
      if matched {
        var why := "matched " + ops.typeText(rule.matchType);
        ds := ds + [Decision(rule.target, rule.name, Because(rule, why), rule.metadata)];
      }
    }
    assert sorted[..|sorted|] == sorted;
    SortingCommutesWithMatching(HitRule(ops, input, allowed), rules);
    ManySpeak(ops, input, allowed, sorted);
  }

  /** The route documented for route_one: when nothing hits, the first allowed default. */
  function DocumentedRoute(ops: TextOps, rules: seq<Rule>, input: string, allowed: seq<string>): Option<Decision> {
    var hits := Where(HitRule(ops, input, allowed), SortedRules(rules));
    if hits != [] then FirstDecision(ops, hits) else FirstDecision(ops, Where(DefaultRule(allowed), SortedRules(rules)))
  }

  /** Falling back to either of two default rules comes to the same: target, name, metadata, and the reason
      it is given or, without one, the fallback text. */
  predicate SameFallback(a: Rule, b: Rule) {
    a.target == b.target && a.name == b.name && a.metadata == b.metadata && Because(a, FALLBACK) == Because(b, FALLBACK)
  }

  ghost predicate AtMostOne(p: Rule -> bool, rules: seq<Rule>) {
    forall i, j :: 0 <= i < j < |rules| && p(rules[i]) ==> !p(rules[j])
  }

  /** route_one agrees with its documentation exactly when some allowed rule hits, or no default is
      allowed, or the allowed default that outranks all others and the one that all others outrank have
      the same target, name, reason and metadata; in particular whenever at most one default is allowed. */
  lemma DocumentedRouteIff(ops: TextOps, rules: seq<Rule>, input: string, allowed: seq<string>)
    returns (best: nat, worst: nat)
    ensures var hit, fallback := HitRule(ops, input, allowed), DefaultRule(allowed);
            var agrees := RouteOf(ops, rules, input, allowed) == DocumentedRoute(ops, rules, input, allowed);
            var someHit := SomeMatch(hit, rules);
            var someDefault := SomeMatch(fallback, rules);
            && (someHit || !someDefault ==> agrees)
            && (!someHit && someDefault
                ==> IsBest(fallback, rules, best) && IsWorst(fallback, rules, worst)
                    && (agrees <==> SameFallback(rules[best], rules[worst])))
            && (AtMostOne(fallback, rules) ==> agrees)
  {
    var hit, fallback := HitRule(ops, input, allowed), DefaultRule(allowed);
    NoMatch(hit, rules);
    NoMatch(fallback, rules);
    best, worst := 0, 0;
    if Where(hit, SortedRules(rules)) == [] && Where(fallback, SortedRules(rules)) != [] {
      best, worst := EndsAreExtreme(fallback, rules);
    }
  }

  /** Two defaults, nothing else: the code falls back to the lower-ranked one. */
  lemma SecondDefaultWins(ops: TextOps)
    ensures var a := Rule("a", "triage", Default, [], None, 1, None, map[]);
            var b := Rule("b", "billing", Default, [], None, 2, None, map[]);
            && RouteOf(ops, [a, b], "hello", ["triage", "billing"]) ==
               Some(Decision("billing", "b", "default fallback", map[]))
            && DocumentedRoute(ops, [a, b], "hello", ["triage", "billing"]) ==
               Some(Decision("triage", "a", "default fallback", map[]))
  {
    var a := Rule("a", "triage", Default, [], None, 1, None, map[]);
    var b := Rule("b", "billing", Default, [], None, 2, None, map[]);
    assert [a, b][..1] == [a] && [a][..0] == [];
    assert SortedRules([a]) == Insert(a, []) == [a];
    assert Insert(b, [a]) == [a] + Insert(b, []);
    assert SortedRules([a, b]) == [a, b];
    var hit, fallback := HitRule(ops, "hello", ["triage", "billing"]), DefaultRule(["triage", "billing"]);
    assert [a, b][1..] == [b];
    assert Where(hit, [b]) == [] && Where(fallback, [b]) == [b];
    assert Where(hit, [a, b]) == [] && Where(fallback, [a, b]) == [a, b];
  }
}

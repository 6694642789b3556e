/**
  The decisions inside three of the command-line commands of `EST`: which
  log lines `show_logs` prints, which scenario `run_scenario` picks for an
  id, and how `list_scenarios` groups the scenarios by category.
 */
module Commands {
  import opened Wrappers
  import opened Records
  import opened Tally

  // ---------------------------------------------------------------------
  // `show_logs`

  /** Python's `s[start:]` for any integer `start`: a negative start counts
      from the end, and both are clamped to the sequence. */
  function SliceFrom<T>(s: seq<T>, start: int): (r: seq<T>)
    ensures |r| <= |s| && r == s[|s| - |r|..]
    ensures start >= 0 ==> |r| == if start <= |s| then |s| - start else 0
    ensures start < 0 ==> |r| == if -start <= |s| then -start else |s|
  {
    var from := if start < 0 then (if -start <= |s| then |s| + start else 0)
                else (if start <= |s| then start else |s|);
    s[from..]
  }

  /** `log_lines[-lines:] if len(log_lines) > lines else log_lines`. */
  function RecentLogs<T>(log: seq<T>, lines: int): (r: seq<T>)
    ensures |r| <= |log| && r == log[|log| - |r|..]
    ensures 0 < lines < |log| ==> |r| == lines
    ensures lines >= |log| ==> r == log
    ensures lines == 0 ==> r == log
    ensures lines < 0 ==> |r| == if -lines <= |log| then |log| + lines else 0
  {
    if |log| > lines then SliceFrom(log, -lines) else log
  }

  /** The selection is always the last `min(lines, len)` lines for a
      positive count, and the whole log for a count of zero, a case where
      the printed heading promises "Last 0 entries". */
  lemma RecentLogsIsTail<T>(log: seq<T>, lines: int)
    requires lines >= 0
    ensures var r := RecentLogs(log, lines);
            && (lines > 0 ==> r == log[|log| - (if lines < |log| then lines else |log|)..])
            && (lines == 0 ==> |r| == |log|)
  {
  }

  // ---------------------------------------------------------------------
  // `run_scenario`

  /** `self.scenarios[scenario_id - 1]`, or nothing where Python raises
      `IndexError`: an index counts from the end when it is negative. */
  function ScenarioAt(scenarios: seq<EmailScenario>, id: int): (r: Option<EmailScenario>)
    ensures r.None? <==> id > |scenarios| || id < 1 - |scenarios|
    ensures 1 <= id <= |scenarios| ==> r == Some(scenarios[id - 1])
    ensures 1 - |scenarios| <= id <= 0 ==> r == Some(scenarios[|scenarios| - 1 + id])
  {
    var n := |scenarios|;
    var index := id - 1;
    if -n <= index < 0 then Some(scenarios[n + index])
    else if 0 <= index < n then Some(scenarios[index])
    else None
  }

  /** The hint printed on rejection says the ids are `1-n`, but id 0 picks
      the last scenario and the negative ids down to `1 - n` pick others. */
  lemma ScenarioZeroIsLast(scenarios: seq<EmailScenario>)
    requires scenarios != []
    ensures ScenarioAt(scenarios, 0) == Some(scenarios[|scenarios| - 1])
    ensures ScenarioAt(scenarios, 0) != None
  {
  }

  /** Every accepted id picks a scenario of the list, and the scenario at
      position `k` is picked both by its 1-based position `k + 1` and by
      `k + 1 - n`. */
  lemma ScenarioIds(scenarios: seq<EmailScenario>, id: int, k: nat)
    requires k < |scenarios|
    ensures ScenarioAt(scenarios, k + 1) == Some(scenarios[k])
    ensures ScenarioAt(scenarios, k + 1 - |scenarios|) == Some(scenarios[k])
    ensures ScenarioAt(scenarios, id).Some? ==> ScenarioAt(scenarios, id).value in scenarios
  {
  }

  // ---------------------------------------------------------------------
  // `list_scenarios`

  /** One entry of the `categories` dict: the category and its
      `(1-based position, scenario)` pairs. */
  datatype Group = Group(category: string, members: seq<(nat, EmailScenario)>)

  function CategoryOf(s: EmailScenario): string { s.category }

  /** The numbered scenarios of category `c`, in list order. */
  function Members(scenarios: seq<EmailScenario>, c: string): (m: seq<(nat, EmailScenario)>)
    ensures forall k :: 0 <= k < |m| ==>
              1 <= m[k].0 <= |scenarios| && m[k].1 == scenarios[m[k].0 - 1] && m[k].1.category == c
    ensures forall a, b :: 0 <= a < b < |m| ==> m[a].0 < m[b].0
    decreases |scenarios|
  {
    if scenarios == [] then []
    else
      var n := |scenarios|;
      var prefix := scenarios[..n - 1];
      assert forall k :: 0 <= k < n - 1 ==> prefix[k] == scenarios[k];
      Members(prefix, c) + (if scenarios[n - 1].category == c then [(n, scenarios[n - 1])] else [])
  }

  /** The `categories` dict `list_scenarios` builds: categories in order of
      first appearance, each with its numbered scenarios. */
  function Grouped(scenarios: seq<EmailScenario>): seq<Group> {
    var cs := Keys(scenarios, CategoryOf);
    seq(|cs|, j requires 0 <= j < |cs| => Group(cs[j], Members(scenarios, cs[j])))
  }

  function CategoriesOf(groups: seq<Group>): (cs: seq<string>)
    ensures |cs| == |groups|
    ensures forall j :: 0 <= j < |groups| ==> cs[j] == groups[j].category
  {
    seq(|groups|, j requires 0 <= j < |groups| => groups[j].category)
  }

  /** A scenario is listed under a category exactly when it belongs to it. */
  lemma {:induction false} MembersExactly(scenarios: seq<EmailScenario>, c: string, i: nat)
    requires i < |scenarios|
    ensures (i + 1, scenarios[i]) in Members(scenarios, c) <==> scenarios[i].category == c
    decreases |scenarios|
  {
    var n := |scenarios|;
    var prefix, last := scenarios[..n - 1], scenarios[n - 1];
    assert scenarios == prefix + [last];
    MembersSnoc(prefix, last, c);
    var m := Members(prefix, c);
    var tail: seq<(nat, EmailScenario)> := if last.category == c then [(n, last)] else [];
    assert Members(scenarios, c) == m + tail;
    if i < n - 1 {
      MembersExactly(prefix, c, i);
      assert prefix[i] == scenarios[i];
      assert (i + 1, scenarios[i]) !in tail;
    } else {
      assert forall k :: 0 <= k < |m| ==> m[k].0 < n;
    }
  }

  /** The grouping is a partition: categories are listed once each, every
      scenario is listed under its own category and no other, and every
      listed pair is a scenario with its 1-based position. */
  lemma GroupedPartitions(scenarios: seq<EmailScenario>)
    ensures var g := Grouped(scenarios);
            && Distinct(CategoriesOf(g))
            && (forall i :: 0 <= i < |scenarios| ==> scenarios[i].category in CategoriesOf(g))
            && (forall i, j :: 0 <= i < |scenarios| && 0 <= j < |g| ==>
                  ((i + 1, scenarios[i]) in g[j].members <==> g[j].category == scenarios[i].category))
            && (forall j, k :: 0 <= j < |g| && 0 <= k < |g[j].members| ==>
                  var (p, s) := g[j].members[k];
                  1 <= p <= |scenarios| && s == scenarios[p - 1] && s.category == g[j].category)
  {
    var g := Grouped(scenarios);
    var cs := Keys(scenarios, CategoryOf);
    assert CategoriesOf(g) == cs;
    forall i, j | 0 <= i < |scenarios| && 0 <= j < |g|
      ensures (i + 1, scenarios[i]) in g[j].members <==> g[j].category == scenarios[i].category
    {
      assert g[j] == Group(cs[j], Members(scenarios, cs[j]));
      MembersExactly(scenarios, cs[j], i);
    }
    forall j, k | 0 <= j < |g| && 0 <= k < |g[j].members|
      ensures var (p, s) := g[j].members[k];
              1 <= p <= |scenarios| && s == scenarios[p - 1] && s.category == g[j].category
    {
      assert g[j] == Group(cs[j], Members(scenarios, cs[j]));
    }
  }

  /** One more scenario: its numbered pair is appended to its own
      category and the other categories keep their members. */
  lemma MembersSnoc(xs: seq<EmailScenario>, x: EmailScenario, c: string)
    ensures Members(xs + [x], c) == Members(xs, c) + (if x.category == c then [(|xs| + 1, x)] else [])
  {
    var ys := xs + [x];
    assert ys[..|ys| - 1] == xs;
  }

  /** One more scenario of a category not seen before opens a new group at
      the end; the other groups are unchanged. */
  lemma GroupedSnocNew(xs: seq<EmailScenario>, x: EmailScenario)
    requires x.category !in Keys(xs, CategoryOf)
    ensures |Grouped(xs + [x])| == |Grouped(xs)| + 1
    ensures Grouped(xs + [x])[..|Grouped(xs)|] == Grouped(xs)
    ensures Grouped(xs + [x])[|Grouped(xs)|] == Group(x.category, [(|xs| + 1, x)])
  {
    var ys := xs + [x];
    assert ys[..|ys| - 1] == xs;
    var cs := Keys(xs, CategoryOf);
    var g, g' := Grouped(xs), Grouped(ys);
    forall j | 0 <= j < |cs| ensures g'[j] == g[j] {
      MembersSnoc(xs, x, cs[j]);
    }
    MembersSnoc(xs, x, x.category);
  }

  /** One more scenario of a known category is appended to that group in
      place; the other groups are unchanged. */
  lemma GroupedSnocKnown(xs: seq<EmailScenario>, x: EmailScenario, at: nat)
    requires at < |Keys(xs, CategoryOf)| && Keys(xs, CategoryOf)[at] == x.category
    ensures |Grouped(xs + [x])| == |Grouped(xs)| && at < |Grouped(xs)|
    ensures forall j :: 0 <= j < |Grouped(xs)| && j != at ==> Grouped(xs + [x])[j] == Grouped(xs)[j]
    ensures Grouped(xs + [x])[at] == Group(x.category, Grouped(xs)[at].members + [(|xs| + 1, x)])
  {
    var ys := xs + [x];
    assert ys[..|ys| - 1] == xs;
    var cs := Keys(xs, CategoryOf);
    assert Keys(ys, CategoryOf) == cs;
    var g, g' := Grouped(xs), Grouped(ys);
    forall j | 0 <= j < |cs| && j != at ensures g'[j] == g[j] {
      MembersSnoc(xs, x, cs[j]);
    }
    MembersSnoc(xs, x, x.category);
  }

  /** The categories of the grouping are the keys in order of first
      appearance. */
  lemma CategoriesOfGrouped(xs: seq<EmailScenario>)
    ensures CategoriesOf(Grouped(xs)) == Keys(xs, CategoryOf)
  {
  }

  /** The loop of `list_scenarios` that fills the `categories` dict. */
  method GroupByCategory(scenarios: seq<EmailScenario>) returns (groups: seq<Group>)
    ensures groups == Grouped(scenarios)
  {
    groups := [];
    for i := 0 to |scenarios|
      invariant groups == Grouped(scenarios[..i])
    {
      var scenario := scenarios[i];
      ghost var xs := scenarios[..i];
      assert |xs| == i;
      assert scenarios[..i + 1] == xs + [scenario];
      CategoriesOfGrouped(xs);
      var at := IndexOf(CategoriesOf(groups), scenario.category);
      if at == |groups| {
        GroupedSnocNew(xs, scenario);
        groups := groups + [Group(scenario.category, [(i + 1, scenario)])];
      } else {
        GroupedSnocKnown(xs, scenario, at);
        ghost var g' := Grouped(xs + [scenario]);
        groups := groups[at := Group(scenario.category, groups[at].members + [(i + 1, scenario)])];
        assert forall j :: 0 <= j < |groups| ==> groups[j] == g'[j];
      }
    }
    assert scenarios[..|scenarios|] == scenarios;
  }
}

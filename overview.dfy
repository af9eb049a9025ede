/** The list logic of the overview screen (MainActivity.kt, `OverviewScreen`, and
    the edit route of `ExpenseApp`): the grand total, the per-category totals that
    feed the chart, the description preview and the index guards. */
module Overview {
  import opened Wrappers
  import opened Data
  import opened PieChart

  // ---------------------------------------------------------------------------
  // The grand total

  /** `expenses.sumOf { it.amount }`, summed from the front of the list. */
  function Total(es: seq<Expense>): real
  {
    if es == [] then 0.0 else Total(es[..|es| - 1]) + es[|es| - 1].amount
  }

  /** A list of records of positive amount has a positive total when it is not
      empty. */
  lemma {:induction false} TotalPositive(es: seq<Expense>)
    requires |es| > 0
    requires forall i :: 0 <= i < |es| ==> es[i].amount > 0.0
    ensures Total(es) > 0.0
  {
    var n := |es|;
    if n > 1 {
      TotalPositive(es[..n - 1]);
    } else {
      assert es[..0] == [];
    }
  }

  // ---------------------------------------------------------------------------
  // Grouping by category: `expenses.groupBy { it.category }`

  /** The records of `es` whose category is exactly `c`, in list order. */
  function OfCategory(es: seq<Expense>, c: string): (r: seq<Expense>)
    ensures |r| <= |es|
    ensures forall k :: 0 <= k < |r| ==> r[k].category == c
  {
    if es == [] then []
    else OfCategory(es[..|es| - 1], c) + (if es[|es| - 1].category == c then [es[|es| - 1]] else [])
  }

  /** The categories that occur in `es`. */
  function CategorySet(es: seq<Expense>): set<string>
  {
    set e | e in es :: e.category
  }

  lemma {:induction false} CategorySetSnoc(es: seq<Expense>, e: Expense)
    ensures CategorySet(es + [e]) == CategorySet(es) + {e.category}
  {
    var s := es + [e];
    forall c | c in CategorySet(s) ensures c in CategorySet(es) + {e.category} {
      var x :| x in s && x.category == c;
      if x != e {
        var i :| 0 <= i < |s| && s[i] == x;
        assert es[i] == x;
      }
    }
    forall c | c in CategorySet(es) + {e.category} ensures c in CategorySet(s) {
      if c == e.category {
        assert s[|es|] == e;
      } else {
        var x :| x in es && x.category == c;
        var i :| 0 <= i < |es| && es[i] == x;
        assert s[i] == x;
      }
    }
  }

  /** A category that does not occur has no records. */
  lemma {:induction false} OfCategoryAbsent(es: seq<Expense>, c: string)
    requires c !in CategorySet(es)
    ensures OfCategory(es, c) == []
  {
    if es != [] {
      var n := |es|;
      assert es == es[..n - 1] + [es[n - 1]];
      CategorySetSnoc(es[..n - 1], es[n - 1]);
      OfCategoryAbsent(es[..n - 1], c);
    }
  }

  /** The records of a category that occurs, when every amount is positive, have
      a positive total. */
  lemma {:induction false} OfCategoryPositive(es: seq<Expense>, c: string)
    requires c in CategorySet(es)
    requires forall i :: 0 <= i < |es| ==> es[i].amount > 0.0
    ensures Total(OfCategory(es, c)) > 0.0
  {
    var n := |es|;
    var init, last := es[..n - 1], es[n - 1];
    assert es == init + [last];
    CategorySetSnoc(init, last);
    var m := OfCategory(init, c);
    if c in CategorySet(init) {
      OfCategoryPositive(init, c);
    }
    if last.category == c {
      assert OfCategory(es, c) == m + [last];
      assert (m + [last])[..|m|] == m;
      if c !in CategorySet(init) {
        OfCategoryAbsent(init, c);
      }
    } else {
      assert OfCategory(es, c) == m + [];
      assert m + [] == m;
    }
  }

  /** One group built by `groupBy`: a key and the records filed under it. */
  datatype Group = Group(key: string, members: seq<Expense>)

  /** The position of the group with key `key`, or `|gs|` when there is none. */
  function FindGroup(gs: seq<Group>, key: string): (k: nat)
    ensures k <= |gs|
    ensures k < |gs| ==> gs[k].key == key
    ensures forall j :: 0 <= j < k ==> gs[j].key != key
  {
    if gs == [] then 0
    else if gs[0].key == key then 0
    else 1 + FindGroup(gs[1..], key)
  }

  /** One step of `groupBy` (the `getOrPut(key) { ArrayList() }.add(element)` of
      Kotlin's collections): the record joins the end of its category's group,
      or opens a new group at the end. */
  function AddToGroup(gs: seq<Group>, e: Expense): (r: seq<Group>)
    ensures var k := FindGroup(gs, e.category);
      if k < |gs| then r == gs[k := Group(e.category, gs[k].members + [e])]
      else r == gs + [Group(e.category, [e])]
  {
    if gs == [] then [Group(e.category, [e])]
    else if gs[0].key == e.category then [Group(e.category, gs[0].members + [e])] + gs[1..]
    else
      var rest := AddToGroup(gs[1..], e);
      assert FindGroup(gs, e.category) == 1 + FindGroup(gs[1..], e.category);
      [gs[0]] + rest
  }

  /** The keys of a grouping. */
  function GroupKeys(gs: seq<Group>): set<string>
  {
    set g | g in gs :: g.key
  }

  lemma {:induction false} GroupKeysIndex(gs: seq<Group>, c: string)
    ensures c in GroupKeys(gs) <==> exists i :: 0 <= i < |gs| && gs[i].key == c
  {
    if c in GroupKeys(gs) {
      var g :| g in gs && g.key == c;
      var i :| 0 <= i < |gs| && gs[i] == g;
    }
    if exists i :: 0 <= i < |gs| && gs[i].key == c {
      var i :| 0 <= i < |gs| && gs[i].key == c;
      assert gs[i] in gs;
    }
  }

  /** `gs` is the grouping of `es` by category: one group per category that
      occurs (keys distinct, no other keys), each holding exactly the records of
      its category, in list order. */
  ghost predicate IsGrouping(gs: seq<Group>, es: seq<Expense>)
  {
    && (forall i, j :: 0 <= i < j < |gs| ==> gs[i].key != gs[j].key)
    && GroupKeys(gs) == CategorySet(es)
    && (forall i :: 0 <= i < |gs| ==> gs[i].members == OfCategory(es, gs[i].key))
  }

  lemma {:induction false} OfCategorySnoc(es: seq<Expense>, e: Expense, c: string)
    ensures OfCategory(es + [e], c) == OfCategory(es, c) + (if e.category == c then [e] else [])
  {
    assert (es + [e])[..|es|] == es;
  }

  /** Replacing a group by one with the same key keeps the key set. */
  lemma {:induction false} GroupKeysUpdate(gs: seq<Group>, k: nat, g: Group)
    requires k < |gs| && g.key == gs[k].key
    ensures GroupKeys(gs[k := g]) == GroupKeys(gs)
  {
    var r := gs[k := g];
    forall x ensures x in GroupKeys(r) <==> x in GroupKeys(gs) {
      GroupKeysIndex(r, x);
      GroupKeysIndex(gs, x);
      assert forall i :: 0 <= i < |r| ==> r[i].key == gs[i].key;
    }
  }

  /** Appending a group adds its key to the key set. */
  lemma {:induction false} GroupKeysSnoc(gs: seq<Group>, g: Group)
    ensures GroupKeys(gs + [g]) == GroupKeys(gs) + {g.key}
  {
    var r := gs + [g];
    forall x ensures x in GroupKeys(r) <==> x in GroupKeys(gs) || x == g.key {
      GroupKeysIndex(r, x);
      GroupKeysIndex(gs, x);
      assert r[|gs|].key == g.key;
      assert forall i :: 0 <= i < |gs| ==> r[i] == gs[i];
    }
  }

  /** Filing a record whose category already has a group. */
  lemma {:induction false} AddToExistingGroup(gs: seq<Group>, es: seq<Expense>, e: Expense)
    requires IsGrouping(gs, es)
    requires FindGroup(gs, e.category) < |gs|
    ensures IsGrouping(AddToGroup(gs, e), es + [e])
  {
    var c := e.category;
    var k := FindGroup(gs, c);
    var g := Group(c, gs[k].members + [e]);
    var r := gs[k := g];
    assert AddToGroup(gs, e) == r;
    CategorySetSnoc(es, e);
    GroupKeysUpdate(gs, k, g);
    GroupKeysIndex(gs, c);
    assert forall i :: 0 <= i < |r| ==> r[i].key == gs[i].key;
    forall i | 0 <= i < |r| ensures r[i].members == OfCategory(es + [e], r[i].key) {
      OfCategorySnoc(es, e, r[i].key);
      if i != k {
        assert gs[i].key != c;
      }
    }
  }

  /** Filing a record whose category has no group yet. */
  lemma {:induction false} AddNewGroup(gs: seq<Group>, es: seq<Expense>, e: Expense)
    requires IsGrouping(gs, es)
    requires FindGroup(gs, e.category) == |gs|
    ensures IsGrouping(AddToGroup(gs, e), es + [e])
  {
    var c := e.category;
    var g := Group(c, [e]);
    var r := gs + [g];
    assert AddToGroup(gs, e) == r;
    CategorySetSnoc(es, e);
    GroupKeysSnoc(gs, g);
    assert forall i :: 0 <= i < |gs| ==> gs[i].key != c;
    OfCategoryAbsent(es, c) by {
      GroupKeysIndex(gs, c);
    }
    forall i | 0 <= i < |r| ensures r[i].members == OfCategory(es + [e], r[i].key) {
      OfCategorySnoc(es, e, r[i].key);
      if i < |gs| {
        assert r[i] == gs[i];
      } else {
        assert [] + [e] == [e];
      }
    }
  }

  /** `expenses.groupBy { it.category }`: the records filed one by one, in list
      order, into a map that keeps its keys in insertion order. */
  function GroupByCategory(es: seq<Expense>): seq<Group>
  {
    if es == [] then [] else AddToGroup(GroupByCategory(es[..|es| - 1]), es[|es| - 1])
  }

  /** The result of `groupBy` is the grouping of the list by category. */
  lemma {:induction false} GroupByCategoryGroups(es: seq<Expense>)
    ensures IsGrouping(GroupByCategory(es), es)
  {
    if es != [] {
      var init, last := es[..|es| - 1], es[|es| - 1];
      GroupByCategoryGroups(init);
      var before := GroupByCategory(init);
      assert init + [last] == es;
      if FindGroup(before, last.category) < |before| {
        AddToExistingGroup(before, init, last);
      } else {
        AddNewGroup(before, init, last);
      }
    }
  }

  /** `big` keeps the groups of `small` in place, under the same keys, possibly
      followed by more. */
  predicate KeysExtend(small: seq<Group>, big: seq<Group>)
  {
    |small| <= |big| && forall i :: 0 <= i < |small| ==> big[i].key == small[i].key
  }

  /** Filing a record never moves or renames an existing group. */
  lemma {:induction false} AddToGroupKeepsKeys(gs: seq<Group>, e: Expense)
    ensures KeysExtend(gs, AddToGroup(gs, e))
  {
  }

  /** The keys of the grouping come in first-occurrence order: the groups of
      any prefix of the list are, key for key, the first groups of the whole
      list's grouping. */
  lemma {:induction false} GroupOrderStable(es: seq<Expense>, n: nat)
    requires n <= |es|
    ensures KeysExtend(GroupByCategory(es[..n]), GroupByCategory(es))
    decreases |es|
  {
    if n == |es| {
      assert es[..n] == es;
    } else {
      var init := es[..|es| - 1];
      GroupOrderStable(init, n);
      assert init[..n] == es[..n];
      AddToGroupKeepsKeys(GroupByCategory(init), es[|es| - 1]);
    }
  }

  // ---------------------------------------------------------------------------
  // The per-category totals: `.mapValues { entry -> entry.value.sumOf { it.amount } }`

  /** Each group replaced by its key and the total of its records. */
  function SumGroups(gs: seq<Group>): (totals: seq<CategoryTotal>)
    ensures |totals| == |gs|
    ensures forall i :: 0 <= i < |gs| ==> totals[i] == CategoryTotal(gs[i].key, Total(gs[i].members))
  {
    if gs == [] then [] else [CategoryTotal(gs[0].key, Total(gs[0].members))] + SumGroups(gs[1..])
  }

  /** The categories of a list of totals. */
  function TotalKeys(totals: seq<CategoryTotal>): set<string>
  {
    set t | t in totals :: t.category
  }

  lemma {:induction false} SumGroupsKeys(gs: seq<Group>)
    ensures TotalKeys(SumGroups(gs)) == GroupKeys(gs)
  {
    var totals := SumGroups(gs);
    forall x | x in TotalKeys(totals) ensures x in GroupKeys(gs) {
      var t :| t in totals && t.category == x;
      var i :| 0 <= i < |totals| && totals[i] == t;
      assert gs[i] in gs;
    }
    forall x | x in GroupKeys(gs) ensures x in TotalKeys(totals) {
      var g :| g in gs && g.key == x;
      var i :| 0 <= i < |gs| && gs[i] == g;
      assert totals[i] in totals;
    }
  }

  /** `expenseByCategory`, the map handed to the chart: one entry per category
      that occurs in the list (keys distinct; a category without records is
      absent), whose value is the total of exactly the records of that category. */
  function ExpenseByCategory(es: seq<Expense>): (totals: seq<CategoryTotal>)
    ensures forall i, j :: 0 <= i < j < |totals| ==> totals[i].category != totals[j].category
    ensures TotalKeys(totals) == CategorySet(es)
    ensures forall i :: 0 <= i < |totals| ==> totals[i].amount == Total(OfCategory(es, totals[i].category))
  {
    GroupByCategoryGroups(es);
    SumGroupsKeys(GroupByCategory(es));
    SumGroups(GroupByCategory(es))
  }

  lemma {:induction false} TotalSnoc(m: seq<Expense>, e: Expense)
    ensures Total(m + [e]) == Total(m) + e.amount
  {
    assert (m + [e])[..|m|] == m;
  }

  lemma {:induction false} SumGroupsUpdate(gs: seq<Group>, k: nat, g: Group)
    requires k < |gs|
    ensures SumGroups(gs[k := g]) == SumGroups(gs)[k := CategoryTotal(g.key, Total(g.members))]
  {
    var lhs, rhs := SumGroups(gs[k := g]), SumGroups(gs)[k := CategoryTotal(g.key, Total(g.members))];
    assert |lhs| == |rhs|;
    forall i | 0 <= i < |lhs| ensures lhs[i] == rhs[i] {
    }
  }

  lemma {:induction false} SumGroupsSnoc(gs: seq<Group>, g: Group)
    ensures SumGroups(gs + [g]) == SumGroups(gs) + [CategoryTotal(g.key, Total(g.members))]
  {
    var lhs, rhs := SumGroups(gs + [g]), SumGroups(gs) + [CategoryTotal(g.key, Total(g.members))];
    assert |lhs| == |rhs|;
    forall i | 0 <= i < |lhs| ensures lhs[i] == rhs[i] {
    }
  }

  /** Filing one record adds its amount to the sum of the group totals. */
  lemma {:induction false} SumGroupsAdd(gs: seq<Group>, e: Expense)
    ensures ValuesSum(SumGroups(AddToGroup(gs, e))) == ValuesSum(SumGroups(gs)) + e.amount
  {
    var k := FindGroup(gs, e.category);
    var t := SumGroups(gs);
    if k < |gs| {
      var g := Group(e.category, gs[k].members + [e]);
      TotalSnoc(gs[k].members, e);
      SumGroupsUpdate(gs, k, g);
      ValuesSumUpdate(t, k, CategoryTotal(g.key, Total(g.members)));
    } else {
      var g := Group(e.category, [e]);
      TotalSnoc([], e);
      assert [] + [e] == [e];
      SumGroupsSnoc(gs, g);
      ValuesSumAppend(t, [CategoryTotal(g.key, Total(g.members))]);
      assert [CategoryTotal(g.key, Total(g.members))][..0] == [];
    }
  }

  /** The per-category totals add up to the displayed grand total. */
  lemma {:induction false} CategoryTotalsSumToTotal(es: seq<Expense>)
    ensures ValuesSum(ExpenseByCategory(es)) == Total(es)
  {
    if es != [] {
      var n := |es|;
      var init, e := es[..n - 1], es[n - 1];
      CategoryTotalsSumToTotal(init);
      SumGroupsAdd(GroupByCategory(init), e);
    }
  }

  /** The chart for a non-empty list of records with positive amounts (every
      record the add and edit screens create): the total is positive, so it is
      drawn, every category gets an arc of positive sweep, and every category
      gets a legend row. */
  lemma {:induction false} ChartOfPositiveExpenses(es: seq<Expense>)
    requires |es| > 0
    requires forall i :: 0 <= i < |es| ==> es[i].amount > 0.0
    ensures ValuesSum(ExpenseByCategory(es)) > 0.0
    ensures |Sectors(ExpenseByCategory(es))| == |ExpenseByCategory(es)|
    ensures forall i :: 0 <= i < |ExpenseByCategory(es)| ==> Sectors(ExpenseByCategory(es))[i].sweepAngle > 0.0
    ensures |Legend(ExpenseByCategory(es))| == |ExpenseByCategory(es)|
    ensures forall i :: 0 <= i < |ExpenseByCategory(es)| ==>
      Legend(ExpenseByCategory(es))[i] == LegendEntry(CategoryColor(ExpenseByCategory(es)[i].category), ExpenseByCategory(es)[i].category)
  {
    var totals := ExpenseByCategory(es);
    CategoryTotalsSumToTotal(es);
    TotalPositive(es);
    forall i | 0 <= i < |totals| ensures totals[i].amount > 0.0 {
      assert totals[i] in totals;
      assert totals[i].category in TotalKeys(totals);
      OfCategoryPositive(es, totals[i].category);
    }
    forall i | 0 <= i < |totals| ensures Sectors(totals)[i].sweepAngle > 0.0 {
      SectorPerEntry(totals, i);
    }
    LegendKeepsPositive(totals);
  }

  const FoodLunch := Expense("Food", 20.0, None, None)
  const BusTicket := Expense("Transport", 10.0, None, None)
  const FoodSnack := Expense("Food", 10.0, None, None)

  lemma {:induction false} GroupingExampleSteps()
    ensures GroupByCategory([FoodLunch]) == [Group("Food", [FoodLunch])]
    ensures GroupByCategory([FoodLunch, BusTicket]) == [Group("Food", [FoodLunch]), Group("Transport", [BusTicket])]
  {
    assert [FoodLunch][..0] == [];
    assert [] + [FoodLunch] == [FoodLunch];
    assert [FoodLunch, BusTicket][..1] == [FoodLunch];
    var g1 := GroupByCategory([FoodLunch]);
    assert g1 == AddToGroup([], FoodLunch);
    assert g1 == [Group("Food", [FoodLunch])];
    assert g1[1..] == [];
    assert FindGroup(g1, "Transport") == 1;
  }

  /** A worked example: a Food record of 20, a Transport record of 10 and a
      Food record of 10 give the map Food -> 30, Transport -> 10. */
  lemma {:induction false} AggregationExample()
    ensures ExpenseByCategory([FoodLunch, BusTicket, FoodSnack])
            == [CategoryTotal("Food", 30.0), CategoryTotal("Transport", 10.0)]
  {
    var es := [FoodLunch, BusTicket, FoodSnack];
    GroupingExampleSteps();
    assert es[..2] == [FoodLunch, BusTicket];
    var g2 := GroupByCategory([FoodLunch, BusTicket]);
    assert FindGroup(g2, "Food") == 0;
    var g3 := GroupByCategory(es);
    assert g3 == [Group("Food", [FoodLunch] + [FoodSnack]), Group("Transport", [BusTicket])];
    TotalSnoc([FoodLunch], FoodSnack);
    TotalSnoc([], FoodLunch);
    TotalSnoc([], BusTicket);
    assert [] + [FoodLunch] == [FoodLunch];
    assert [] + [BusTicket] == [BusTicket];
  }

  // ---------------------------------------------------------------------------
  // The description preview of a list row

  /** The number of characters shown before the row is expanded. */
  const PreviewLength: nat := 50

  /** `expense.description ?: "No description"`. */
  function DescriptionText(description: Option<string>): string
  {
    match description
    case None => "No description"
    case Some(text) => text
  }

  /** Whether the row shows the "Tap to expand" hint: it is collapsed and the
      text is longer than the preview. */
  predicate ShowsExpandHint(description: Option<string>, isExpanded: bool)
  {
    !isExpanded && |DescriptionText(description)| > PreviewLength
  }

  /** The text shown after "Description: ". Expanded, the full text; collapsed,
      at most 53 characters; whatever is not the full text is its first 50
      characters followed by "...", and then the hint is shown. */
  function Preview(description: Option<string>, isExpanded: bool): (shown: string)
    ensures isExpanded ==> shown == DescriptionText(description)
    ensures !isExpanded ==> |shown| <= PreviewLength + 3
    ensures shown == DescriptionText(description) ||
            (ShowsExpandHint(description, isExpanded) && shown == DescriptionText(description)[..PreviewLength] + "...")
  {
    var text := DescriptionText(description);
    if !isExpanded && |text| > PreviewLength then text[..PreviewLength] + "..." else text
  }

  /** A missing description is shown as "No description", which is short enough
      never to be truncated. */
  lemma {:induction false} PreviewOfMissingDescription(isExpanded: bool)
    ensures Preview(None, isExpanded) == "No description"
    ensures !ShowsExpandHint(None, isExpanded)
  {
  }

  /** A collapsed row with more than 50 characters shows exactly the first 50
      followed by "...". */
  lemma {:induction false} PreviewTruncates(text: string)
    requires |text| > PreviewLength
    ensures Preview(Some(text), false) == text[..PreviewLength] + "..."
    ensures |Preview(Some(text), false)| == PreviewLength + 3
  {
  }

  /** The hint can be shown while nothing is hidden: a 53-character text that
      ends in "..." is "truncated" to itself. */
  lemma {:induction false} HintWithNothingHidden()
    ensures var text := seq(PreviewLength, _ => 'a') + "...";
      ShowsExpandHint(Some(text), false) && Preview(Some(text), false) == text
  {
    var text := seq(PreviewLength, _ => 'a') + "...";
    assert text[..PreviewLength] == seq(PreviewLength, _ => 'a');
  }

  // ---------------------------------------------------------------------------
  // Index guards

  /** `index in expenses.indices`. */
  predicate InIndices(index: int, count: nat)
  {
    0 <= index < count
  }

  /** The edit button of a list row: it navigates to the edit route of its index
      when the index is still in range, and otherwise shows a toast (`None`). */
  function EditButton(index: int, count: nat): (route: Option<int>)
    ensures route.Some? <==> InIndices(index, count)
    ensures route.Some? ==> route.value == index
  {
    if InIndices(index, count) then Some(index) else None
  }

  /** The edit route: its argument parsed with `toIntOrNull` (`None` when it does
      not parse); the edit screen opens only for an index in range, otherwise a
      toast is shown and the route is popped (`None`). */
  function EditRoute(argument: Option<int>, count: nat): (index: Option<nat>)
    ensures index.Some? <==> argument.Some? && InIndices(argument.value, count)
    ensures index.Some? ==> index.value == argument.value
  {
    match argument
    case Some(i) => if InIndices(i, count) then Some(i) else None
    case None => None
  }

  /** While the list is unchanged, every index the edit button lets through
      opens the edit screen for that same record. The button's index is passed
      straight to the route: the round trip through the route text
      `"editExpense/$index"` and back through `toIntOrNull` is taken to give the
      same integer, which holds for the decimal form of any `Int`. */
  lemma {:induction false} EditButtonOpensEditScreen(index: int, count: nat)
    requires EditButton(index, count).Some?
    ensures EditRoute(EditButton(index, count), count) == Some(index)
  {
  }
}

/** The chart side of the overview (PieChart.kt): the colour table, the
    month/year stepping of `MonthYearSelector`, and the legend and sector layout
    of `ExpenseChartContainer`. */
module PieChart {
  import opened Wrappers

  // ---------------------------------------------------------------------------
  // Colours

  /** A Compose colour, given by its 32-bit ARGB value. */
  datatype Color = Color(argb: int)

  /** Compose's `Color.Gray`. */
  const Gray := Color(0xFF888888)

  /** The labels the colour table knows. */
  const ChartCategories: seq<string> := ["Food", "Transport", "Shopping", "Entertainment", "Utilities"]

  /** The fixed colour of a category label: one of five colours for the labels the
      table knows (exact match), gray for every other label. */
  function CategoryColor(category: string): (color: Color)
    ensures color != Gray <==> category in ChartCategories
  {
    if category == "Food" then Color(0xFFE57373)
    else if category == "Transport" then Color(0xFF81C784)
    else if category == "Shopping" then Color(0xFF64B5F6)
    else if category == "Entertainment" then Color(0xFFFFB74D)
    else if category == "Utilities" then Color(0xFFBA68C8)
    else Gray
  }

  /** The five known labels get five different colours. */
  lemma {:induction false} CategoryColorsDistinct(a: string, b: string)
    requires a in ChartCategories && b in ChartCategories
    ensures CategoryColor(a) == CategoryColor(b) <==> a == b
  {
  }

  /** "Other" and "Others" are not in the colour table: both are drawn gray. */
  lemma {:induction false} OtherLabelsAreGray()
    ensures CategoryColor("Other") == Gray && CategoryColor("Others") == Gray
    ensures CategoryColor("") == Gray
  {
  }

  // ---------------------------------------------------------------------------
  // Month/year stepping, after java.time.LocalDate.of and LocalDate.plusMonths

  /** The year range of java.time.LocalDate (Year.MIN_VALUE..Year.MAX_VALUE). */
  const MinYear: int := -999999999
  const MaxYear: int := 999999999

  datatype MonthYear = MonthYear(month: int, year: int)

  /** Whether `LocalDate.of(year, month, 1)` accepts its arguments. */
  predicate IsValidMonthYear(month: int, year: int)
  {
    1 <= month <= 12 && MinYear <= year <= MaxYear
  }

  /** The number of months since January of year 0. */
  function MonthIndex(month: int, year: int): int
  {
    year * 12 + (month - 1)
  }

  /** `LocalDate.of(year, month, 1).plusMonths(months)`, reduced to its month and
      year. `None` is the DateTimeException thrown when the date is invalid or the
      resulting year leaves the supported range. The result moves exactly
      `months` months. */
  function PlusMonths(month: int, year: int, months: int): (r: Option<MonthYear>)
    ensures r.Some? ==> IsValidMonthYear(r.value.month, r.value.year)
    ensures r.Some? ==> MonthIndex(r.value.month, r.value.year) == MonthIndex(month, year) + months
    ensures r.None? <==> !IsValidMonthYear(month, year) || !(MinYear <= (MonthIndex(month, year) + months) / 12 <= MaxYear)
  {
    if !IsValidMonthYear(month, year) then None
    else if months == 0 then Some(MonthYear(month, year))
    else
      var count := MonthIndex(month, year) + months;
      var newYear := count / 12;   // floorDiv: 12 is positive, so Euclidean division agrees
      if newYear < MinYear || newYear > MaxYear then None
      else Some(MonthYear(count % 12 + 1, newYear))
  }

  /** The "previous month" button: `minusMonths(1)`. It succeeds exactly from a
      valid month/year that is not January of the earliest year, and then lands
      one month earlier. */
  function PreviousMonth(month: int, year: int): (r: Option<MonthYear>)
    ensures r.Some? <==> IsValidMonthYear(month, year) && (month > 1 || year > MinYear)
    ensures r.Some? ==> MonthIndex(r.value.month, r.value.year) == MonthIndex(month, year) - 1
  {
    assert IsValidMonthYear(month, year) ==> (MonthIndex(month, year) - 1) / 12 == (if month == 1 then year - 1 else year);
    PlusMonths(month, year, -1)
  }

  /** The "next month" button: `plusMonths(1)`. It succeeds exactly from a
      valid month/year that is not December of the latest year, and then lands
      one month later. */
  function NextMonth(month: int, year: int): (r: Option<MonthYear>)
    ensures r.Some? <==> IsValidMonthYear(month, year) && (month < 12 || year < MaxYear)
    ensures r.Some? ==> MonthIndex(r.value.month, r.value.year) == MonthIndex(month, year) + 1
  {
    assert IsValidMonthYear(month, year) ==> (MonthIndex(month, year) + 1) / 12 == (if month == 12 then year + 1 else year);
    PlusMonths(month, year, 1)
  }

  /** A month index determines its month and year. */
  lemma {:induction false} MonthIndexInjective(m1: int, y1: int, m2: int, y2: int)
    requires 1 <= m1 <= 12 && 1 <= m2 <= 12
    requires MonthIndex(m1, y1) == MonthIndex(m2, y2)
    ensures m1 == m2 && y1 == y2
  {
  }

  /** Stepping back from a valid month gives a valid month; January goes to
      December of the year before, every other month to the month before. */
  lemma {:induction false} PreviousMonthSteps(month: int, year: int)
    requires IsValidMonthYear(month, year) && (month > 1 || year > MinYear)
    ensures PreviousMonth(month, year).Some?
    ensures month == 1 ==> PreviousMonth(month, year) == Some(MonthYear(12, year - 1))
    ensures month > 1 ==> PreviousMonth(month, year) == Some(MonthYear(month - 1, year))
  {
    var r := PreviousMonth(month, year);
    assert (MonthIndex(month, year) - 1) / 12 >= year - 1;
    var target := if month == 1 then MonthYear(12, year - 1) else MonthYear(month - 1, year);
    MonthIndexInjective(r.value.month, r.value.year, target.month, target.year);
  }

  /** Stepping forward from a valid month gives a valid month; December goes to
      January of the year after, every other month to the month after. */
  lemma {:induction false} NextMonthSteps(month: int, year: int)
    requires IsValidMonthYear(month, year) && (month < 12 || year < MaxYear)
    ensures NextMonth(month, year).Some?
    ensures month == 12 ==> NextMonth(month, year) == Some(MonthYear(1, year + 1))
    ensures month < 12 ==> NextMonth(month, year) == Some(MonthYear(month + 1, year))
  {
    var r := NextMonth(month, year);
    assert (MonthIndex(month, year) + 1) / 12 <= year + 1;
    var target := if month == 12 then MonthYear(1, year + 1) else MonthYear(month + 1, year);
    MonthIndexInjective(r.value.month, r.value.year, target.month, target.year);
  }

  /** Stepping past the ends of the supported range throws, and so does
      stepping from any month outside 1..12 (`LocalDate.of` rejects it). */
  lemma {:induction false} SteppingPastRangeFails(month: int, year: int)
    ensures PreviousMonth(1, MinYear) == None
    ensures NextMonth(12, MaxYear) == None
    ensures month < 1 || month > 12 ==> PreviousMonth(month, year) == None && NextMonth(month, year) == None
  {
  }

  /** Next undoes previous: every month reached with the back button is left
      again to the starting month with the forward button. */
  lemma {:induction false} NextAfterPrevious(month: int, year: int)
    requires PreviousMonth(month, year).Some?
    ensures NextMonth(PreviousMonth(month, year).value.month, PreviousMonth(month, year).value.year)
            == Some(MonthYear(month, year))
  {
    var p := PreviousMonth(month, year).value;
    var n := NextMonth(p.month, p.year);
    assert MonthIndex(month, year) / 12 == year;
    assert n.Some?;
    MonthIndexInjective(n.value.month, n.value.year, month, year);
  }

  /** Previous undoes next. */
  lemma {:induction false} PreviousAfterNext(month: int, year: int)
    requires NextMonth(month, year).Some?
    ensures PreviousMonth(NextMonth(month, year).value.month, NextMonth(month, year).value.year)
            == Some(MonthYear(month, year))
  {
    var n := NextMonth(month, year).value;
    var p := PreviousMonth(n.month, n.year);
    assert MonthIndex(month, year) / 12 == year;
    assert p.Some?;
    MonthIndexInjective(p.value.month, p.value.year, month, year);
  }

  // ---------------------------------------------------------------------------
  // Chart data, legend and sectors

  /** One entry of the chart's input map: a category and its total amount. The
      map (a Kotlin LinkedHashMap) is a sequence of entries in iteration order. */
  datatype CategoryTotal = CategoryTotal(category: string, amount: real)

  /** `expenseData.values.sum()`. */
  function ValuesSum(data: seq<CategoryTotal>): real
  {
    if data == [] then 0.0 else ValuesSum(data[..|data| - 1]) + data[|data| - 1].amount
  }

  lemma {:induction false} ValuesSumAppend(a: seq<CategoryTotal>, b: seq<CategoryTotal>)
    ensures ValuesSum(a + b) == ValuesSum(a) + ValuesSum(b)
  {
    if b == [] {
      assert a + b == a;
    } else {
      ValuesSumAppend(a, b[..|b| - 1]);
      assert (a + b)[..|a + b| - 1] == a + b[..|b| - 1];
    }
  }

  /** Replacing one entry changes the sum by the difference of the two amounts. */
  lemma {:induction false} ValuesSumUpdate(data: seq<CategoryTotal>, k: nat, x: CategoryTotal)
    requires k < |data|
    ensures ValuesSum(data[k := x]) == ValuesSum(data) - data[k].amount + x.amount
  {
    assert data == data[..k] + [data[k]] + data[k + 1..];
    assert data[k := x] == data[..k] + [x] + data[k + 1..];
    ValuesSumAppend(data[..k] + [data[k]], data[k + 1..]);
    ValuesSumAppend(data[..k], [data[k]]);
    ValuesSumAppend(data[..k] + [x], data[k + 1..]);
    ValuesSumAppend(data[..k], [x]);
    assert ValuesSum([data[k]]) == data[k].amount by { assert [data[k]][..0] == []; }
    assert ValuesSum([x]) == x.amount by { assert [x][..0] == []; }
  }

  /** One legend row: a colour dot and the category text. */
  datatype LegendEntry = LegendEntry(color: Color, text: string)

  /** The legend: one row per entry whose amount is above zero, in map order. */
  function Legend(data: seq<CategoryTotal>): (legend: seq<LegendEntry>)
    ensures |legend| <= |data|
    ensures forall k :: 0 <= k < |legend| ==> legend[k].color == CategoryColor(legend[k].text)
  {
    if data == [] then []
    else
      (if data[0].amount > 0.0 then [LegendEntry(CategoryColor(data[0].category), data[0].category)] else [])
      + Legend(data[1..])
  }

  /** The legend keeps map order: the legend of a concatenation is the
      concatenation of the legends. */
  lemma {:induction false} LegendAppend(a: seq<CategoryTotal>, b: seq<CategoryTotal>)
    ensures Legend(a + b) == Legend(a) + Legend(b)
  {
    if a != [] {
      assert (a + b)[0] == a[0];
      assert (a + b)[1..] == a[1..] + b;
      LegendAppend(a[1..], b);
    } else {
      assert a + b == b;
    }
  }

  /** A row is in the legend exactly when some entry of that category has an
      amount above zero, and its dot has that category's colour. */
  lemma {:induction false} LegendMembership(data: seq<CategoryTotal>, entry: LegendEntry)
    ensures entry in Legend(data) <==>
      (exists i :: 0 <= i < |data| && data[i].category == entry.text && data[i].amount > 0.0)
      && entry.color == CategoryColor(entry.text)
  {
    if data != [] {
      LegendMembership(data[1..], entry);
      if exists i :: 0 <= i < |data[1..]| && data[1..][i].category == entry.text && data[1..][i].amount > 0.0 {
        var i :| 0 <= i < |data[1..]| && data[1..][i].category == entry.text && data[1..][i].amount > 0.0;
        assert data[i + 1] == data[1..][i];
      }
      if exists i :: 0 <= i < |data| && data[i].category == entry.text && data[i].amount > 0.0 {
        var i :| 0 <= i < |data| && data[i].category == entry.text && data[i].amount > 0.0;
        if i > 0 {
          assert data[1..][i - 1] == data[i];
        }
      }
    }
  }

  /** When every amount is above zero, every entry gets a legend row, in order. */
  lemma {:induction false} LegendKeepsPositive(data: seq<CategoryTotal>)
    requires forall i :: 0 <= i < |data| ==> data[i].amount > 0.0
    ensures |Legend(data)| == |data|
    ensures forall i :: 0 <= i < |data| ==> Legend(data)[i] == LegendEntry(CategoryColor(data[i].category), data[i].category)
  {
    if data != [] {
      LegendKeepsPositive(data[1..]);
    }
  }

  /** A drawn arc: `drawArc(color, startAngle, sweepAngle, ...)`. */
  datatype Sector = Sector(category: string, color: Color, startAngle: real, sweepAngle: real)

  /** The first arc starts at the top of the circle. */
  const StartAngle: real := -90.0

  /** `amount / total * 360`, written as `amount * (360 / total)`, which is the
      same real number. */
  function SweepAngle(amount: real, total: real): real
    requires total > 0.0
  {
    amount * (360.0 / total)
  }

  /** A sweep is the amount's share of the full circle, and has the amount's sign. */
  lemma {:induction false} SweepAngleShare(amount: real, total: real)
    requires total > 0.0
    ensures SweepAngle(amount, total) == amount / total * 360.0
    ensures SweepAngle(amount, total) * total == amount * 360.0
    ensures SweepAngle(amount, total) == 0.0 <==> amount == 0.0
    ensures SweepAngle(amount, total) > 0.0 <==> amount > 0.0
  {
    var k := 360.0 / total;
    assert k > 0.0;
    assert k * total == 360.0;
    if amount > 0.0 {
      assert amount * k > 0.0;
    } else if amount < 0.0 {
      assert amount * k < 0.0;
    }
  }

  lemma {:induction false} SweepAngleAdd(a: real, b: real, total: real)
    requires total > 0.0
    ensures SweepAngle(a + b, total) == SweepAngle(a, total) + SweepAngle(b, total)
  {
  }

  /** The share of the first i + 1 entries is that of the first i plus entry i's. */
  lemma {:induction false} PrefixSweepStep(data: seq<CategoryTotal>, i: nat, total: real)
    requires i < |data| && total > 0.0
    ensures SweepAngle(ValuesSum(data[..i + 1]), total)
            == SweepAngle(ValuesSum(data[..i]), total) + SweepAngle(data[i].amount, total)
  {
    assert data[..i + 1][..i] == data[..i];
    assert ValuesSum(data[..i + 1]) == ValuesSum(data[..i]) + data[i].amount;
    SweepAngleAdd(ValuesSum(data[..i]), data[i].amount, total);
  }

  /** The arcs the chart draws, in closed form: none when the values do not sum
      to more than zero; otherwise one per entry, in map order, entry i starting
      where the share of the entries before it ends. */
  function Sectors(data: seq<CategoryTotal>): seq<Sector>
  {
    var total := ValuesSum(data);
    if total <= 0.0 then []
    else
      seq(|data|, i requires 0 <= i < |data| =>
        Sector(data[i].category, CategoryColor(data[i].category),
               StartAngle + SweepAngle(ValuesSum(data[..i]), total),
               SweepAngle(data[i].amount, total)))
  }

  /** The arcs up to entry i are those before it followed by entry i's arc. */
  lemma {:induction false} SectorsPrefixStep(data: seq<CategoryTotal>, i: nat)
    requires ValuesSum(data) > 0.0 && i < |data|
    ensures Sectors(data)[..i + 1] == Sectors(data)[..i] +
      [Sector(data[i].category, CategoryColor(data[i].category),
              StartAngle + SweepAngle(ValuesSum(data[..i]), ValuesSum(data)),
              SweepAngle(data[i].amount, ValuesSum(data)))]
  {
    var sectors := Sectors(data);
    assert sectors[..i + 1] == sectors[..i] + [sectors[i]];
  }

  /** The drawing loop of `ExpenseChartContainer`: return when the total is not
      above zero, otherwise walk the entries, drawing each arc at the running
      `startAngle` and advancing it by the arc's sweep. */
  method LayoutSectors(data: seq<CategoryTotal>) returns (sectors: seq<Sector>)
    ensures sectors == Sectors(data)
  {
    var total := ValuesSum(data);
    if total <= 0.0 {
      return [];
    }
    var startAngle := StartAngle;
    sectors := [];
    var i := 0;
    while i < |data|
      invariant 0 <= i <= |data|
      invariant startAngle == StartAngle + SweepAngle(ValuesSum(data[..i]), total)
      invariant sectors == Sectors(data)[..i]
    {
      var category := data[i].category;
      var amount := data[i].amount;
      var sweepAngle := SweepAngle(amount, total);
      SectorsPrefixStep(data, i);
      sectors := sectors + [Sector(category, CategoryColor(category), startAngle, sweepAngle)];
      PrefixSweepStep(data, i, total);
      startAngle := startAngle + sweepAngle;
      i := i + 1;
    }
    assert data[..|data|] == data;
  }

  /** No arcs are drawn when the values do not sum to more than zero. */
  lemma {:induction false} NoSectorsWithoutPositiveTotal(data: seq<CategoryTotal>)
    requires ValuesSum(data) <= 0.0
    ensures Sectors(data) == []
  {
  }

  /** With a positive total there is one arc per entry, in map order, of the
      entry's category and colour, with sweep `amount / total * 360`; an entry of
      amount zero still gets an arc, of sweep zero. */
  lemma {:induction false} SectorPerEntry(data: seq<CategoryTotal>, i: nat)
    requires ValuesSum(data) > 0.0 && i < |data|
    ensures |Sectors(data)| == |data|
    ensures Sectors(data)[i].category == data[i].category
    ensures Sectors(data)[i].color == CategoryColor(data[i].category)
    ensures Sectors(data)[i].sweepAngle == data[i].amount / ValuesSum(data) * 360.0
    ensures Sectors(data)[i].sweepAngle == 0.0 <==> data[i].amount == 0.0
    ensures Sectors(data)[i].sweepAngle > 0.0 <==> data[i].amount > 0.0
  {
    var total := ValuesSum(data);
    var sweep := SweepAngle(data[i].amount, total);
    assert Sectors(data)[i].sweepAngle == sweep;
    SweepAngleShare(data[i].amount, total);
  }

  /** The first arc starts at -90 degrees, and every later arc starts where the
      one before it ends. */
  lemma {:induction false} SectorsContiguous(data: seq<CategoryTotal>, i: nat)
    requires ValuesSum(data) > 0.0 && i < |data|
    ensures i == 0 ==> Sectors(data)[i].startAngle == StartAngle
    ensures i > 0 ==> Sectors(data)[i].startAngle == Sectors(data)[i - 1].startAngle + Sectors(data)[i - 1].sweepAngle
  {
    if i == 0 {
      assert data[..0] == [];
    } else {
      PrefixSweepStep(data, i - 1, ValuesSum(data));
    }
  }

  /** The sum of the sweeps of a sequence of arcs. */
  function SweepSum(sectors: seq<Sector>): real
  {
    if sectors == [] then 0.0 else SweepSum(sectors[..|sectors| - 1]) + sectors[|sectors| - 1].sweepAngle
  }

  lemma {:induction false} SweepSumPrefix(data: seq<CategoryTotal>, k: nat)
    requires ValuesSum(data) > 0.0 && k <= |data|
    ensures SweepSum(Sectors(data)[..k]) == SweepAngle(ValuesSum(data[..k]), ValuesSum(data))
  {
    if k == 0 {
      assert data[..0] == [];
      assert Sectors(data)[..0] == [];
    } else {
      SweepSumPrefix(data, k - 1);
      assert Sectors(data)[..k][..k - 1] == Sectors(data)[..k - 1];
      PrefixSweepStep(data, k - 1, ValuesSum(data));
    }
  }

  /** With a positive total the arcs cover the full circle: their sweeps sum to
      360 degrees, and the running angle ends at 270 degrees. */
  lemma {:induction false} SweepsCoverCircle(data: seq<CategoryTotal>)
    requires ValuesSum(data) > 0.0
    ensures SweepSum(Sectors(data)) == 360.0
    ensures |data| > 0
    ensures Sectors(data)[|data| - 1].startAngle + Sectors(data)[|data| - 1].sweepAngle == 270.0
  {
    var total := ValuesSum(data);
    var n := |data|;
    assert n > 0;
    SweepSumPrefix(data, n);
    assert Sectors(data)[..n] == Sectors(data);
    assert data[..n] == data;
    PrefixSweepStep(data, n - 1, total);
    assert data[..n - 1 + 1] == data;
    assert SweepAngle(total, total) == 360.0;
  }

  /** The legend and the arcs agree when the chart is drawn: a category has a
      legend row exactly when it has an arc of positive sweep. */
  lemma {:induction false} LegendMatchesSectors(data: seq<CategoryTotal>, category: string)
    requires ValuesSum(data) > 0.0
    ensures LegendEntry(CategoryColor(category), category) in Legend(data) <==>
      exists s :: s in Sectors(data) && s.category == category && s.sweepAngle > 0.0
  {
    LegendMembership(data, LegendEntry(CategoryColor(category), category));
    if exists i :: 0 <= i < |data| && data[i].category == category && data[i].amount > 0.0 {
      var i :| 0 <= i < |data| && data[i].category == category && data[i].amount > 0.0;
      SectorPerEntry(data, i);
      assert Sectors(data)[i] in Sectors(data);
    }
    if exists s :: s in Sectors(data) && s.category == category && s.sweepAngle > 0.0 {
      var s :| s in Sectors(data) && s.category == category && s.sweepAngle > 0.0;
      var i :| 0 <= i < |Sectors(data)| && Sectors(data)[i] == s;
      SectorPerEntry(data, i);
    }
  }

  /** A worked example: Food 30 and Transport 10 give a 270-degree arc from the
      top followed by a 90-degree arc starting at 180 degrees, and both get a
      legend row. */
  lemma {:induction false} FoodAndTransportExample()
    ensures Sectors([CategoryTotal("Food", 30.0), CategoryTotal("Transport", 10.0)]) ==
      [Sector("Food", Color(0xFFE57373), -90.0, 270.0), Sector("Transport", Color(0xFF81C784), 180.0, 90.0)]
    ensures Legend([CategoryTotal("Food", 30.0), CategoryTotal("Transport", 10.0)]) ==
      [LegendEntry(Color(0xFFE57373), "Food"), LegendEntry(Color(0xFF81C784), "Transport")]
  {
    var data := [CategoryTotal("Food", 30.0), CategoryTotal("Transport", 10.0)];
    assert data[..1][..0] == [];
    assert data[..1] == [data[0]];
    assert data[..0] == [];
    assert data[..|data| - 1] == data[..1];
    assert ValuesSum(data) == 40.0;
  }

  /** A map with no amount above zero has an empty legend. */
  lemma {:induction false} LegendWithoutPositiveAmounts(data: seq<CategoryTotal>)
    requires forall i :: 0 <= i < |data| ==> data[i].amount <= 0.0
    ensures Legend(data) == []
  {
    if data != [] {
      LegendWithoutPositiveAmounts(data[1..]);
    }
  }

  /** For example, an empty map and a map whose only value is zero draw nothing. */
  lemma {:induction false} EmptyChartExamples()
    ensures Sectors([]) == [] && Legend([]) == []
    ensures Sectors([CategoryTotal("X", 0.0)]) == [] && Legend([CategoryTotal("X", 0.0)]) == []
  {
    assert [CategoryTotal("X", 0.0)][..0] == [];
  }
}

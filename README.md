# Personal expense tracker — a verified model of its core

This project models the core logic of an Android personal expense tracker written in Kotlin. It covers:

- the expense record;
- the list of records that the overview, add and edit screens share and update in place;
- the per-category aggregation that feeds the pie chart;
- the chart itself: colours, sector layout and legend;
- the month/year selector;
- the category icon table;
- the description preview and the index guards on the edit route.

Modules, one per part of the program:

| file | module | models |
|---|---|---|
| `wrappers.dfy` | `Wrappers` | `Option`, standing for Kotlin's nullable types |
| `data.dfy` | `Data` | the `Expense` record |
| `category_icon.dfy` | `CategoryIcons` | the icon of each category in the list rows |
| `pie_chart.dfy` | `PieChart` | `categoryColor`, month stepping, the legend, the sector loop |
| `overview.dfy` | `Overview` | the grand total, `groupBy`/`mapValues`/`sumOf`, the description preview, the edit-button and edit-route guards |
| `expense_screens.dfy` | `ExpenseScreens` | `ifBlank`, the save-button checks, the `ExpenseList` class with the add and edit operations |

Modelling choices:

- **Doubles are reals.** A Kotlin `Double` (and the chart's `Float` angles) is modelled as a Dafny `real`.
- **Parsing is a parameter.** The result of `toDoubleOrNull` / `toIntOrNull` is passed in as an `Option`, where `None` means "does not parse".
- **The category map is a sequence.** `groupBy` builds a `LinkedHashMap`, and `mapValues` over it keeps that order, so the resulting `Map<String, Double>` iterates its keys in first-occurrence order. It is modelled as a sequence of `CategoryTotal` entries with distinct keys, in that order.
- **The shared list is a class.** The `MutableList<Expense>` becomes the `seq` field of the class `ExpenseList`. Its methods reassign that field.
- **The chart loop is a method.** The loop of `ExpenseChartContainer` that accumulates `startAngle` is the method `LayoutSectors`. It is proved equal to the closed-form function `Sectors`, and the chart lemmas are about that function.
- **Month stepping is Java's arithmetic.** `LocalDate.of(y, m, 1).minusMonths(1)` / `plusMonths(1)` are modelled by the arithmetic of `LocalDate.plusMonths`, where the month count is `year * 12 + (month - 1)`. The exceptions (an invalid month, or a year outside ±999999999) become `None`.

Three behaviours of the code worth knowing:

- **Category checks.** Only the add screen rejects an empty category (MainActivity.kt:556). The edit screen's save button checks just the amount (MainActivity.kt:783-786), so an edit can store an empty category (`ExpenseScreens.EditAcceptsEmptyCategory`).
- **Record fields.** The record has the four fields declared in data.kt:8-14. The edit screen (MainActivity.kt:791) and the list rows (MainActivity.kt:335) also refer to a `dateTime` field that `data.kt` does not declare. The model drops it. The edited record passes no `imageUri`, so it gets the default `null` (MainActivity.kt:787-792).
- **"Other" versus "Others".** The category picker offers "Other" (MainActivity.kt:592), but the icon table knows only "Others" (CategoryIcon.kt:27). So a picked "Other" gets the fallback `Add` icon, and it gets gray in the chart (`ExpenseScreens.PickerIconsAndColors`).

## Model

| member | source | states |
|---|---|---|
| CategoryIcons.IconFor | app/src/main/java/com/example/personalexpensetracker/CategoryIcon.kt:21-29 | a category gets the fallback `Add` icon exactly when it is not one of the six named categories |
| CategoryIcons.IconsDistinct | app/src/main/java/com/example/personalexpensetracker/CategoryIcon.kt:21-29 | the six named categories have six different icons |
| CategoryIcons.IconTable | app/src/main/java/com/example/personalexpensetracker/CategoryIcon.kt:21-29 | each entry of the table; "", "Other" and "food" (matching is case-sensitive) fall back to `Add` |
| PieChart.CategoryColor | app/src/main/java/com/example/personalexpensetracker/PieChart.kt:32-41 | the colour is something other than gray exactly when the category is one of Food, Transport, Shopping, Entertainment, Utilities |
| PieChart.CategoryColorsDistinct | app/src/main/java/com/example/personalexpensetracker/PieChart.kt:32-41 | the five chart categories have five different colours |
| PieChart.OtherLabelsAreGray | app/src/main/java/com/example/personalexpensetracker/PieChart.kt:32-41 | "Other", "Others" and "" are drawn gray (0xFF888888) |
| PieChart.IsValidMonthYear | app/src/main/java/com/example/personalexpensetracker/PieChart.kt:56-73 | the month/year that `LocalDate.of(selectedYear, selectedMonth, 1)` accepts: a month in 1..12 and a year in the supported range |
| PieChart.PlusMonths | app/src/main/java/com/example/personalexpensetracker/PieChart.kt:54-75 | fails exactly when the input month/year is invalid or the resulting year leaves the supported range; otherwise the result is a valid month/year whose month count is the input's plus the step |
| PieChart.PreviousMonthSteps | app/src/main/java/com/example/personalexpensetracker/PieChart.kt:54-58 | "previous" from January is December of the year before; from any later month it is the month before in the same year |
| PieChart.NextMonthSteps | app/src/main/java/com/example/personalexpensetracker/PieChart.kt:71-75 | "next" from December is January of the year after; from any earlier month it is the month after in the same year |
| PieChart.PreviousMonth | app/src/main/java/com/example/personalexpensetracker/PieChart.kt:54-58 | the back button succeeds exactly from a valid month/year other than January of the earliest year, and lands one month earlier |
| PieChart.NextMonth | app/src/main/java/com/example/personalexpensetracker/PieChart.kt:71-75 | the forward button succeeds exactly from a valid month/year other than December of the latest year, and lands one month later |
| PieChart.SteppingPastRangeFails | app/src/main/java/com/example/personalexpensetracker/PieChart.kt:54-75 | stepping back from January of the earliest year, forward from December of the latest, or from a month outside 1..12, fails |
| PieChart.NextAfterPrevious | app/src/main/java/com/example/personalexpensetracker/PieChart.kt:54-75 | "next" undoes "previous" for every month/year where "previous" succeeds |
| PieChart.PreviousAfterNext | app/src/main/java/com/example/personalexpensetracker/PieChart.kt:54-75 | "previous" undoes "next" for every month/year where "next" succeeds |
| PieChart.ValuesSum | app/src/main/java/com/example/personalexpensetracker/PieChart.kt:149 | `expenseData.values.sum()`: the amounts added up in map order; its properties are stated by `ValuesSumAppend` and used by every chart lemma |
| PieChart.ValuesSumAppend | app/src/main/java/com/example/personalexpensetracker/PieChart.kt:149 | `values.sum()` of two concatenated maps is the sum of their sums |
| PieChart.Legend | app/src/main/java/com/example/personalexpensetracker/PieChart.kt:120-135 | the rows of the legend: never more rows than entries, and every row's dot has its category's colour |
| PieChart.LegendAppend | app/src/main/java/com/example/personalexpensetracker/PieChart.kt:120-121 | the legend keeps map order: the legend of a concatenation is the concatenation of the legends |
| PieChart.LegendMembership | app/src/main/java/com/example/personalexpensetracker/PieChart.kt:120-135 | a legend row (colour, name) appears exactly when some entry of that category has an amount above zero, and its colour is the category's colour |
| PieChart.LegendKeepsPositive | app/src/main/java/com/example/personalexpensetracker/PieChart.kt:120-135 | when every amount is above zero, the legend has one row per entry, in map order |
| PieChart.SweepAngle | app/src/main/java/com/example/personalexpensetracker/PieChart.kt:154 | one arc's sweep; `SweepAngleShare` states that it equals `amount / total * 360` |
| PieChart.Sectors | app/src/main/java/com/example/personalexpensetracker/PieChart.kt:149-164 | the arcs in closed form: none for a total not above zero, else one per entry from the running start angle; its properties are the lemmas below |
| PieChart.SweepAngleShare | app/src/main/java/com/example/personalexpensetracker/PieChart.kt:154 | the sweep is `amount / total * 360`; it is zero exactly for a zero amount and positive exactly for a positive one |
| PieChart.LayoutSectors | app/src/main/java/com/example/personalexpensetracker/PieChart.kt:149-164 | the loop that draws an arc per entry and advances `startAngle` produces exactly the sectors of `Sectors` |
| PieChart.NoSectorsWithoutPositiveTotal | app/src/main/java/com/example/personalexpensetracker/PieChart.kt:149-150 | nothing is drawn when the total is not above zero |
| PieChart.SectorPerEntry | app/src/main/java/com/example/personalexpensetracker/PieChart.kt:153-158 | with a positive total there is one arc per entry, zero amounts included; it has the entry's category and colour and a sweep of `amount / total * 360` |
| PieChart.SectorsContiguous | app/src/main/java/com/example/personalexpensetracker/PieChart.kt:152-163 | the first arc starts at -90 degrees; every later arc starts where the one before it ends |
| PieChart.SweepSumPrefix | app/src/main/java/com/example/personalexpensetracker/PieChart.kt:153-164 | the sweeps of the first k arcs add up to the sweep of the first k amounts' sum |
| PieChart.SweepsCoverCircle | app/src/main/java/com/example/personalexpensetracker/PieChart.kt:149-164 | with a positive total the sweeps add up to 360 degrees and the last arc ends at 270 degrees |
| PieChart.LegendMatchesSectors | app/src/main/java/com/example/personalexpensetracker/PieChart.kt:120-164 | with a positive total a category has a legend row exactly when it has an arc of positive sweep |
| PieChart.FoodAndTransportExample | app/src/main/java/com/example/personalexpensetracker/PieChart.kt:120-164 | Food 30 and Transport 10 give a 270-degree arc from -90 and a 90-degree arc from 180, and two legend rows |
| PieChart.LegendWithoutPositiveAmounts | app/src/main/java/com/example/personalexpensetracker/PieChart.kt:120-121 | a map with no amount above zero has no legend rows |
| PieChart.EmptyChartExamples | app/src/main/java/com/example/personalexpensetracker/PieChart.kt:149-150 | examples: the empty map and the map `X -> 0` draw no arcs and no legend rows |
| Overview.Total | app/src/main/java/com/example/personalexpensetracker/MainActivity.kt:266 | `expenses.sumOf { it.amount }`; `CategoryTotalsSumToTotal` ties it to the chart's values |
| Overview.OfCategory | app/src/main/java/com/example/personalexpensetracker/MainActivity.kt:254-256 | the records of one category, in list order: no more than the whole list, all of that category |
| Overview.TotalPositive | app/src/main/java/com/example/personalexpensetracker/MainActivity.kt:266 | the grand total of a non-empty list of positive amounts is positive |
| Overview.OfCategoryPositive | app/src/main/java/com/example/personalexpensetracker/MainActivity.kt:254-256 | a category that occurs in a list of positive amounts has a positive total |
| Overview.FindGroup | app/src/main/java/com/example/personalexpensetracker/MainActivity.kt:255 | the position found is the first group with that key, or the end when no group has it |
| Overview.AddToGroup | app/src/main/java/com/example/personalexpensetracker/MainActivity.kt:255 | a record joins the end of its category's group, or opens a new group after all the others |
| Overview.GroupByCategory | app/src/main/java/com/example/personalexpensetracker/MainActivity.kt:254-255 | `groupBy`, filing the records one at a time with `AddToGroup`; what it yields is stated by `GroupByCategoryGroups` and `GroupOrderStable` |
| Overview.GroupByCategoryGroups | app/src/main/java/com/example/personalexpensetracker/MainActivity.kt:254-255 | `groupBy` yields one group per category that occurs (keys distinct, no other keys), each holding exactly the records of its category in list order |
| Overview.GroupOrderStable | app/src/main/java/com/example/personalexpensetracker/MainActivity.kt:254-255 | keys appear in first-occurrence order: the groups of a prefix of the list are the first groups of the whole list |
| Overview.SumGroups | app/src/main/java/com/example/personalexpensetracker/MainActivity.kt:256 | `mapValues` keeps each key in place and replaces its records by their total |
| Overview.ExpenseByCategory | app/src/main/java/com/example/personalexpensetracker/MainActivity.kt:254-256 | one entry per category that occurs in the list (distinct keys, no others), whose amount is the total of exactly that category's records |
| Overview.CategoryTotalsSumToTotal | app/src/main/java/com/example/personalexpensetracker/MainActivity.kt:254-266 | the per-category totals sum to the displayed grand total |
| Overview.ChartOfPositiveExpenses | app/src/main/java/com/example/personalexpensetracker/MainActivity.kt:254-273 | for a non-empty list of positive amounts the chart is drawn, every category gets an arc of positive sweep and a legend row |
| Overview.AggregationExample | app/src/main/java/com/example/personalexpensetracker/MainActivity.kt:254-256 | Food 20, Transport 10, Food 10 aggregate to Food 30, Transport 10, in that order |
| Overview.DescriptionText | app/src/main/java/com/example/personalexpensetracker/MainActivity.kt:319 | the stored description, or "No description" when there is none |
| Overview.ShowsExpandHint | app/src/main/java/com/example/personalexpensetracker/MainActivity.kt:320-341 | the "Tap to expand" hint shows exactly when the row is collapsed and the text is over 50 characters |
| Overview.Preview | app/src/main/java/com/example/personalexpensetracker/MainActivity.kt:318-325 | an expanded row shows the full text; a collapsed row shows at most 53 characters; whatever differs from the full text is its first 50 characters plus "...", and then the expand hint is shown |
| Overview.PreviewOfMissingDescription | app/src/main/java/com/example/personalexpensetracker/MainActivity.kt:319-320 | a missing description reads "No description" and is never truncated |
| Overview.PreviewTruncates | app/src/main/java/com/example/personalexpensetracker/MainActivity.kt:320-322 | a collapsed text longer than 50 characters is shown as its first 50 plus "...", 53 characters in all |
| Overview.HintWithNothingHidden | app/src/main/java/com/example/personalexpensetracker/MainActivity.kt:320-341 | a 53-character text ending in "..." shows the expand hint although the preview equals the full text |
| Overview.InIndices | app/src/main/java/com/example/personalexpensetracker/MainActivity.kt:200-351 | `index in expenses.indices`, the index test shared by the edit route, the edit button and the edit screen's guard |
| Overview.EditButton | app/src/main/java/com/example/personalexpensetracker/MainActivity.kt:350-359 | the edit button navigates, to its own index, exactly when that index is in range |
| Overview.EditRoute | app/src/main/java/com/example/personalexpensetracker/MainActivity.kt:199-205 | the edit screen opens exactly when the route argument parses to an index in range, and for that index |
| Overview.EditButtonOpensEditScreen | app/src/main/java/com/example/personalexpensetracker/MainActivity.kt:199-205 | every index the edit button lets through opens the edit screen for the same record |
| ExpenseScreens.IsWhitespace | app/src/main/java/com/example/personalexpensetracker/MainActivity.kt:567 | the characters `Char.isWhitespace` accepts, which `ifBlank` tests |
| ExpenseScreens.IsBlank | app/src/main/java/com/example/personalexpensetracker/MainActivity.kt:567 | `isBlank`: every character is whitespace, the empty text included |
| ExpenseScreens.StoredDescription | app/src/main/java/com/example/personalexpensetracker/MainActivity.kt:567 | a blank description field stores nothing; any other text is stored exactly as typed |
| ExpenseScreens.PrefillDescription | app/src/main/java/com/example/personalexpensetracker/MainActivity.kt:689 | the edit screen's field is empty for a missing description, else the stored text |
| ExpenseScreens.PrefillRoundTrip | app/src/main/java/com/example/personalexpensetracker/MainActivity.kt:689 | a missing or non-blank stored description survives an edit that leaves the field alone |
| ExpenseScreens.BlankDescriptionLostByEdit | app/src/main/java/com/example/personalexpensetracker/MainActivity.kt:689-790 | a blank stored description, which only a record read back from storage can have, is saved back as none by an untouched edit |
| ExpenseScreens.StoredDescriptionExamples | app/src/main/java/com/example/personalexpensetracker/MainActivity.kt:567 | "" and whitespace-only input store nothing; " lunch " is stored with its spaces |
| ExpenseScreens.ValidAmount | app/src/main/java/com/example/personalexpensetracker/MainActivity.kt:559-560 | an amount is accepted when it parses and is above zero |
| ExpenseScreens.CheckNewExpense | app/src/main/java/com/example/personalexpensetracker/MainActivity.kt:556-562 | saved exactly when a category is set and the amount parses above zero; an empty category is reported first, whatever the amount |
| ExpenseScreens.CheckEditedExpense | app/src/main/java/com/example/personalexpensetracker/MainActivity.kt:784-786 | saved exactly when the index is in range and the amount parses above zero; an index out of range is reported first; the category is never checked |
| ExpenseScreens.EditAcceptsEmptyCategory | app/src/main/java/com/example/personalexpensetracker/MainActivity.kt:784-792 | the add screen rejects an empty category that the edit screen saves |
| ExpenseScreens.StorableListDrawsChart | app/src/main/java/com/example/personalexpensetracker/MainActivity.kt:254-273 | a non-empty list of records the screens can store always draws its chart with an arc and a legend row per category |
| ExpenseScreens.PickerIconsAndColors | app/src/main/java/com/example/personalexpensetracker/MainActivity.kt:592 | of the picker's choices exactly "Other" gets the fallback icon and exactly "Other" is drawn gray |
| ExpenseScreens.RemoveAt | app/src/main/java/com/example/personalexpensetracker/MainActivity.kt:796 | `removeAt` shortens the list by one and shifts every later element down |
| ExpenseScreens.InsertAt | app/src/main/java/com/example/personalexpensetracker/MainActivity.kt:797 | `add(index, x)` lengthens the list by one, puts x at index and shifts every later element up |
| ExpenseScreens.InsertUndoesRemove | app/src/main/java/com/example/personalexpensetracker/MainActivity.kt:795-797 | removing an element and inserting it back at its index restores the list |
| ExpenseScreens.RemoveUndoesInsert | app/src/main/java/com/example/personalexpensetracker/MainActivity.kt:796-797 | inserting an element and removing it again restores the list |
| ExpenseScreens.ExpenseList.constructor | app/src/main/java/com/example/personalexpensetracker/MainActivity.kt:179 | the shared list starts empty (`mutableStateListOf<Expense>()`) |
| ExpenseScreens.ExpenseList.SaveNewExpense | app/src/main/java/com/example/personalexpensetracker/MainActivity.kt:556-570 | on success the new record (exact category and amount, blank description stored as none, image attached) is appended and nothing else changes; on a rejection the list is unchanged; storable lists stay storable |
| ExpenseScreens.ExpenseList.SaveEditedExpense | app/src/main/java/com/example/personalexpensetracker/MainActivity.kt:783-797 | on success the set/remove/insert sequence replaces exactly the record at the index by the edited one, which carries no image; length and all other records unchanged; on a rejection the list is unchanged; storable lists stay storable |

## Left out

- Camera capture, gallery selection, text recognition of receipts, toasts, navigation and all layout are not modelled. The model states only the decision each guard takes. `Navigation.kt` is not part of this model.
- Loading and saving the JSON file (`ExpenseDataManager`) is not modelled. Records read back from storage are therefore unconstrained. This is why `AllStorable` is stated as a preserved invariant and not as an unconditional one.
- The delete action is not modelled, because the list screen calls a `deleteExpense` that the source does not define.
- The date and time pickers, their formatting and the `dateTime` text are not modelled, because `data.kt` declares no such field.
- The month name shown by the selector (`Month.getDisplayName`) is not modelled. The selector composable (PieChart.kt:43) is called from none of the screens, and the `selectedMonth`/`selectedYear` state of MainActivity.kt:220-221 is set once and never read. So `PieChart.PreviousMonth` and `PieChart.NextMonth` model the selector's own buttons, which the screens never reach. The chart header is a fixed string, and the chart always shows the whole list.
- The edit screen's amount prefill (`amount.toString()`) is not modelled. What text a `Double` prints as is outside the model.
- ExpenseScreens.CheckEditedExpense: the edit screen reads `expenses[expenseIndex]` to fill its fields (MainActivity.kt:688-690) before its own index guard (MainActivity.kt:719-723). So in the source an index out of range throws `IndexOutOfBoundsException` instead of showing "Expense not found". The model returns `ExpenseNotFound` and leaves the list unchanged. Only the edit route's guard (`Overview.EditRoute`, MainActivity.kt:199-205) keeps such an index from reaching the screen.
- ExpenseScreens.ValidAmount: takes the already parsed amount as a real. So it does not capture that `toDoubleOrNull` accepts "NaN" and "Infinity", which the source's `<= 0` test lets through.
- PieChart.SweepsCoverCircle: holds for exact reals. The source rounds each sweep to `Float` and accumulates `startAngle` in `Float`, so its arcs can miss 270 by a rounding error.
- PieChart.SectorPerEntry: the sweep is stated for exact reals. `Double` division and the `toFloat` conversion are not modelled.
- Overview.Preview: lengths count `char`s. Kotlin's `length` and `take` count UTF-16 code units, so a text with characters outside the Basic Multilingual Plane counts differently.
- ExpenseScreens.IsWhitespace: covers the characters `Char.isWhitespace` accepts on the JVM. It is written as a fixed table rather than read from Unicode data.

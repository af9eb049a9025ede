/** The add and edit screens (MainActivity.kt, `AddExpenseScreen` and
    `EditExpenseScreen`) acting on the shared, mutable list of records. */
module ExpenseScreens {
  import opened Wrappers
  import opened Data
  import opened CategoryIcons
  import opened PieChart
  import opened Overview

  // ---------------------------------------------------------------------------
  // The description field

  /** Kotlin's `Char.isWhitespace`: the ASCII controls tab to carriage return,
      the separators U+001C to U+001F, and the Unicode space, line and paragraph
      separators (no-break spaces included). */
  predicate IsWhitespace(c: char)
  {
    var n := c as int;
    || 0x09 <= n <= 0x0D
    || 0x1C <= n <= 0x20
    || n == 0xA0 || n == 0x1680
    || 0x2000 <= n <= 0x200A
    || n == 0x2028 || n == 0x2029 || n == 0x202F || n == 0x205F || n == 0x3000
  }

  /** `CharSequence.isBlank`: empty, or whitespace only. */
  predicate IsBlank(text: string)
  {
    forall i :: 0 <= i < |text| ==> IsWhitespace(text[i])
  }

  /** `description.ifBlank { null }`: what the description field stores. A blank
      field stores no description; anything else is kept exactly as typed
      (surrounding spaces included). */
  function StoredDescription(text: string): (stored: Option<string>)
    ensures stored == None <==> IsBlank(text)
    ensures stored != None ==> stored == Some(text) && !IsBlank(stored.value)
  {
    if IsBlank(text) then None else Some(text)
  }

  /** `expenses[expenseIndex].description ?: ""`: how the edit screen fills its
      description field. */
  function PrefillDescription(description: Option<string>): (text: string)
    ensures description == None ==> text == ""
    ensures description != None ==> text == description.value
  {
    match description
    case None => ""
    case Some(text) => text
  }

  /** A stored description survives an edit that leaves the field alone: the
      field is filled from it and saved back unchanged, provided it is not blank
      (the add and edit screens never store a blank one). */
  lemma {:induction false} PrefillRoundTrip(description: Option<string>)
    requires description == None || !IsBlank(description.value)
    ensures StoredDescription(PrefillDescription(description)) == description
  {
    if description == None {
      assert IsBlank("");
    }
  }

  /** A blank stored description (possible only for a record read back from
      storage) does not survive an untouched edit: it is saved back as none. */
  lemma {:induction false} BlankDescriptionLostByEdit(text: string)
    requires IsBlank(text)
    ensures StoredDescription(PrefillDescription(Some(text))) == None
  {
  }

  /** Whitespace-only input is dropped, while text with a single visible
      character is stored whole. */
  lemma {:induction false} StoredDescriptionExamples()
    ensures StoredDescription("") == None
    ensures StoredDescription(" \t\n") == None
    ensures StoredDescription(" lunch ") == Some(" lunch ")
  {
    assert !IsWhitespace(" lunch "[1]);
  }

  // ---------------------------------------------------------------------------
  // Validation

  /** The outcome of pressing a save button. Everything but `Saved` shows a
      toast and leaves the list alone. */
  datatype SaveOutcome =
    | Saved            // the record is stored and the screen is popped
    | CategoryMissing  // "Please select a category"
    | AmountInvalid    // "Enter a valid amount"
    | ExpenseNotFound  // the edit screen's "Expense not found" guard: its index is out of range

  /** The amount field parsed with `toDoubleOrNull` (`None` when it does not
      parse) is accepted when it is above zero. */
  predicate ValidAmount(amount: Option<real>)
  {
    amount.Some? && amount.value > 0.0
  }

  /** The add screen's checks, category first: a record is saved exactly when a
      category was picked and the amount parses to a positive number. */
  function CheckNewExpense(category: string, amount: Option<real>): (outcome: SaveOutcome)
    ensures outcome == Saved <==> category != "" && ValidAmount(amount)
    ensures outcome == CategoryMissing <==> category == ""
    ensures outcome == AmountInvalid <==> category != "" && !ValidAmount(amount)
    ensures outcome != ExpenseNotFound
  {
    if category == "" then CategoryMissing
    else if !ValidAmount(amount) then AmountInvalid
    else Saved
  }

  /** The edit screen's checks: an index out of range saves nothing (the
      screen's own guard; the edit route never opens it for such an index);
      otherwise only the amount is checked. The category is NOT checked, so an
      edit can store an empty one. */
  function CheckEditedExpense(index: int, count: nat, amount: Option<real>): (outcome: SaveOutcome)
    ensures outcome == Saved <==> InIndices(index, count) && ValidAmount(amount)
    ensures outcome == ExpenseNotFound <==> !InIndices(index, count)
    ensures outcome == AmountInvalid <==> InIndices(index, count) && !ValidAmount(amount)
    ensures outcome != CategoryMissing
  {
    if !InIndices(index, count) then ExpenseNotFound
    else if !ValidAmount(amount) then AmountInvalid
    else Saved
  }

  /** Unlike the add screen, the edit screen accepts a cleared category. */
  lemma {:induction false} EditAcceptsEmptyCategory()
    ensures CheckNewExpense("", Some(5.0)) == CategoryMissing
    ensures CheckEditedExpense(0, 1, Some(5.0)) == Saved
  {
  }

  /** A record the add or edit screen may store: a positive amount, and no blank
      description. */
  ghost predicate Storable(e: Expense)
  {
    e.amount > 0.0 && (e.description == None || !IsBlank(e.description.value))
  }

  ghost predicate AllStorable(es: seq<Expense>)
  {
    forall i :: 0 <= i < |es| ==> Storable(es[i])
  }

  /** A non-empty list of storable records always draws its chart, with an arc
      and a legend row for every category. */
  lemma {:induction false} StorableListDrawsChart(es: seq<Expense>)
    requires |es| > 0 && AllStorable(es)
    ensures ValuesSum(ExpenseByCategory(es)) > 0.0
    ensures |Sectors(ExpenseByCategory(es))| == |ExpenseByCategory(es)|
    ensures |Legend(ExpenseByCategory(es))| == |ExpenseByCategory(es)|
    ensures forall i :: 0 <= i < |ExpenseByCategory(es)| ==>
      Legend(ExpenseByCategory(es))[i] == LegendEntry(CategoryColor(ExpenseByCategory(es)[i].category), ExpenseByCategory(es)[i].category)
  {
    ChartOfPositiveExpenses(es);
  }

  // ---------------------------------------------------------------------------
  // The category picker

  /** The choices of `CategorySelectionScreen`. */
  const PickerCategories: seq<string> := ["Food", "Transport", "Shopping", "Entertainment", "Utilities", "Other"]

  /** Of the picker's choices, only "Other" has no icon of its own (the icon
      table knows "Others") and no chart colour: it gets the fallback icon and
      gray. */
  lemma {:induction false} PickerIconsAndColors(c: string)
    requires c in PickerCategories
    ensures IconFor(c) == Add <==> c == "Other"
    ensures CategoryColor(c) == Gray <==> c == "Other"
  {
    assert c in IconCategories <==> c != "Other";
    assert c in ChartCategories <==> c != "Other";
  }

  // ---------------------------------------------------------------------------
  // List operations used by the edit screen

  /** `MutableList.removeAt(index)`. */
  function RemoveAt<T>(s: seq<T>, index: nat): (r: seq<T>)
    requires index < |s|
    ensures |r| == |s| - 1
    ensures forall j :: 0 <= j < index ==> r[j] == s[j]
    ensures forall j :: index <= j < |r| ==> r[j] == s[j + 1]
  {
    s[..index] + s[index + 1..]
  }

  /** `MutableList.add(index, element)`. */
  function InsertAt<T>(s: seq<T>, index: nat, x: T): (r: seq<T>)
    requires index <= |s|
    ensures |r| == |s| + 1
    ensures r[index] == x
    ensures forall j :: 0 <= j < index ==> r[j] == s[j]
    ensures forall j :: index < j < |r| ==> r[j] == s[j - 1]
  {
    s[..index] + [x] + s[index..]
  }

  /** Removing an element and inserting it back where it was restores the list. */
  lemma {:induction false} InsertUndoesRemove<T>(s: seq<T>, index: nat)
    requires index < |s|
    ensures InsertAt(RemoveAt(s, index), index, s[index]) == s
  {
    var r := InsertAt(RemoveAt(s, index), index, s[index]);
    assert |r| == |s|;
    forall j | 0 <= j < |s| ensures r[j] == s[j] {
    }
  }

  /** Inserting an element and removing it again restores the list. */
  lemma {:induction false} RemoveUndoesInsert<T>(s: seq<T>, index: nat, x: T)
    requires index <= |s|
    ensures RemoveAt(InsertAt(s, index, x), index) == s
  {
    var r := RemoveAt(InsertAt(s, index, x), index);
    assert |r| == |s|;
    forall j | 0 <= j < |s| ensures r[j] == s[j] {
    }
  }

  // ---------------------------------------------------------------------------
  // The list of records

  /** The `expenses` list shared by the screens. Loading from and saving to the
      JSON file are not part of this model, so records read back from storage
      are not checked by anything; the screens only ever add storable ones. */
  class ExpenseList {
    var expenses: seq<Expense>

    constructor()
      ensures expenses == []
    {
      expenses := [];
    }

    /** The add screen's save button: on success the new record (its image
        attached, a blank description stored as none) is appended at the end and
        every earlier record is left as it was; otherwise nothing changes. */
    method SaveNewExpense(category: string, description: string, amount: Option<real>, imageUri: Option<string>)
      returns (outcome: SaveOutcome)
      modifies this
      ensures outcome == CheckNewExpense(category, amount)
      ensures outcome == Saved ==>
        expenses == old(expenses) + [Expense(category, amount.value, StoredDescription(description), imageUri)]
      ensures outcome != Saved ==> expenses == old(expenses)
      ensures AllStorable(old(expenses)) ==> AllStorable(expenses)
    {
      outcome := CheckNewExpense(category, amount);
      if outcome == Saved {
        var added := Expense(category, amount.value, StoredDescription(description), imageUri);
        expenses := expenses + [added];
      }
    }

    /** The edit screen's save button: on success the record at `index` is
        replaced by the edited one, which carries no image, in three steps (set,
        remove, insert at the same index) whose net effect is a single
        replacement; the length and every other record are unchanged. */
    method SaveEditedExpense(index: int, category: string, description: string, amount: Option<real>)
      returns (outcome: SaveOutcome)
      modifies this
      ensures outcome == CheckEditedExpense(index, |old(expenses)|, amount)
      ensures outcome == Saved ==>
        expenses == old(expenses)[index := Expense(category, amount.value, StoredDescription(description), None)]
      ensures outcome != Saved ==> expenses == old(expenses)
      ensures |expenses| == |old(expenses)|
      ensures forall j :: 0 <= j < |expenses| && j != index ==> expenses[j] == old(expenses)[j]
      ensures AllStorable(old(expenses)) ==> AllStorable(expenses)
    {
      outcome := CheckEditedExpense(index, |expenses|, amount);
      if outcome == Saved {
        var updated := Expense(category, amount.value, StoredDescription(description), None);
        expenses := expenses[index := updated];
        ghost var replaced := expenses;
        expenses := RemoveAt(expenses, index);
        expenses := InsertAt(expenses, index, updated);
        InsertUndoesRemove(replaced, index);
      }
    }
  }
}

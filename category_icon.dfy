/** The category-to-icon table of the `CategoryIcon` composable (CategoryIcon.kt). */
module CategoryIcons {

  /** The Material icons the table can choose. */
  datatype Icon = Star | Place | ShoppingCart | Notifications | Home | Check | Add

  /** The six labels the table knows. */
  const IconCategories: seq<string> :=
    ["Food", "Transport", "Shopping", "Entertainment", "Utilities", "Others"]

  /** The icon shown beside a category label: a dedicated icon for the six known
      labels (exact, case-sensitive match) and `Add` for every other label. */
  function IconFor(category: string): (icon: Icon)
    ensures icon == Add <==> category !in IconCategories
  {
    if category == "Food" then Star
    else if category == "Transport" then Place
    else if category == "Shopping" then ShoppingCart
    else if category == "Entertainment" then Notifications
    else if category == "Utilities" then Home
    else if category == "Others" then Check
    else Add
  }

  /** The known labels get pairwise-distinct icons, so the icon identifies the label. */
  lemma {:induction false} IconsDistinct(a: string, b: string)
    requires a in IconCategories && b in IconCategories
    ensures IconFor(a) == IconFor(b) <==> a == b
  {
  }

  /** The fixed entries of the table. */
  lemma {:induction false} IconTable()
    ensures IconFor("Food") == Star && IconFor("Transport") == Place
    ensures IconFor("Shopping") == ShoppingCart && IconFor("Entertainment") == Notifications
    ensures IconFor("Utilities") == Home && IconFor("Others") == Check
    ensures IconFor("") == Add && IconFor("Other") == Add && IconFor("food") == Add
  {
  }
}

/** The one domain record of the expense tracker (data.kt). */
module Data {
  import opened Wrappers

  /** One expense as the app stores it: a category label, an amount, an optional
      description and an optional reference to a receipt image. Kotlin's `Double`
      is modelled as `real`; `null` is `None`. */
  datatype Expense = Expense(
    category: string,
    amount: real,
    description: Option<string>,
    imageUri: Option<string>
  )
}

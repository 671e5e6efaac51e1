/** The retirement records the dashboard works on, after loading and coercion. */
module Records {

  datatype Option<T> = None | Some(value: T)

  /** One row of the retirement dataset once the date and the quantity have been
      coerced: `year` is None when the retirement date did not parse, `quantity`
      is None when the quantity did not coerce to a number, and every text
      column may be missing. */
  datatype Record = Record(
    beneficiary: Option<string>,
    year: Option<int>,
    quantity: Option<int>,
    projectType: Option<string>,
    methodology: Option<string>,
    country: Option<string>)

  /** The three categorical columns a user can filter on. */
  datatype Field = ProjectType | Methodology | Country

  function FieldValue(r: Record, f: Field): Option<string>
  {
    match f
    case ProjectType => r.projectType
    case Methodology => r.methodology
    case Country => r.country
  }

  /** What a record adds to a sum: a missing quantity is skipped, so it adds 0. */
  function Contribution(r: Record): int
  {
    if r.quantity.Some? then r.quantity.value else 0
  }
}

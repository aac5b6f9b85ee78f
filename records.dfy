/**
  The values the dashboard works on: raw spreadsheet cells, timestamps and the
  normalised visit record that the view builder filters and aggregates.
 */
module Records {
  import opened Outcomes

  /**
    One cell of the responses sheet as the row fetch delivers it: text, or a
    finite number the fetch recognised in the cell. Blank cells arrive as
    empty text. The NaN and infinite floats the fetch makes of text such as
    "nan" or "inf" are not represented.
   */
  datatype Cell = Text(s: string) | Number(x: real)

  /** A calendar day; only its order matters here. */
  type Date = int

  /**
    A parsed submission time: NaT (pandas' missing timestamp) or a day and a
    time of day within it. The filter looks only at the day.
   */
  datatype Timestamp = NaT | At(date: Date, time: nat)

  /**
    One normalised row of the visits table. A yes/no flag or the issue list is
    None where pandas holds a missing value (NaN).
   */
  datatype Visit = Visit(
    submitted: Timestamp,
    dealer: Cell,
    dealerCode: Option<Cell>,
    showroom: Option<bool>,
    swift: Option<bool>,
    lending: Option<bool>,
    buyNow: Option<bool>,
    issues: Option<seq<string>>)
}

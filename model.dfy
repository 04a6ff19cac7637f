/** The records the engine works on. Ingestion (spreadsheet parsing) is not
    part of this model; its output is given as these values. */
module Model {
  import opened Basics

  /** A raw spreadsheet value as the engine sees it: empty (None or NaN),
      a value `float()` accepts (with the number it gives), or anything else. */
  datatype Cell = Null | Num(x: real) | NonNumeric

  /** One row of a data sheet: its description and its value per period label. */
  datatype RawRecord = RawRecord(description: Option<string>, values: map<string, Cell>)

  /** A loaded data source: its ordered period labels and its rows by code. */
  datatype DataSource = DataSource(periods: seq<string>, data: map<string, RawRecord>)

  /** An account of a plan: `tipo` is the type label as stored, `formula`
      the text extracted from a `calculo(...)` label, `links` the raw
      link string per data-source name. */
  datatype Account = Account(
    code: string,
    description: Option<string>,
    tipo: string,
    formula: Option<string>,
    links: map<string, string>)

  /** A plan (chart of accounts): accounts in code order and the sorted
      names of the loaded data sources it links to. */
  datatype Plan = Plan(name: string, accounts: seq<Account>, linked: seq<string>)

  /** An account as emitted in a view: the account without its links, with
      one value per period and its level. */
  datatype ViewAccount = ViewAccount(
    code: string,
    description: Option<string>,
    tipo: string,
    formula: Option<string>,
    values: map<string, real>,
    level: int)

  /** The result of resolving one plan against one data source. */
  datatype View = View(planName: string, dsName: string, periods: seq<string>, accounts: seq<ViewAccount>)

  /** `safe_float_conversion` with its default of 0.0: a missing, empty or
      non-numeric value becomes 0, a numeric one keeps its value. */
  function SafeFloat(c: Cell): (r: real)
    ensures c.Num? ==> r == c.x
    ensures !c.Num? ==> r == 0.0
  {
    match c
    case Num(x) => x
    case _ => 0.0
  }
}

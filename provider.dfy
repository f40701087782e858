/**
 The market-data provider as the lookup sees it: two oracles, one for a
 symbol's recent closing prices and one for its descriptive metadata. Either
 may raise; the history may also come back empty.
 */
module Provider {

  /** A closing price; the lookup only moves it around, never computes with it. */
  type Price

  /** Whatever a provider call raised (network error, unknown symbol, refusal). */
  datatype FetchError = FetchError(reason: string)

  datatype Fetch<T> = Ok(value: T) | Raised(error: FetchError)

  /** A metadata value: a string, or any other value (a number, null, a list). */
  datatype InfoValue = Text(s: string) | Other

  type Metadata = map<string, InfoValue>

  /** The `Close` column of the last five days of history for a symbol. */
  type HistoryOracle = string -> Fetch<seq<Price>>

  /** The metadata dictionary for a symbol. */
  type InfoOracle = string -> Fetch<Metadata>

  const DefaultCurrency: string := "EUR"
  const UnknownCurrency: string := "?"

  /** The history call returned and is not empty. */
  predicate HasData(h: Fetch<seq<Price>>)
  {
    h.Ok? && |h.value| > 0
  }

  /** The most recent close: the last element of the series. */
  function LatestClose(closes: seq<Price>): (p: Price)
    requires |closes| > 0
    ensures p in closes
  {
    closes[|closes| - 1]
  }

  /** Python's `m.get(key, default)`. */
  function Get(m: Metadata, key: string, default: InfoValue): (v: InfoValue)
  {
    if key in m then m[key] else default
  }

  /** Metadata was returned and holds a `longName` that is not a string. */
  predicate NameUnusable(meta: Fetch<Metadata>)
  {
    meta.Ok? && "longName" in meta.value && meta.value["longName"].Other?
  }

  /** Display name and currency (both as the metadata holds them, possibly not
      strings) for a symbol whose price was found. */
  datatype Description = Description(name: InfoValue, currency: InfoValue)

  /** Metadata with fallbacks: a raising metadata call gives the symbol and the
      unknown-currency marker; a missing key gives the symbol, resp. EUR. */
  function Describe(symbol: string, meta: Fetch<Metadata>): (d: Description)
    ensures meta.Raised? ==> d.name == Text(symbol) && d.currency == Text(UnknownCurrency)
    ensures meta.Ok? && "longName" in meta.value ==> d.name == meta.value["longName"]
    ensures meta.Ok? && "longName" !in meta.value ==> d.name == Text(symbol)
    ensures meta.Ok? && "currency" in meta.value ==> d.currency == meta.value["currency"]
    ensures meta.Ok? && "currency" !in meta.value ==> d.currency == Text(DefaultCurrency)
  {
    match meta
    case Raised(_) => Description(Text(symbol), Text(UnknownCurrency))
    case Ok(m) => Description(Get(m, "longName", Text(symbol)), Get(m, "currency", Text(DefaultCurrency)))
  }
}

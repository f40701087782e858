# Robust ETF price lookup — a Dafny model

`trova_prezzo_robusto` in `scripts/markets.py` finds a price for a ticker root,
typed as, say, `MWRD`. It does not know which exchange lists the root, so it:

1. builds six candidate symbols: the Milan, Paris, German, Amsterdam and London
   listings, then the bare root for a US listing;
2. asks the market-data provider for each candidate's recent closing prices, in
   that order;
3. skips any candidate whose request raises or whose history is empty;
4. on the first candidate with data, reads its metadata for a display name and
   a currency, with fallbacks;
5. deduces an asset category from keywords in the upper-cased name;
6. returns the symbol, the latest close, the name, the category label and the
   currency.

When no candidate works, it reports "not found". No exception of the provider
escapes the lookup.

The model has five modules, one per part of the lookup.

- `Text` (text.dfy): the Python string operations the lookup uses, over ASCII:
  - `ToUpper` for `str.upper()`;
  - `Contains` for the substring test `k in s`;
  - `Strip` for `str.strip()`.
- `Symbols` (symbols.dfy): the candidate list, and the command line's input
  normalisation `Normalize`.
- `Classifier` (classifier.dfy): the category rule `Classify`, with its five
  labels. A second, independent reading of the rule is an ordered keyword
  table `Rules`, scanned by `FirstMatch`; the two are proved to agree.
- `Provider` (provider.dfy): the market-data provider seen as two oracles:
  - `HistoryOracle` answers with a close series or a raised error;
  - `InfoOracle` answers with a metadata dictionary or a raised error.
  `Describe` applies the metadata fallbacks. A metadata value is either a
  string or `Other` (any non-string value).
- `Resolver` (resolver.dfy): the search itself.
  - `Try` is one pass of the loop body for one candidate. It gives a `Hit`
    with the result record, or a `Missed` saying why the candidate was skipped.
  - `Search` and `Queries` are the specification functions of the ordered
    search. They give the result, and the provider requests in the order
    they are made.
  - The `FindPrice`/`FindFirst` methods are the loop as the source writes it,
    and `TryCandidate` is its body for one candidate. They are proved to
    compute exactly `Search`, `Queries` and `Try`.

The provider is a parameter of every operation. Requests are recorded as a
trace of `HistoryOf(symbol)` and `InfoOf(symbol)` entries. This makes "no later
candidate is queried" a statement about the trace.

How the code's subtleties are modelled:

- A `longName` that is present but not a string (for instance `None`) is
  returned by `info.get` without a fallback. `nome.upper()` then raises outside
  the inner `try`, so the outer `except` skips the candidate, even though it
  had price data. `Try` gives `Missed(NameNotText)` for it.
  `SearchSkipsUnnamedCandidate` states the consequence.
- So the result is the first candidate that has price data and a usable name.
  It is not simply the first candidate that has price data.
- The function itself does not normalise its argument. Only the command-line
  entry point upper-cases and strips the typed ticker (line 68). The model
  follows the code: `Resolve` and `FindPrice` use the root as given, and
  `Normalize` is separate.

## Model

| member | source | states |
|---|---|---|
| Text.ToUpper | scripts/markets.py:46 | upper-casing keeps the length and maps each character on its own: a-z to A-Z, all others unchanged |
| Text.ToUpperNoLower | scripts/markets.py:46 | an upper-cased string has no lower-case letter |
| Text.ToUpperOfUpper | scripts/markets.py:46 | a string without lower-case letters is unchanged by upper-casing |
| Text.ToUpperIdempotent | scripts/markets.py:46 | upper-casing twice is upper-casing once |
| Text.Contains | scripts/markets.py:47-50 | the substring test `k in s`; its meaning is stated by Text.ContainsIff |
| Text.ContainsIff | scripts/markets.py:47-50 | the substring test holds exactly when the keyword occurs at some index of the string |
| Text.LeadingSpaces | scripts/markets.py:68 | the count of leading whitespace: all characters before it are whitespace, the one at it is not |
| Text.TrailingStart | scripts/markets.py:68 | where the trailing whitespace starts: all characters from it on are whitespace, the one before it is not |
| Text.Strip | scripts/markets.py:68 | `str.strip()` over ASCII whitespace, cutting at Text.LeadingSpaces and Text.TrailingStart; its properties are stated by Text.StripEnds, Text.StripKeepsNoLower and Text.StripIdempotent |
| Text.StripEnds | scripts/markets.py:68 | a stripped string neither starts nor ends with whitespace |
| Text.StripKeepsNoLower | scripts/markets.py:68 | stripping an upper-case string leaves it upper-case |
| Text.StripIdempotent | scripts/markets.py:68 | stripping twice is stripping once |
| Symbols.Candidates | scripts/markets.py:13-20 | exactly six candidates: the root with .MI, .PA, .DE, .AS, .L appended, in that order, then the bare root |
| Symbols.CandidatesDistinct | scripts/markets.py:13-20 | the six candidates are pairwise different, so no listing is tried twice |
| Symbols.Normalize | scripts/markets.py:68 | `.upper().strip()` of the typed ticker; its properties are stated by Symbols.NormalizeShape, Symbols.NormalizeIdempotent and Symbols.NormalizedExample |
| Symbols.NormalizeShape | scripts/markets.py:68 | the normalised ticker has no lower-case letter and no whitespace at either end |
| Symbols.NormalizeIdempotent | scripts/markets.py:68 | normalising a normalised ticker changes nothing |
| Symbols.NormalizedExample | scripts/markets.py:68 | " mwrd " normalises to "MWRD", and both give the same candidate list |
| Classifier.LabelInjective | scripts/markets.py:45-50 | distinct categories have distinct labels |
| Classifier.LabelsHasFive | scripts/markets.py:45-50 | there are exactly five category labels |
| Classifier.Label | scripts/markets.py:45-50 | the five category labels, emoji included; stated distinct by Classifier.LabelInjective and Classifier.LabelsHasFive |
| Classifier.Classify | scripts/markets.py:45-50 | the if/elif chain on the upper-cased name; its meaning is stated by Classifier.ClassifyIff, Classifier.ClassifyByTable and Classifier.ClassifyIgnoresCase |
| Classifier.FirstMatchWins | scripts/markets.py:47-50 | the table scan returns the category of the first row with a matching keyword |
| Classifier.FirstMatchDefault | scripts/markets.py:45 | the table scan returns Generic when no row matches |
| Classifier.ClassifyByTable | scripts/markets.py:45-50 | the if/elif chain agrees on every name with a first-match scan of the ordered keyword table |
| Classifier.WorldHasPriority | scripts/markets.py:47 | a name with MSCI WORLD or GLOBAL is World, whatever else it contains |
| Classifier.ClassifyIff | scripts/markets.py:45-50 | each category is chosen exactly when one of its keywords occurs and no keyword of a higher-priority row does; Generic exactly when none occurs |
| Classifier.ClassifyIgnoresCase | scripts/markets.py:46 | names that upper-case alike classify alike, and classifying the upper-cased name changes nothing |
| Classifier.WorldBeforeEmergingExample | scripts/markets.py:47-50 | "MSCI WORLD EMERGING MARKETS FUND" contains EMERGING yet is World |
| Provider.LatestClose | scripts/markets.py:33 | the reported price is one of the candidate's closes |
| Provider.Get | scripts/markets.py:38-39 | `dict.get(key, default)`; what it gives for the two metadata keys is stated by Provider.Describe |
| Provider.Describe | scripts/markets.py:36-42 | a raising metadata call gives the symbol and "?"; otherwise each of longName and currency is reported as stored when present and falls back on its own default (the symbol, resp. EUR) when missing, whatever the other key holds |
| Resolver.Try | scripts/markets.py:25-63 | a candidate is skipped as raised exactly when its history call raises, as empty exactly when its history is empty, and for its name exactly when it had data and its metadata holds a longName that is not a string; it is a hit exactly when it had data and no such longName, and a hit names this candidate, has the last close as price and one of the five labels |
| Resolver.TryQueries | scripts/markets.py:30-37 | one pass requests the candidate's history first, and its metadata exactly when the history had data |
| Resolver.TryMetadataRaised | scripts/markets.py:36-42 | metadata call raises: the name is the symbol, the currency is "?", and the category is read from the symbol |
| Resolver.TryNameDefault | scripts/markets.py:38 | metadata without longName: a hit named by the symbol, with the category read from the symbol, whatever the currency |
| Resolver.TryCurrencyDefault | scripts/markets.py:39 | metadata without currency, on a candidate not skipped for its name: the currency is EUR, whatever the name |
| Resolver.TryCurrencyStored | scripts/markets.py:39 | a currency that is present is reported as stored |
| Resolver.TryMetadataName | scripts/markets.py:38-50 | a string longName becomes the name, and the category is read from it |
| Resolver.SearchSkipsUnnamedCandidate | scripts/markets.py:38-63 | a candidate with data but a non-string longName is skipped, after both its requests were made |
| Resolver.Search | scripts/markets.py:24-65 | the ordered first-hit search for any per-candidate step; stated by Resolver.SearchCases, Resolver.SearchFirstHit, Resolver.SearchAllMissed and Resolver.QueriesAfterMisses |
| Resolver.Queries | scripts/markets.py:24-65 | the requests of that search, stopping after the first hit; stated by Resolver.SearchFirstHit, Resolver.SearchAllMissed, Resolver.InfoOnlyAfterData and Resolver.QueriesAboutCandidates |
| Resolver.SearchCases | scripts/markets.py:24-65 | either all attempts miss and the result is not found, or some candidate is the first hit and its record is the result |
| Resolver.SearchFirstHit | scripts/markets.py:24-59 | the first hit decides the result, and only the candidates up to it have their history requested |
| Resolver.SearchAllMissed | scripts/markets.py:61-65 | when every attempt misses, the result is not found and every candidate's history was requested, in order |
| Resolver.QueriesAfterMisses | scripts/markets.py:24-63 | after a run of misses, the search continues on the remaining candidates, and the requests so far are those of the skipped ones |
| Resolver.RequestedHistory | scripts/markets.py:24-30 | trying the first n candidates requests the histories of exactly those n, in order |
| Resolver.Resolve | scripts/markets.py:13-65 | the whole lookup: the search over the six candidates with the loop body as step; stated by Resolver.ResolveNotFoundIff, Resolver.ResolveFoundShape and Resolver.FindPrice |
| Resolver.ResolveNotFoundIff | scripts/markets.py:24-65 | the lookup reports not found exactly when every one of the six candidates misses |
| Resolver.ResolveFoundShape | scripts/markets.py:24-59 | a found symbol is one of the six candidates and had price data; the price is its last close; the category is one of the five labels |
| Resolver.InfoOnlyAfterData | scripts/markets.py:30-37 | metadata is requested only for a candidate whose history had data |
| Resolver.QueriesAboutCandidates | scripts/markets.py:24-37 | every request is about one of the candidates |
| Resolver.SearchDeterministic | scripts/markets.py:24-65 | providers that answer the same for the candidates give the same result and the same requests |
| Resolver.OnlyThirdCandidateHasData | scripts/markets.py:13-65 | with data only for root.DE and a failing metadata call, the result is root.DE under its own name with currency "?", after exactly three history requests |
| Resolver.OnlyThirdCandidateDecides | scripts/markets.py:24-65 | with data only for root.DE, the lookup finds root.DE exactly when its longName is usable, and otherwise reports not found after all six history requests |
| Resolver.NoCandidateHasData | scripts/markets.py:24-65 | with no data for any candidate, the result is not found, after one history request per candidate and no metadata request |
| Resolver.FindFirst | scripts/markets.py:24-65 | the loop's result and request trace are exactly those of the ordered search |
| Resolver.TryCandidate | scripts/markets.py:25-59 | the loop body finds a record exactly when the candidate's attempt is a hit, returns that record, and makes exactly the candidate's requests |
| Resolver.FindPrice | scripts/markets.py:13-65 | the lookup over the six candidates: found means some candidate is the first hit, gives the record and is the last history requested; not found means every candidate missed and all six histories were requested |

## Left out

- The HTTP session and its browser User-Agent header (lines 7-10): network plumbing with no effect on the search logic.
- `yf.Ticker`, `.history(period="5d")` and `.info` (lines 27, 30, 37): network calls into a library. They become the `HistoryOracle` and `InfoOracle` parameters.
- Other exceptions in the loop body are not modelled separately. These are a failure to construct the ticker object and a history without a `Close` column (lines 27, 33). The outer handler treats them exactly like a raising history call, so the oracle's `Raised` covers them.
- `.info` returning something that is not a dictionary makes `.get` raise inside the inner `try`. It falls back like a raising metadata call, so `InfoOracle`'s `Raised` covers it.
- Prices are floating-point values in the source. `Price` is an opaque type, because the lookup only passes the value along. The `:.2f` formatting (line 75) is left out.
- The `print` progress message and the interactive prompt and report (lines 22, 67-77) are console I/O. Only the normalisation on line 68 is modelled, as `Normalize`.
- Text.ToUpper: models ASCII upper-casing only, not Python's full Unicode case mapping (for example ß to SS, or accented letters).
- Text.Strip: removes only the ASCII whitespace characters Python strips (tab to carriage return, 0x1C-0x1F, space), not U+0085, U+00A0 or other Unicode spaces.
- Provider.LatestClose: states that the price is one of the closes. The method `FindFirst` and the lemma `Resolver.Try` state that it is the last one.
- Non-string metadata values are all summarised as `Other`. The model carries nothing about them beyond "not a string". They make `.upper()` fail (bytes too, since the keyword test on bytes raises).

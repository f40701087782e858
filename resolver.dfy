/**
 The robust price lookup: try the candidate symbols of a root ticker in order,
 skip every candidate whose attempt raises or finds no history, and report the
 first one that succeeds, with its latest close, display name, category and
 currency; report "not found" when none does.
 */
module Resolver {
  import opened Text
  import opened Symbols
  import opened Classifier
  import opened Provider

  /** The lookup's answer: `{trovato: False}` or the six-field success record.
      `cat` holds the category label as reported. */
  datatype Quote =
    | NotFound
    | Found(symbol: string, price: Price, name: string, cat: string, currency: InfoValue)

  /** Why one candidate was skipped: its history call raised, its history was
      empty, or its display name was not a string (so upper-casing it raised). */
  datatype Miss = HistoryRaised | HistoryEmpty | NameNotText

  /** The outcome of trying one candidate. */
  datatype Attempt = Hit(quote: Quote) | Missed(why: Miss)

  /** One provider request, in the order the lookup issues them. */
  datatype Query = HistoryOf(symbol: string) | InfoOf(symbol: string)

  /** One pass of the loop body for `symbol`. */
  function Try(symbol: string, history: HistoryOracle, info: InfoOracle): (a: Attempt)
    ensures a == Missed(HistoryRaised) <==> history(symbol).Raised?
    ensures a == Missed(HistoryEmpty) <==> history(symbol).Ok? && history(symbol).value == []
    ensures a == Missed(NameNotText) <==> HasData(history(symbol)) && NameUnusable(info(symbol))
    ensures a.Hit? <==> HasData(history(symbol)) && !NameUnusable(info(symbol))
    ensures a.Hit? ==>
      && a.quote.Found? && a.quote.symbol == symbol && a.quote.cat in Labels
      && a.quote.price == LatestClose(history(symbol).value)
  {
    match history(symbol)
    case Raised(_) => Missed(HistoryRaised)
    case Ok(closes) =>
      if |closes| == 0 then Missed(HistoryEmpty)
      else
        var d := Describe(symbol, info(symbol));
        match d.name
        case Other => Missed(NameNotText)
        case Text(name) => Hit(Found(symbol, LatestClose(closes), name, Label(Classify(name)), d.currency))
  }

  /** The step the loop body performs, for given provider answers. */
  function Step(history: HistoryOracle, info: InfoOracle): (attempt: string -> Attempt)
  {
    s => Try(s, history, info)
  }

  /** The requests one pass of the loop body issues: the history, and the
      metadata only when the history has data. */
  function TryQueries(symbol: string, history: HistoryOracle): (qs: seq<Query>)
    ensures qs != [] && qs[0] == HistoryOf(symbol)
    ensures InfoOf(symbol) in qs <==> HasData(history(symbol))
  {
    [HistoryOf(symbol)] + (if HasData(history(symbol)) then [InfoOf(symbol)] else [])
  }

  /** The ordered search over a candidate list, for any per-candidate step:
      the first hit wins, misses are skipped. */
  function Search(cands: seq<string>, attempt: string -> Attempt): (q: Quote)
  {
    if cands == [] then NotFound
    else match attempt(cands[0])
      case Hit(q) => q
      case Missed(_) => Search(cands[1..], attempt)
  }

  /** The requests the search issues, stopping after the first hit. */
  function Queries(cands: seq<string>, attempt: string -> Attempt, history: HistoryOracle): (qs: seq<Query>)
  {
    if cands == [] then []
    else
      var tail := if attempt(cands[0]).Hit? then [] else Queries(cands[1..], attempt, history);
      TryQueries(cands[0], history) + tail
  }

  /** The whole lookup for a root ticker. */
  function Resolve(root: string, history: HistoryOracle, info: InfoOracle): (q: Quote)
  {
    Search(Candidates(root), Step(history, info))
  }

  /** The provider requests the whole lookup issues. */
  function ResolveQueries(root: string, history: HistoryOracle, info: InfoOracle): (qs: seq<Query>)
  {
    Queries(Candidates(root), Step(history, info), history)
  }

  /** The symbols whose history was requested, in request order. */
  function HistorySymbols(trace: seq<Query>): (s: seq<string>)
  {
    if trace == [] then []
    else (if trace[0].HistoryOf? then [trace[0].symbol] else []) + HistorySymbols(trace[1..])
  }

  lemma {:induction false} HistorySymbolsAppend(a: seq<Query>, b: seq<Query>)
    ensures HistorySymbols(a + b) == HistorySymbols(a) + HistorySymbols(b)
  {
    if a != [] {
      assert (a + b)[0] == a[0];
      assert (a + b)[1..] == a[1..] + b;
      HistorySymbolsAppend(a[1..], b);
    } else {
      assert a + b == b;
    }
  }

  lemma TryQueriesHistory(symbol: string, history: HistoryOracle)
    ensures HistorySymbols(TryQueries(symbol, history)) == [symbol]
  {
    var qs := TryQueries(symbol, history);
    assert qs[1..] == [] || qs[1..] == [InfoOf(symbol)];
    assert HistorySymbols(qs[1..]) == [];
  }

  /** Candidate `k` is the first one whose attempt succeeds. */
  ghost predicate FirstHit(cands: seq<string>, attempt: string -> Attempt, k: int)
  {
    && 0 <= k < |cands|
    && attempt(cands[k]).Hit?
    && forall j :: 0 <= j < k ==> attempt(cands[j]).Missed?
  }

  /** Every candidate's attempt fails. */
  ghost predicate AllMissed(cands: seq<string>, attempt: string -> Attempt)
  {
    forall j :: 0 <= j < |cands| ==> attempt(cands[j]).Missed?
  }

  /** Either some candidate is the first hit and gives the result, or all
      attempts fail and the search gives "not found". */
  lemma {:induction false} SearchCases(cands: seq<string>, attempt: string -> Attempt)
    ensures AllMissed(cands, attempt) ==> Search(cands, attempt) == NotFound
    ensures !AllMissed(cands, attempt) ==>
      exists k :: FirstHit(cands, attempt, k) && Search(cands, attempt) == attempt(cands[k]).quote
  {
    if cands != [] {
      var rest := cands[1..];
      if attempt(cands[0]).Hit? {
        assert FirstHit(cands, attempt, 0);
      } else {
        SearchCases(rest, attempt);
        if AllMissed(rest, attempt) {
          forall j | 0 <= j < |cands|
            ensures attempt(cands[j]).Missed?
          {
            if j > 0 { assert cands[j] == rest[j - 1]; }
          }
        } else {
          var k :| FirstHit(rest, attempt, k) && Search(rest, attempt) == attempt(rest[k]).quote;
          assert FirstHit(cands, attempt, k + 1) by {
            forall j | 0 <= j < k + 1
              ensures attempt(cands[j]).Missed?
            {
              if j > 0 { assert cands[j] == rest[j - 1]; }
            }
          }
        }
      }
    }
  }

  /** With the lookup's own step, "not found" means exactly that every one of
      the six candidates missed. */
  lemma ResolveNotFoundIff(root: string, history: HistoryOracle, info: InfoOracle)
    ensures Resolve(root, history, info) == NotFound <==> AllMissed(Candidates(root), Step(history, info))
  {
    var cands, attempt := Candidates(root), Step(history, info);
    SearchCases(cands, attempt);
    if !AllMissed(cands, attempt) {
      var k :| FirstHit(cands, attempt, k) && Search(cands, attempt) == attempt(cands[k]).quote;
      assert attempt(cands[k]) == Try(cands[k], history, info);
    }
  }

  /** A successful lookup names one of the six candidates, that candidate had
      price data, the price is its latest close, and the category is one of
      the five labels. */
  lemma ResolveFoundShape(root: string, history: HistoryOracle, info: InfoOracle)
    requires Resolve(root, history, info).Found?
    ensures var q := Resolve(root, history, info);
      && q.symbol in Candidates(root)
      && HasData(history(q.symbol))
      && q.price == LatestClose(history(q.symbol).value)
      && q.cat in Labels
  {
    var cands, attempt := Candidates(root), Step(history, info);
    SearchCases(cands, attempt);
    var k :| FirstHit(cands, attempt, k) && Search(cands, attempt) == attempt(cands[k]).quote;
    assert attempt(cands[k]) == Try(cands[k], history, info);
  }

  /** The metadata call for the matched symbol raised: the name is the symbol
      and the currency is the unknown marker. */
  lemma TryMetadataRaised(symbol: string, history: HistoryOracle, info: InfoOracle)
    requires HasData(history(symbol)) && info(symbol).Raised?
    ensures Try(symbol, history, info)
      == Hit(Found(symbol, LatestClose(history(symbol).value), symbol, Label(Classify(symbol)), Text(UnknownCurrency)))
  {
  }

  /** Metadata without `longName`: the name is the symbol, and the category is
      read from the symbol, whatever the metadata says about the currency. */
  lemma TryNameDefault(symbol: string, history: HistoryOracle, info: InfoOracle)
    requires HasData(history(symbol)) && info(symbol).Ok? && "longName" !in info(symbol).value
    ensures Try(symbol, history, info).Hit?
    ensures Try(symbol, history, info).quote.name == symbol
    ensures Try(symbol, history, info).quote.cat == Label(Classify(symbol))
  {
  }

  /** Metadata without `currency` on a candidate that is not skipped: the
      currency is EUR, whatever the name is. */
  lemma TryCurrencyDefault(symbol: string, history: HistoryOracle, info: InfoOracle)
    requires HasData(history(symbol)) && info(symbol).Ok? && !NameUnusable(info(symbol))
    requires "currency" !in info(symbol).value
    ensures Try(symbol, history, info).Hit?
    ensures Try(symbol, history, info).quote.currency == Text(DefaultCurrency)
  {
  }

  /** A `currency` that is present is reported as stored, string or not. */
  lemma TryCurrencyStored(symbol: string, history: HistoryOracle, info: InfoOracle)
    requires HasData(history(symbol)) && info(symbol).Ok? && !NameUnusable(info(symbol))
    requires "currency" in info(symbol).value
    ensures Try(symbol, history, info).Hit?
    ensures Try(symbol, history, info).quote.currency == info(symbol).value["currency"]
  {
  }

  /** Metadata whose `longName` is present and a string: that string is the
      name, and the category is read from it. */
  lemma TryMetadataName(symbol: string, history: HistoryOracle, info: InfoOracle, name: string)
    requires HasData(history(symbol)) && info(symbol).Ok?
    requires "longName" in info(symbol).value && info(symbol).value["longName"] == Text(name)
    ensures Try(symbol, history, info).Hit?
    ensures Try(symbol, history, info).quote.name == name
    ensures Try(symbol, history, info).quote.cat == Label(Classify(name))
  {
  }

  /** A `longName` that is present but not a string makes upper-casing raise;
      the outer handler catches it and the search moves on, even though the
      candidate had price data and its metadata was requested. */
  lemma SearchSkipsUnnamedCandidate(cands: seq<string>, history: HistoryOracle, info: InfoOracle)
    requires cands != [] && HasData(history(cands[0])) && info(cands[0]).Ok?
    requires "longName" in info(cands[0]).value && info(cands[0]).value["longName"].Other?
    ensures Try(cands[0], history, info) == Missed(NameNotText)
    ensures Search(cands, Step(history, info)) == Search(cands[1..], Step(history, info))
    ensures Queries(cands, Step(history, info), history)
      == [HistoryOf(cands[0]), InfoOf(cands[0])] + Queries(cands[1..], Step(history, info), history)
  {
    assert Step(history, info)(cands[0]) == Try(cands[0], history, info);
  }

  /** Metadata is requested only for a candidate whose history had data. */
  lemma {:induction false} InfoOnlyAfterData(cands: seq<string>, attempt: string -> Attempt, history: HistoryOracle)
    ensures forall k :: 0 <= k < |Queries(cands, attempt, history)| && Queries(cands, attempt, history)[k].InfoOf? ==>
      HasData(history(Queries(cands, attempt, history)[k].symbol))
  {
    if cands != [] {
      var rest := cands[1..];
      InfoOnlyAfterData(rest, attempt, history);
      var head := TryQueries(cands[0], history);
      var tail := if attempt(cands[0]).Hit? then [] else Queries(rest, attempt, history);
      var qs := Queries(cands, attempt, history);
      assert qs == head + tail;
      forall k | 0 <= k < |qs| && qs[k].InfoOf?
        ensures HasData(history(qs[k].symbol))
      {
        if k >= |head| {
          assert qs[k] == tail[k - |head|];
        }
      }
    }
  }

  /** Every request is about one of the candidates. */
  lemma {:induction false} QueriesAboutCandidates(cands: seq<string>, attempt: string -> Attempt, history: HistoryOracle)
    ensures forall e :: e in Queries(cands, attempt, history) ==> e.symbol in cands
  {
    if cands != [] {
      QueriesAboutCandidates(cands[1..], attempt, history);
      assert forall s :: s in cands[1..] ==> s in cands;
    }
  }

  /** The oracles agree on every candidate. */
  ghost predicate SameAnswers(cands: seq<string>, h1: HistoryOracle, i1: InfoOracle, h2: HistoryOracle, i2: InfoOracle)
  {
    forall k :: 0 <= k < |cands| ==> h1(cands[k]) == h2(cands[k]) && i1(cands[k]) == i2(cands[k])
  }

  /** The lookup keeps no state of its own: providers that give the same
      answers for the candidates give the same result and the same requests. */
  lemma {:induction false} SearchDeterministic(cands: seq<string>, h1: HistoryOracle, i1: InfoOracle, h2: HistoryOracle, i2: InfoOracle)
    requires SameAnswers(cands, h1, i1, h2, i2)
    ensures Search(cands, Step(h1, i1)) == Search(cands, Step(h2, i2))
    ensures Queries(cands, Step(h1, i1), h1) == Queries(cands, Step(h2, i2), h2)
  {
    if cands != [] {
      var rest := cands[1..];
      assert h1(cands[0]) == h2(cands[0]) && i1(cands[0]) == i2(cands[0]);
      assert Step(h1, i1)(cands[0]) == Try(cands[0], h1, i1) == Try(cands[0], h2, i2) == Step(h2, i2)(cands[0]);
      assert SameAnswers(rest, h1, i1, h2, i2) by {
        forall k | 0 <= k < |rest|
          ensures h1(rest[k]) == h2(rest[k]) && i1(rest[k]) == i2(rest[k])
        {
          assert rest[k] == cands[k + 1];
        }
      }
      SearchDeterministic(rest, h1, i1, h2, i2);
    }
  }

  /** A provider with price data only for the third candidate (the German
      listing) and a failing metadata call: that candidate is reported, under
      its own symbol, with the unknown-currency marker, after exactly three
      history requests. */
  lemma OnlyThirdCandidateHasData(root: string, history: HistoryOracle, info: InfoOracle)
    requires forall k :: 0 <= k < 6 && k != 2 ==> !HasData(history(Candidates(root)[k]))
    requires HasData(history(root + ".DE")) && info(root + ".DE").Raised?
    ensures Resolve(root, history, info).Found?
    ensures Resolve(root, history, info).symbol == root + ".DE"
    ensures Resolve(root, history, info).name == root + ".DE"
    ensures Resolve(root, history, info).currency == Text(UnknownCurrency)
    ensures HistorySymbols(ResolveQueries(root, history, info)) == [root + ".MI", root + ".PA", root + ".DE"]
  {
    var cands, attempt := Candidates(root), Step(history, info);
    assert cands[2] == root + ".DE";
    assert forall k :: 0 <= k < 6 ==> attempt(cands[k]) == Try(cands[k], history, info);
    assert FirstHit(cands, attempt, 2);
    SearchFirstHit(cands, attempt, history, 2);
    assert cands[..3] == [root + ".MI", root + ".PA", root + ".DE"];
  }

  /** Data only for the third candidate, whatever its metadata: the lookup
      finds it exactly when its `longName` is usable, and otherwise reports
      "not found" after trying all six candidates. */
  lemma OnlyThirdCandidateDecides(root: string, history: HistoryOracle, info: InfoOracle)
    requires forall k :: 0 <= k < 6 && k != 2 ==> !HasData(history(Candidates(root)[k]))
    requires HasData(history(root + ".DE"))
    ensures Resolve(root, history, info).Found? <==> !NameUnusable(info(root + ".DE"))
    ensures Resolve(root, history, info).Found? ==> Resolve(root, history, info).symbol == root + ".DE"
    ensures Resolve(root, history, info).NotFound? ==>
      HistorySymbols(ResolveQueries(root, history, info)) == Candidates(root)
  {
    var cands, attempt := Candidates(root), Step(history, info);
    assert cands[2] == root + ".DE";
    assert forall k :: 0 <= k < 6 ==> attempt(cands[k]) == Try(cands[k], history, info);
    if NameUnusable(info(root + ".DE")) {
      assert AllMissed(cands, attempt);
      SearchAllMissed(cands, attempt, history);
    } else {
      assert FirstHit(cands, attempt, 2);
      SearchFirstHit(cands, attempt, history, 2);
    }
  }

  /** A provider with no price data for any candidate: "not found", after one
      history request per candidate and no metadata request. */
  lemma NoCandidateHasData(root: string, history: HistoryOracle, info: InfoOracle)
    requires forall s :: s in Candidates(root) ==> !HasData(history(s))
    ensures Resolve(root, history, info) == NotFound
    ensures HistorySymbols(ResolveQueries(root, history, info)) == Candidates(root)
    ensures forall e :: e in ResolveQueries(root, history, info) ==> e.HistoryOf?
  {
    var cands, attempt := Candidates(root), Step(history, info);
    forall j | 0 <= j < |cands|
      ensures attempt(cands[j]).Missed?
    {
      assert cands[j] in cands;
      assert attempt(cands[j]) == Try(cands[j], history, info);
    }
    SearchAllMissed(cands, attempt, history);
    InfoOnlyAfterData(cands, attempt, history);
    QueriesAboutCandidates(cands, attempt, history);
    var qs := Queries(cands, attempt, history);
    forall e | e in qs
      ensures e.HistoryOf?
    {
      var k :| 0 <= k < |qs| && qs[k] == e;
      if e.InfoOf? {
        assert false;
      }
    }
  }

  /** The requests made for the first `n` candidates, each one tried in turn. */
  function Requested(cands: seq<string>, history: HistoryOracle, n: nat): (qs: seq<Query>)
    requires n <= |cands|
  {
    if n == 0 then [] else Requested(cands, history, n - 1) + TryQueries(cands[n - 1], history)
  }

  lemma {:induction false} RequestedHistory(cands: seq<string>, history: HistoryOracle, n: nat)
    requires n <= |cands|
    ensures HistorySymbols(Requested(cands, history, n)) == cands[..n]
  {
    if n > 0 {
      RequestedHistory(cands, history, n - 1);
      HistorySymbolsAppend(Requested(cands, history, n - 1), TryQueries(cands[n - 1], history));
      TryQueriesHistory(cands[n - 1], history);
      assert cands[..n] == cands[..n - 1] + [cands[n - 1]];
    }
  }

  /** A missed first candidate contributes its requests and is skipped. */
  lemma SkipMiss(cs: seq<string>, attempt: string -> Attempt, history: HistoryOracle)
    requires cs != [] && attempt(cs[0]).Missed?
    ensures Queries(cs, attempt, history) == TryQueries(cs[0], history) + Queries(cs[1..], attempt, history)
    ensures Search(cs, attempt) == Search(cs[1..], attempt)
  {
  }

  /** While every attempt so far has missed, the search's requests are those of
      the candidates tried so far followed by those of the rest. */
  lemma {:induction false} QueriesAfterMisses(cands: seq<string>, attempt: string -> Attempt, history: HistoryOracle, n: nat)
    requires n <= |cands|
    requires forall j :: 0 <= j < n ==> attempt(cands[j]).Missed?
    ensures Queries(cands, attempt, history) == Requested(cands, history, n) + Queries(cands[n..], attempt, history)
    ensures Search(cands, attempt) == Search(cands[n..], attempt)
  {
    if n > 0 {
      var m := n - 1;
      QueriesAfterMisses(cands, attempt, history, m);
      var rest := cands[m..];
      assert rest[0] == cands[m] && attempt(rest[0]).Missed?;
      assert rest[1..] == cands[n..];
      SkipMiss(rest, attempt, history);
      RequestedAppend(cands, history, m, Queries(cands[n..], attempt, history));
    }
  }

  /** Requests so far, then those of candidate `m`, then `tail`. */
  lemma RequestedAppend(cands: seq<string>, history: HistoryOracle, m: nat, tail: seq<Query>)
    requires m < |cands|
    ensures Requested(cands, history, m) + (TryQueries(cands[m], history) + tail)
      == Requested(cands, history, m + 1) + tail
  {
  }

  /** The first succeeding candidate decides the result, and the requests stop
      after it: the history of no later candidate is requested. */
  lemma SearchFirstHit(cands: seq<string>, attempt: string -> Attempt, history: HistoryOracle, k: nat)
    requires FirstHit(cands, attempt, k)
    ensures Search(cands, attempt) == attempt(cands[k]).quote
    ensures Queries(cands, attempt, history) == Requested(cands, history, k + 1)
    ensures HistorySymbols(Queries(cands, attempt, history)) == cands[..k + 1]
  {
    QueriesAfterMisses(cands, attempt, history, k);
    assert cands[k..][0] == cands[k];
    assert Queries(cands[k..], attempt, history) == TryQueries(cands[k], history) + [];
    RequestedHistory(cands, history, k + 1);
  }

  /** When every attempt fails the result is "not found", and every
      candidate's history was requested, in order. */
  lemma SearchAllMissed(cands: seq<string>, attempt: string -> Attempt, history: HistoryOracle)
    requires AllMissed(cands, attempt)
    ensures Search(cands, attempt) == NotFound
    ensures Queries(cands, attempt, history) == Requested(cands, history, |cands|)
    ensures HistorySymbols(Queries(cands, attempt, history)) == cands
  {
    QueriesAfterMisses(cands, attempt, history, |cands|);
    assert cands[|cands|..] == [];
    RequestedHistory(cands, history, |cands|);
  }

  /**
   The lookup as the source runs it: build the six candidates and walk them.
   `trace` records the provider requests in the order they are made.
   */
  method FindPrice(root: string, history: HistoryOracle, info: InfoOracle) returns (q: Quote, trace: seq<Query>)
    ensures q == Resolve(root, history, info)
    ensures trace == ResolveQueries(root, history, info)
    ensures q.Found? ==>
      exists k :: (&& FirstHit(Candidates(root), Step(history, info), k)
                   && q == Try(Candidates(root)[k], history, info).quote
                   && HistorySymbols(trace) == Candidates(root)[..k + 1])
    ensures q.NotFound? ==>
      && AllMissed(Candidates(root), Step(history, info))
      && HistorySymbols(trace) == Candidates(root)
  {
    var candidates := Candidates(root);
    q, trace := FindFirst(candidates, history, info);
    ghost var attempt := Step(history, info);
    SearchCases(candidates, attempt);
    if q.Found? {
      ghost var k :| FirstHit(candidates, attempt, k) && q == attempt(candidates[k]).quote;
      SearchFirstHit(candidates, attempt, history, k);
      assert attempt(candidates[k]) == Try(candidates[k], history, info);
    } else {
      SearchAllMissed(candidates, attempt, history);
    }
  }

  /**
   The loop over the candidates: skip each candidate whose attempt misses,
   return on the first hit, fall through to "not found".
   */
  method FindFirst(candidates: seq<string>, history: HistoryOracle, info: InfoOracle) returns (q: Quote, trace: seq<Query>)
    ensures q == Search(candidates, Step(history, info))
    ensures trace == Queries(candidates, Step(history, info), history)
  {
    ghost var attempt := Step(history, info);
    trace := [];
    var i := 0;
    while i < |candidates|
      invariant 0 <= i <= |candidates|
      invariant forall j :: 0 <= j < i ==> attempt(candidates[j]).Missed?
      invariant trace == Requested(candidates, history, i)
    {
      var found, quote, asked := TryCandidate(candidates[i], history, info);
      trace := trace + asked;
      if found {
        q := quote;
        SearchFirstHit(candidates, attempt, history, i);
        return;
      }
      i := i + 1;
    }
    SearchAllMissed(candidates, attempt, history);
    q := NotFound;
  }

  /**
   The body of the loop for one candidate: request its history; on data, take
   the last close, request the metadata with its fallbacks, and classify the
   name. `found` is false when the candidate is skipped; `asked` lists the
   requests made.
   */
  method TryCandidate(symbol: string, history: HistoryOracle, info: InfoOracle) returns (found: bool, q: Quote, asked: seq<Query>)
    ensures found <==> Try(symbol, history, info).Hit?
    ensures found ==> q == Try(symbol, history, info).quote
    ensures asked == TryQueries(symbol, history)
  {
    q := NotFound;
    asked := [HistoryOf(symbol)];
    var closes := history(symbol);
    if closes.Ok? && |closes.value| > 0 {
      var price := closes.value[|closes.value| - 1];
      asked := asked + [InfoOf(symbol)];
      var d := Describe(symbol, info(symbol));
      if d.name.Text? {
        var name := d.name.s;
        q := Found(symbol, price, name, Label(Classify(name)), d.currency);
        return true, q, asked;
      }
    }
    found := false;
  }
}

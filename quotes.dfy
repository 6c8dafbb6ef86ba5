/**
 * What `fetch_quote` returns (server.py:46-63) and the list of updates one
 * broadcast iteration builds from it (server.py:85-88).  The market-data
 * download itself is outside the model: its outcome for one call is a
 * `Fetched` value supplied by the caller.
 */
module Quotes {
  /**
   * The outcome of the `try` block of `fetch_quote` (server.py:48-53): the
   * download of the last day's one-minute bars and the reading of the last bar.
   */
  datatype Fetched =
    | Bars(close: real, time: string)   // a non-empty frame whose last close converts to a float
    | NoBars                            // an empty frame
    | Raised(reason: string)            // any exception in server.py:49-53, the download's or the
                                        // float conversion's; `str(e)`

  /** One entry of a broadcast: a price record or an error record. */
  datatype Quote =
    | PriceQuote(symbol: string, price: real, currency: string, timestamp: string)
    | ErrorQuote(symbol: string, error: string)

  const UnknownCurrency: string := "N/A"
  const NoDataReason: string := "No data returned"

  /** The `{"type": "quotes", "data": [...]}` message, before serialisation. */
  datatype Message = Quotes(data: seq<Quote>)

  /**
   * `fetch_quote(symbol)`: never fails; the record always names the symbol it
   * was asked for, carries a price exactly when the last bar was read, and
   * otherwise carries the reason.
   */
  function FetchQuote(symbol: string, fetched: Fetched): (q: Quote)
    ensures q.symbol == symbol
    ensures q.PriceQuote? <==> fetched.Bars?
    ensures q.PriceQuote? ==> q.currency == UnknownCurrency && q.price == fetched.close && q.timestamp == fetched.time
    ensures fetched.NoBars? ==> q == ErrorQuote(symbol, NoDataReason)
    ensures fetched.Raised? ==> q == ErrorQuote(symbol, fetched.reason)
  {
    match fetched
    case Bars(close, time) => PriceQuote(symbol, close, UnknownCurrency, time)
    case NoBars => ErrorQuote(symbol, NoDataReason)
    case Raised(reason) => ErrorQuote(symbol, reason)
  }

  /**
   * The `updates` list of one iteration: one `fetch_quote` per symbol, in
   * order, the i-th call having outcome `fetched[i]`.
   */
  function Updates(symbols: seq<string>, fetched: seq<Fetched>): (us: seq<Quote>)
    requires |fetched| == |symbols|
    ensures |us| == |symbols|
  {
    if symbols == [] then []
    else Updates(symbols[..|symbols| - 1], fetched[..|fetched| - 1])
         + [FetchQuote(symbols[|symbols| - 1], fetched[|fetched| - 1])]
  }

  /** Entry i of the updates is the quote for the i-th symbol. */
  lemma {:induction false} UpdatesAt(symbols: seq<string>, fetched: seq<Fetched>, i: nat)
    requires |fetched| == |symbols| && i < |symbols|
    ensures Updates(symbols, fetched)[i] == FetchQuote(symbols[i], fetched[i])
  {
    if i < |symbols| - 1 {
      UpdatesAt(symbols[..|symbols| - 1], fetched[..|fetched| - 1], i);
    }
  }

  /** The updates follow the subscription: same length, same order of symbols. */
  lemma UpdatesFollowSymbols(symbols: seq<string>, fetched: seq<Fetched>)
    requires |fetched| == |symbols|
    ensures |Updates(symbols, fetched)| == |symbols|
    ensures forall i :: 0 <= i < |symbols| ==> Updates(symbols, fetched)[i].symbol == symbols[i]
    ensures forall i :: 0 <= i < |symbols| ==>
              (Updates(symbols, fetched)[i].PriceQuote? <==> fetched[i].Bars?)
  {
  }

  /**
   * A failed download for one symbol changes that symbol's entry only: every
   * other entry is what it would have been, and the iteration still has an
   * entry for every symbol.
   */
  lemma FailureIsolated(symbols: seq<string>, fetched: seq<Fetched>, k: nat, failure: Fetched)
    requires |fetched| == |symbols| && k < |symbols|
    requires !failure.Bars?
    ensures |Updates(symbols, fetched[k := failure])| == |symbols|
    ensures Updates(symbols, fetched[k := failure])[k].ErrorQuote?
    ensures Updates(symbols, fetched[k := failure])[k].symbol == symbols[k]
    ensures forall i :: 0 <= i < |symbols| && i != k ==>
              Updates(symbols, fetched[k := failure])[i] == Updates(symbols, fetched)[i]
  {
    var other := fetched[k := failure];
    UpdatesAt(symbols, other, k);
    forall i | 0 <= i < |symbols| && i != k
      ensures Updates(symbols, other)[i] == Updates(symbols, fetched)[i]
    {
      UpdatesAt(symbols, other, i);
      UpdatesAt(symbols, fetched, i);
    }
  }
}

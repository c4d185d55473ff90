/**
 * The two pure pieces of the downloader: rewriting a ticker symbol into the
 * market-data provider's spelling (share classes use '-' rather than '.'),
 * and choosing which tickers to fetch when those already stored are skipped.
 */
module Downloader {
  import opened Sequences

  /** The provider's spelling of a ticker: every '.' becomes '-'. */
  function CleanTicker(ticker: string): (r: string)
    ensures |r| == |ticker|
    ensures forall i :: 0 <= i < |r| ==> r[i] == (if ticker[i] == '.' then '-' else ticker[i])
    ensures '.' !in r
  {
    if ticker == [] then []
    else
      var last := ticker[|ticker| - 1];
      CleanTicker(ticker[..|ticker| - 1]) + [if last == '.' then '-' else last]
  }

  /** Cleaning a cleaned ticker changes nothing. */
  lemma CleanTickerIdempotent(ticker: string)
    ensures CleanTicker(CleanTicker(ticker)) == CleanTicker(ticker)
  {
  }

  /** A ticker without a '.' is already in the provider's spelling. */
  lemma CleanTickerWithoutDot(ticker: string)
    requires '.' !in ticker
    ensures CleanTicker(ticker) == ticker
  {
  }

  /** The tickers to fetch: all of them, or, when skipping, those not already stored. */
  function TickersToDownload(tickers: seq<string>, existing: seq<string>, skipExisting: bool): (r: seq<string>)
    ensures !skipExisting ==> r == tickers
    ensures skipExisting ==> forall i :: 0 <= i < |r| ==> r[i] !in existing
  {
    if skipExisting then Filter(tickers, t => t !in existing) else tickers
  }

  /**
   * When skipping, the tickers to fetch are exactly the input tickers not
   * already stored, each as often as in the input and in the input's order.
   */
  lemma SkipExistingSelection(tickers: seq<string>, existing: seq<string>)
    ensures var r := TickersToDownload(tickers, existing, true);
      && IsSubsequence(r, tickers)
      && (forall t :: t in r <==> t in tickers && t !in existing)
      && (forall t :: multiset(r)[t] == if t in existing then 0 else multiset(tickers)[t])
  {
    var keep := t => t !in existing;
    FilterIsSubsequence(tickers, keep);
    FilterMembership(tickers, keep);
    FilterCounts(tickers, keep);
  }
}

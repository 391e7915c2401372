/**
  * Venue lookup and request batching (realtime_stock_price.py,
  * `MARKET_MAP`/`decide_market`, `chunked`, `build_ex_ch`): which exchange a
  * code is quoted on, how the code list is cut into requests of at most
  * `MAX_CODES_PER_REQUEST` codes, and how one request names its codes in the
  * `ex_ch` query parameter ("tse_2330.tw|otc_3008.tw").
  */
module Batching {
  import opened Text

  const MaxCodesPerRequest: nat := 50

  /** The codes known to trade on a venue other than the default. */
  const MarketMap: map<string, string> := map["2330" := "tse", "2317" := "tse", "2603" := "tse", "3008" := "otc"]

  /** `MARKET_MAP.get(code, "tse")`. */
  function DecideMarket(code: string): (m: string)
    ensures code in MarketMap ==> m == MarketMap[code]
    ensures code !in MarketMap ==> m == "tse"
  {
    if code in MarketMap then MarketMap[code] else "tse"
  }

  /** Only "3008" is quoted over the counter; every other code, known or not, goes to "tse". */
  lemma DecideMarketVenues(code: string)
    ensures DecideMarket(code) == "otc" <==> code == "3008"
    ensures DecideMarket(code) == "tse" <==> code != "3008"
  {
    if code in MarketMap && code != "3008" {
      assert code == "2330" || code == "2317" || code == "2603";
    }
  }

  // ---------------------------------------------------------------------
  // chunked
  // ---------------------------------------------------------------------

  /**
    * `[lst[i:i + n] for i in range(0, len(lst), n)]`. A step of 0 makes
    * `range` raise, hence the precondition; a negative step gives an empty
    * range and no chunks.
    */
  function Chunked<T>(lst: seq<T>, n: int): (chunks: seq<seq<T>>)
    requires n != 0
    ensures n < 0 ==> chunks == []
    ensures forall j :: 0 <= j < |chunks| ==> 0 < |chunks[j]| <= n
    ensures forall j :: 0 <= j < |chunks| - 1 ==> |chunks[j]| == n
    decreases |lst|
  {
    if n < 0 || lst == [] then []
    else if |lst| <= n then [lst]
    else [lst[..n]] + Chunked(lst[n..], n)
  }

  function Flatten<T>(chunks: seq<seq<T>>): seq<T> {
    if chunks == [] then [] else chunks[0] + Flatten(chunks[1..])
  }

  /** Reading the chunks one after another gives back the list, in order. */
  lemma {:induction false} ChunkedFlatten<T>(lst: seq<T>, n: int)
    requires n > 0
    ensures Flatten(Chunked(lst, n)) == lst
    decreases |lst|
  {
    if lst != [] && |lst| > n {
      var rest := Chunked(lst[n..], n);
      ChunkedFlatten(lst[n..], n);
      assert ([lst[..n]] + rest)[1..] == rest;
      assert lst == lst[..n] + lst[n..];
    } else if lst != [] {
      assert [lst][1..] == [];
      assert lst + [] == lst;
    }
  }

  /** There are ceil(len / n) chunks: the fewest chunks of `n` that hold the whole list. */
  lemma {:induction false} ChunkedCount<T>(lst: seq<T>, n: int)
    requires n > 0
    ensures lst == [] ==> Chunked(lst, n) == []
    ensures lst != [] ==> (|Chunked(lst, n)| - 1) * n < |lst| <= |Chunked(lst, n)| * n
    decreases |lst|
  {
    if lst != [] && |lst| > n {
      var k := |Chunked(lst[n..], n)|;
      ChunkedCount(lst[n..], n);
      assert |Chunked(lst, n)| == k + 1;
      assert (k + 1) * n == k * n + n && k * n == (k - 1) * n + n;
    }
  }

  /** 120 codes in requests of 50 go out as 50, 50 and 20. */
  lemma ChunkedExample<T>(lst: seq<T>)
    requires |lst| == 120
    ensures |Chunked(lst, 50)| == 3
    ensures |Chunked(lst, 50)[0]| == 50 && |Chunked(lst, 50)[1]| == 50 && |Chunked(lst, 50)[2]| == 20
  {
    assert Chunked(lst, 50) == [lst[..50]] + Chunked(lst[50..], 50);
    assert Chunked(lst[50..], 50) == [lst[50..][..50]] + Chunked(lst[50..][50..], 50);
    assert Chunked(lst[50..][50..], 50) == [lst[50..][50..]];
  }

  // ---------------------------------------------------------------------
  // build_ex_ch
  // ---------------------------------------------------------------------

  /** One code with its venue, as `fetch_once` pairs them: `(code, market)`. */
  datatype Listing = Listing(code: string, market: string)

  /** `[(c, decide_market(c)) for c in codes]`. */
  function Pairs(codes: seq<string>): (pairs: seq<Listing>)
    ensures |pairs| == |codes|
    ensures forall i :: 0 <= i < |codes| ==> pairs[i] == Listing(codes[i], DecideMarket(codes[i]))
  {
    seq(|codes|, i requires 0 <= i < |codes| => Listing(codes[i], DecideMarket(codes[i])))
  }

  /** `f"{m}_{c}.tw"`: the name of one code on the provider's query. */
  function Channel(p: Listing): string {
    p.market + "_" + p.code + ".tw"
  }

  function Channels(batch: seq<Listing>): (parts: seq<string>)
    ensures |parts| == |batch|
  {
    seq(|batch|, i requires 0 <= i < |batch| => Channel(batch[i]))
  }

  /** `"|".join(...)` of the channel names, in the batch's order. */
  function BuildExCh(batch: seq<Listing>): (exCh: string)
    ensures batch == [] ==> exCh == ""
    ensures |batch| == 1 ==> exCh == Channel(batch[0])
  {
    Join(Channels(batch), "|")
  }

  /** No code and no venue contains the `|` that separates channels. */
  predicate PipeFree(batch: seq<Listing>) {
    forall i :: 0 <= i < |batch| ==> '|' !in batch[i].code && '|' !in batch[i].market
  }

  /**
    * A non-empty batch yields exactly one channel per listing, in order:
    * splitting the query on `|` gives them back.
    */
  lemma BuildExChChannels(batch: seq<Listing>)
    requires batch != [] && PipeFree(batch)
    ensures Split(BuildExCh(batch), '|') == Channels(batch)
  {
    var parts := Channels(batch);
    forall i | 0 <= i < |parts|
      ensures '|' !in parts[i]
    {
      var p := batch[i];
      assert parts[i] == p.market + "_" + p.code + ".tw";
      assert forall k :: 0 <= k < |".tw"| ==> ".tw"[k] != '|';
    }
    SplitJoin(parts, '|');
  }
}

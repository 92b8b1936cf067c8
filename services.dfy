/** The exchange-ticker digest behind the crypto widget: from the exchange's
    24-hour ticker list keep the USDT pairs that are not leveraged tokens,
    rank them by quote volume, keep the first `limit`, and describe each by
    its base symbol, coin name, price, change, volume and the display
    format chosen for price and volume. Any missing or unreadable field
    makes the whole digest empty, as the source's catch-all handler does.
    The network request and the cache are not modelled: the ticker list is
    a parameter. */
module Services {
  import opened Wrappers
  import opened Strings
  import opened Seqs

  /** A numeric field of a ticker as `float(...)` sees it: absent (a
      `KeyError` when indexed), not a number (a `ValueError`), or a
      number. */
  datatype Field = Absent | Malformed | Number(value: real)

  /** One entry of the ticker list; `symbol` may be absent. */
  datatype Ticker = Ticker(symbol: Option<string>, lastPrice: Field, priceChangePercent: Field, quoteVolume: Field)

  // ---- the pair filter

  const Quote: string := "USDT"

  /** A pair quoted in USDT whose symbol does not mark a leveraged token. */
  predicate KeepPair(symbol: string)
  {
    && EndsWith(symbol, Quote)
    && !Contains(symbol, "DOWN") && !Contains(symbol, "UP")
    && !Contains(symbol, "BEAR") && !Contains(symbol, "BULL")
  }

  function Kept(t: Ticker): bool
  {
    t.symbol.Some? && KeepPair(t.symbol.value)
  }

  /** `usdt_pairs`: the kept tickers in list order; an entry without a
      symbol aborts the comprehension (None). */
  function UsdtPairs(data: seq<Ticker>): (r: Option<seq<Ticker>>)
    ensures r.None? <==> exists t :: t in data && t.symbol.None?
    ensures r.Some? ==> forall t :: t in r.value <==> t in data && Kept(t)
    ensures r.Some? ==> multiset(r.value) <= multiset(data)
  {
    if exists t :: t in data && t.symbol.None? then None else Some(Filter(data, Kept))
  }

  // ---- ranking and slicing

  /** `float(x.get('quoteVolume', 0))` for a readable field. */
  function VolumeKey(t: Ticker): real
  {
    if t.quoteVolume.Number? then t.quoteVolume.value else 0.0
  }

  /** `sorted(..., key=volume, reverse=True)[:limit]`: an unreadable volume
      aborts the sort (None); otherwise the pairs largest volume first,
      cut at `limit` (a negative `limit` drops that many from the end). */
  function RankPairs(pairs: seq<Ticker>, limit: int): (r: Option<seq<Ticker>>)
    ensures r.None? <==> exists t :: t in pairs && t.quoteVolume.Malformed?
    ensures r.Some? ==> SortedDesc(r.value, VolumeKey) && multiset(r.value) <= multiset(pairs)
    ensures r.Some? && limit >= 0 ==> IsTopN(r.value, pairs, VolumeKey, limit)
    ensures r.Some? && limit < 0 ==> |r.value| == if |pairs| + limit >= 0 then |pairs| + limit else 0
    ensures r.Some? && limit < 0 ==> IsTopN(r.value, pairs, VolumeKey, if |pairs| + limit >= 0 then |pairs| + limit else 0)
  {
    if exists t :: t in pairs && t.quoteVolume.Malformed? then None
    else
      SliceOfSorted(pairs, limit);
      Some(SliceTo(SortDesc(pairs, VolumeKey), limit))
  }

  /** The sorted pairs cut at `limit` keep the order, take nothing twice,
      and are the top `limit` pairs, or for a negative `limit` the top
      pairs but the last `-limit`. */
  lemma SliceOfSorted(pairs: seq<Ticker>, limit: int)
    ensures var r := SliceTo(SortDesc(pairs, VolumeKey), limit);
            && SortedDesc(r, VolumeKey) && multiset(r) <= multiset(pairs)
            && (limit >= 0 ==> IsTopN(r, pairs, VolumeKey, limit))
            && (limit < 0 ==> IsTopN(r, pairs, VolumeKey, if |pairs| + limit >= 0 then |pairs| + limit else 0))
  {
    var sorted := SortDesc(pairs, VolumeKey);
    var r := SliceTo(sorted, limit);
    PrefixMultiset(sorted, |r|);
    if limit >= 0 {
      assert r == TopN(pairs, VolumeKey, limit);
    } else {
      assert r == TopN(pairs, VolumeKey, |r|);
    }
  }

  // ---- one output record per ranked pair

  /** How `_format_price` writes a price: digits after the point, and
      whether thousands are grouped with commas. */
  datatype PriceFormat = PriceFormat(decimals: nat, grouped: bool)

  /** `_format_price`'s choice of format. */
  function PriceFormatFor(price: real): (f: PriceFormat)
    ensures price >= 1000.0 <==> f.grouped
    ensures f.decimals == 2 <==> price >= 1.0
    ensures f.decimals == 4 <==> 0.01 <= price < 1.0
    ensures f.decimals == 8 <==> price < 0.01
  {
    if price >= 1000.0 then PriceFormat(2, true)
    else if price >= 1.0 then PriceFormat(2, false)
    else if price >= 0.01 then PriceFormat(4, false)
    else PriceFormat(8, false)
  }

  /** A smaller price is never shown with fewer decimals. */
  lemma PriceDecimalsShrink(p: real, q: real)
    requires p <= q
    ensures PriceFormatFor(q).decimals <= PriceFormatFor(p).decimals
  {
  }

  /** How `_format_volume` writes a volume: scaled down and given a suffix,
      always with two decimals. */
  datatype VolumeFormat = VolumeFormat(suffix: string, scaled: real)

  /** `_format_volume`'s choice of unit. */
  function VolumeFormatFor(volume: real): (f: VolumeFormat)
    ensures volume >= 1_000_000_000.0 ==> f == VolumeFormat("B", volume / 1_000_000_000.0)
    ensures 1_000_000.0 <= volume < 1_000_000_000.0 ==> f == VolumeFormat("M", volume / 1_000_000.0)
    ensures volume < 1_000_000.0 ==> f == VolumeFormat("K", volume / 1_000.0)
  {
    if volume >= 1_000_000_000.0 then VolumeFormat("B", volume / 1_000_000_000.0)
    else if volume >= 1_000_000.0 then VolumeFormat("M", volume / 1_000_000.0)
    else VolumeFormat("K", volume / 1_000.0)
  }

  /** The unit keeps the shown number readable: at least 1 in billions and
      millions, below 1000 in millions and thousands (for a non-negative
      volume, at least 0). */
  lemma VolumeScaledRange(volume: real)
    ensures VolumeFormatFor(volume).suffix != "K" ==> VolumeFormatFor(volume).scaled >= 1.0
    ensures VolumeFormatFor(volume).suffix != "B" ==> VolumeFormatFor(volume).scaled < 1000.0
    ensures volume >= 0.0 ==> VolumeFormatFor(volume).scaled >= 0.0
  {
  }

  /** The coin names `_get_crypto_name` knows. */
  const CryptoNames: map<string, string> := map[
    "BTC" := "Bitcoin", "ETH" := "Ethereum", "BNB" := "Binance Coin", "XRP" := "Ripple",
    "ADA" := "Cardano", "DOGE" := "Dogecoin", "SOL" := "Solana", "DOT" := "Polkadot",
    "MATIC" := "Polygon", "SHIB" := "Shiba Inu", "TRX" := "TRON", "AVAX" := "Avalanche",
    "LINK" := "Chainlink", "UNI" := "Uniswap", "ATOM" := "Cosmos"]

  /** `_get_crypto_name`: the listed name, or the symbol itself. */
  function CryptoName(symbol: string): (r: string)
    ensures symbol in CryptoNames ==> r == CryptoNames[symbol]
    ensures symbol !in CryptoNames ==> r == symbol
  {
    if symbol in CryptoNames then CryptoNames[symbol] else symbol
  }

  /** The fifteen listed coins and their names; any other symbol, such as
      a coin listed only by its name, is shown as it is. */
  lemma CryptoNameTable()
    ensures CryptoName("BTC") == "Bitcoin" && CryptoName("ETH") == "Ethereum"
    ensures CryptoName("BNB") == "Binance Coin" && CryptoName("XRP") == "Ripple"
    ensures CryptoName("ADA") == "Cardano" && CryptoName("DOGE") == "Dogecoin"
    ensures CryptoName("SOL") == "Solana" && CryptoName("DOT") == "Polkadot"
    ensures CryptoName("MATIC") == "Polygon" && CryptoName("SHIB") == "Shiba Inu"
    ensures CryptoName("TRX") == "TRON" && CryptoName("AVAX") == "Avalanche"
    ensures CryptoName("LINK") == "Chainlink" && CryptoName("UNI") == "Uniswap"
    ensures CryptoName("ATOM") == "Cosmos"
    ensures CryptoName("Bitcoin") == "Bitcoin"
  {
  }

  /** One output record. */
  datatype CryptoRow = CryptoRow(symbol: string, name: string, price: real, change: real, volume: real,
                                 priceFormat: PriceFormat, volumeFormat: VolumeFormat)

  /** `symbol.replace('USDT', '')`. */
  function StripQuote(symbol: string): string
  {
    ReplaceAll(symbol, Quote, "")
  }

  /** The record of one ranked pair; a missing or unreadable price, change
      or volume aborts (None). */
  function BuildRow(t: Ticker): (r: Option<CryptoRow>)
    requires t.symbol.Some?
    ensures r.Some? <==> t.lastPrice.Number? && t.priceChangePercent.Number? && t.quoteVolume.Number?
    ensures r.Some? ==> && r.value.symbol == StripQuote(t.symbol.value)
                        && r.value.name == CryptoName(r.value.symbol)
                        && r.value.price == t.lastPrice.value
                        && r.value.change == t.priceChangePercent.value
                        && r.value.volume == t.quoteVolume.value == VolumeKey(t)
                        && r.value.priceFormat == PriceFormatFor(r.value.price)
                        && r.value.volumeFormat == VolumeFormatFor(r.value.volume)
  {
    if t.lastPrice.Number? && t.priceChangePercent.Number? && t.quoteVolume.Number? then
      var symbol := StripQuote(t.symbol.value);
      var price := t.lastPrice.value;
      var volume := t.quoteVolume.value;
      Some(CryptoRow(symbol, CryptoName(symbol), price, t.priceChangePercent.value, volume,
                     PriceFormatFor(price), VolumeFormatFor(volume)))
    else None
  }

  /** The records of a list of pairs, in order, or None when any pair
      aborts. */
  function BuildRows(pairs: seq<Ticker>): Option<seq<CryptoRow>>
    requires forall t :: t in pairs ==> t.symbol.Some?
  {
    if exists i :: 0 <= i < |pairs| && BuildRow(pairs[i]).None? then None
    else Some(seq(|pairs|, i requires 0 <= i < |pairs| => BuildRow(pairs[i]).value))
  }

  /** The pairs the records are made from: the kept pairs ranked and cut,
      or None when the filter or the sort aborts. */
  function Ranked(data: seq<Ticker>, limit: int): (r: Option<seq<Ticker>>)
    ensures r.Some? ==> forall t :: t in r.value ==> t in data && Kept(t)
  {
    var pairs := UsdtPairs(data);
    if pairs.None? then None
    else
      var ranked := RankPairs(pairs.value, limit);
      if ranked.Some? then
        KeptRowsFromSource(ranked.value, pairs.value);
        ranked
      else None
  }

  /** What `get_top_cryptos` returns for a ticker list once fetched: the
      records of the ranked pairs, or nothing when any step aborts. */
  function TopCryptosOf(data: seq<Ticker>, limit: int): seq<CryptoRow>
  {
    var ranked := Ranked(data, limit);
    if ranked.None? then []
    else
      var rows := BuildRows(ranked.value);
      if rows.None? then [] else rows.value
  }

  /** The records come in ranking order: volumes never increase down the
      list, and there are at most `limit` of them. */
  lemma TopCryptosOrdered(data: seq<Ticker>, limit: int)
    ensures var rows := TopCryptosOf(data, limit);
            && (forall i, j :: 0 <= i < j < |rows| ==> rows[i].volume >= rows[j].volume)
            && (limit >= 0 ==> |rows| <= limit)
  {
    var rows := TopCryptosOf(data, limit);
    if rows != [] {
      var ranked := Ranked(data, limit).value;
      RecordsFollowPairs(ranked, rows);
    }
  }

  /** Record `i` is made from ranked pair `i`, a kept pair of the ticker
      list. */
  lemma TopCryptosFromData(data: seq<Ticker>, limit: int)
    ensures var rows := TopCryptosOf(data, limit);
            && (rows != [] ==> Ranked(data, limit).Some? && |rows| == |Ranked(data, limit).value|)
            && (forall i :: 0 <= i < |rows| ==>
                  var t := Ranked(data, limit).value[i];
                  t in data && Kept(t) && rows[i].symbol == StripQuote(t.symbol.value))
  {
    var rows := TopCryptosOf(data, limit);
    if rows != [] {
      var ranked := Ranked(data, limit).value;
      RecordsFollowPairs(ranked, rows);
      assert forall i :: 0 <= i < |ranked| ==> ranked[i] in ranked;
    }
  }

  /** Each record carries its pair's volume and stripped symbol. */
  lemma RecordsFollowPairs(pairs: seq<Ticker>, rows: seq<CryptoRow>)
    requires forall t :: t in pairs ==> t.symbol.Some?
    requires BuildRows(pairs) == Some(rows)
    ensures |rows| == |pairs|
    ensures forall i :: 0 <= i < |rows| ==>
              && rows[i].volume == VolumeKey(pairs[i])
              && pairs[i].symbol.Some? && rows[i].symbol == StripQuote(pairs[i].symbol.value)
  {
    forall i | 0 <= i < |rows|
      ensures && rows[i].volume == VolumeKey(pairs[i])
              && pairs[i].symbol.Some? && rows[i].symbol == StripQuote(pairs[i].symbol.value)
    {
      assert pairs[i] in pairs;
      assert BuildRow(pairs[i]) == Some(rows[i]);
    }
  }

  /** A ticker list in which every entry is complete and readable yields a
      record for each of the top `limit` kept pairs. */
  lemma WellFormedDataFillsLimit(data: seq<Ticker>, limit: nat)
    requires forall t :: t in data ==> t.symbol.Some? && t.lastPrice.Number? && t.priceChangePercent.Number? && t.quoteVolume.Number?
    ensures |TopCryptosOf(data, limit)| == Min(limit, CountOf(data, Kept))
  {
    var pairs := Filter(data, Kept);
    assert UsdtPairs(data) == Some(pairs);
    var ranked := RankPairs(pairs, limit);
    assert ranked.Some?;
    assert Ranked(data, limit) == ranked;
    assert |ranked.value| == Min(limit, |pairs|);
    RowsPresent(ranked.value, data);
  }

  /** Pairs whose fields are all readable each give a record. */
  lemma RowsPresent(pairs: seq<Ticker>, data: seq<Ticker>)
    requires forall t :: t in pairs ==> t in data
    requires forall t :: t in data ==> t.symbol.Some? && t.lastPrice.Number? && t.priceChangePercent.Number? && t.quoteVolume.Number?
    ensures BuildRows(pairs).Some? && |BuildRows(pairs).value| == |pairs|
  {
    forall i | 0 <= i < |pairs|
      ensures BuildRow(pairs[i]).Some?
    {
      assert pairs[i] in pairs;
    }
  }

  /** `get_top_cryptos` after the ticker list has been fetched: the filter
      and the ranking, then the loop building the records; any exception
      makes the result empty. */
  method TopCryptos(data: seq<Ticker>, limit: int) returns (result: seq<CryptoRow>)
    ensures result == TopCryptosOf(data, limit)
  {
    var ranked := Ranked(data, limit);
    if ranked.None? {
      return [];
    }
    var rows := BuildRecords(ranked.value);
    result := if rows.None? then [] else rows.value;
  }

  /** The loop of `get_top_cryptos` appending one record per ranked pair;
      a pair whose price, change or volume cannot be read raises, which
      abandons the list (None). */
  method BuildRecords(pairs: seq<Ticker>) returns (rows: Option<seq<CryptoRow>>)
    requires forall t :: t in pairs ==> t.symbol.Some?
    ensures rows == BuildRows(pairs)
  {
    var result := [];
    var i := 0;
    while i < |pairs|
      invariant 0 <= i <= |pairs|
      invariant |result| == i
      invariant forall k :: 0 <= k < i ==> BuildRow(pairs[k]) == Some(result[k])
    {
      var row := BuildRow(pairs[i]);
      if row.None? {
        RowsAbort(pairs, i);
        return None;
      }
      result := result + [row.value];
      i := i + 1;
    }
    RowsComplete(pairs, result);
    return Some(result);
  }

  /** A pair without a record aborts the whole list. */
  lemma RowsAbort(pairs: seq<Ticker>, i: nat)
    requires forall t :: t in pairs ==> t.symbol.Some?
    requires i < |pairs| && BuildRow(pairs[i]).None?
    ensures BuildRows(pairs) == None
  {
  }

  /** A record for every pair, in order, is the list's outcome. */
  lemma RowsComplete(pairs: seq<Ticker>, rows: seq<CryptoRow>)
    requires forall t :: t in pairs ==> t.symbol.Some?
    requires |rows| == |pairs| && forall k :: 0 <= k < |pairs| ==> BuildRow(pairs[k]) == Some(rows[k])
    ensures BuildRows(pairs) == Some(rows)
  {
    assert BuildRows(pairs).value == rows;
  }

  // ---- the symbol shown

  /** Removing "USDT" from a pair symbol gives back the base asset when the
      base does not itself contain "USDT": no occurrence straddles the
      boundary, because no proper prefix of "USDT" is also a suffix of
      it. */
  lemma {:induction false} StripQuoteOfPair(base: string)
    requires !Contains(base, Quote)
    ensures StripQuote(base + Quote) == base
    decreases |base|
  {
    var s := base + Quote;
    if base == [] {
      assert s == Quote;
      assert s[4..] == [];
    } else {
      if |base| >= 4 {
        assert s[..4] == base[..4];
        assert !StartsWith(base[0..], Quote);
        assert base[0..] == base;
      } else {
        assert s[|base|] == 'U' && Quote[|base|] != 'U';
      }
      assert s[..4] != Quote;
      assert !Contains(base[1..], Quote) by {
        forall i | 0 <= i <= |base[1..]|
          ensures !StartsWith(base[1..][i..], Quote)
        {
          assert base[1..][i..] == base[i + 1..];
        }
      }
      StripQuoteOfPair(base[1..]);
      assert s[1..] == base[1..] + Quote;
    }
  }

  // ---- the cache key

  /** `f'binance_top_cryptos_{limit}'`. */
  function CacheKey(limit: int): (r: string)
    ensures StartsWith(r, "binance_top_cryptos_")
    ensures limit >= 0 ==> AllDigits(r[20..]) && DigitsValue(r[20..]) == limit
    ensures limit < 0 ==> |r| > 21 && r[20] == '-' && AllDigits(r[21..]) && DigitsValue(r[21..]) == -limit
  {
    "binance_top_cryptos_" + IntToString(limit)
  }

  /** Each limit has its own cache entry. */
  lemma CacheKeyInjective(a: int, b: int)
    requires CacheKey(a) == CacheKey(b)
    ensures a == b
  {
    var p := "binance_top_cryptos_";
    assert IntToString(a) == CacheKey(a)[|p|..] == IntToString(b);
    IntToStringInjective(a, b);
  }
}

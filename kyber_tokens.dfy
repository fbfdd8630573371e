/**
 * Resolution of a token contract address to its symbol: a linear scan of the
 * static Kyber token table, memoised in a process-wide dictionary.
 */
module KyberTokens {

  /** One entry of the token table: its key (the symbol) and its `address`. */
  datatype TokenEntry = TokenEntry(symbol: string, address: string)

  /** The token table, in the order `Object.entries` visits it. */
  type TokenTable = seq<TokenEntry>

  /** What the resolver answers for an address no entry carries. */
  const Unknown: string := "UNKNOWN"

  /** Entry `i` is the first whose address is exactly `address`. */
  ghost predicate IsFirstMatch(tokens: TokenTable, address: string, i: int)
  {
    && 0 <= i < |tokens|
    && tokens[i].address == address
    && forall j :: 0 <= j < i ==> tokens[j].address != address
  }

  /** No entry's address is `address`. */
  ghost predicate NoMatch(tokens: TokenTable, address: string)
  {
    forall j :: 0 <= j < |tokens| ==> tokens[j].address != address
  }

  /** No two entries share an address. */
  ghost predicate DistinctAddresses(tokens: TokenTable)
  {
    forall i, j :: 0 <= i < j < |tokens| ==> tokens[i].address != tokens[j].address
  }

  /** What a fresh scan of the table answers for `address`. */
  function Scan(tokens: TokenTable, address: string): (r: string)
  {
    if tokens == [] then Unknown
    else if tokens[0].address == address then tokens[0].symbol
    else Scan(tokens[1..], address)
  }

  /** The scan answers the symbol of the first entry with an equal address. */
  lemma {:induction false} ScanFirstMatch(tokens: TokenTable, address: string, i: int)
    requires IsFirstMatch(tokens, address, i)
    ensures Scan(tokens, address) == tokens[i].symbol
  {
    if i > 0 {
      assert IsFirstMatch(tokens[1..], address, i - 1);
      ScanFirstMatch(tokens[1..], address, i - 1);
    }
  }

  /** The scan answers "UNKNOWN" when no entry has the address. */
  lemma {:induction false} ScanNoMatch(tokens: TokenTable, address: string)
    requires NoMatch(tokens, address)
    ensures Scan(tokens, address) == Unknown
  {
    if tokens != [] {
      assert NoMatch(tokens[1..], address);
      ScanNoMatch(tokens[1..], address);
    }
  }

  /**
   * The scan's answer is "UNKNOWN" or the symbol of an entry whose address
   * is exactly the one asked for.
   */
  lemma {:induction false} ScanIsKnownSymbol(tokens: TokenTable, address: string)
    ensures || Scan(tokens, address) == Unknown
            || exists i :: 0 <= i < |tokens| && tokens[i].address == address
                           && tokens[i].symbol == Scan(tokens, address)
  {
    if tokens != [] && tokens[0].address != address {
      ScanIsKnownSymbol(tokens[1..], address);
      if Scan(tokens, address) != Unknown {
        var i :| 0 <= i < |tokens[1..]| && tokens[1..][i].address == address
                 && tokens[1..][i].symbol == Scan(tokens[1..], address);
        assert tokens[i + 1] == tokens[1..][i];
      }
    }
  }

  /**
   * When no symbol in the table is literally "UNKNOWN", the scan answers
   * "UNKNOWN" exactly when no entry has the address.
   */
  lemma ScanUnknownIff(tokens: TokenTable, address: string)
    requires forall j :: 0 <= j < |tokens| ==> tokens[j].symbol != Unknown
    ensures Scan(tokens, address) == Unknown <==> NoMatch(tokens, address)
  {
    if NoMatch(tokens, address) {
      ScanNoMatch(tokens, address);
    } else {
      ScanIsKnownSymbol(tokens, address);
    }
  }

  /** With distinct addresses, every address in the table resolves to its own symbol. */
  lemma ScanDistinct(tokens: TokenTable, i: int)
    requires DistinctAddresses(tokens)
    requires 0 <= i < |tokens|
    ensures Scan(tokens, tokens[i].address) == tokens[i].symbol
  {
    ScanFirstMatch(tokens, tokens[i].address, i);
  }

  /** Skipping a prefix that holds no match does not change the scan's answer. */
  lemma {:induction false} ScanSkip(tokens: TokenTable, address: string, i: nat)
    requires i < |tokens| && tokens[i].address != address
    ensures Scan(tokens[i..], address) == Scan(tokens[i + 1..], address)
  {
    assert tokens[i..][1..] == tokens[i + 1..];
  }

  /**
   * The scan itself: a loop over the entries in order that returns the key
   * of the first entry with an equal address, or "UNKNOWN" after the last.
   */
  method IterateOverKyberTokens(tokens: TokenTable, address: string) returns (symbol: string)
    ensures symbol == Scan(tokens, address)
    ensures || (exists i :: IsFirstMatch(tokens, address, i) && symbol == tokens[i].symbol)
            || (NoMatch(tokens, address) && symbol == Unknown)
  {
    for i := 0 to |tokens|
      invariant forall j :: 0 <= j < i ==> tokens[j].address != address
      invariant Scan(tokens[i..], address) == Scan(tokens, address)
    {
      if address == tokens[i].address {
        assert IsFirstMatch(tokens, address, i);
        return tokens[i].symbol;
      }
      ScanSkip(tokens, address, i);
    }
    return Unknown;
  }

  /** Every cached entry is what a fresh scan of the table answers for its key. */
  ghost predicate Consistent(tokens: TokenTable, cache: map<string, string>)
  {
    forall k :: k in cache ==> cache[k] == Scan(tokens, k)
  }

  /** A cache entry counts as a hit only when it is present and truthy (a non-empty string). */
  predicate IsHit(cache: map<string, string>, address: string)
  {
    address in cache && cache[address] != ""
  }

  /** A consistent cache holds only "UNKNOWN" and symbols of entries with the cached address. */
  lemma ConsistentCacheValue(tokens: TokenTable, cache: map<string, string>, k: string)
    requires Consistent(tokens, cache)
    requires k in cache
    ensures || cache[k] == Unknown
            || exists i :: 0 <= i < |tokens| && tokens[i].address == k && tokens[i].symbol == cache[k]
  {
    ScanIsKnownSymbol(tokens, k);
  }

  /**
   * The module-level `TOKEN_MAP` together with the token table it memoises.
   * `scans` counts how many times a lookup has fallen through to the table.
   */
  class TokenSymbolCache {
    const tokens: TokenTable
    var tokenMap: map<string, string>
    ghost var scans: nat

    ghost predicate Valid()
      reads this
    {
      Consistent(tokens, tokenMap)
    }

    /** The cache starts empty. */
    constructor (tokens: TokenTable)
      ensures this.tokens == tokens && tokenMap == map[] && scans == 0
      ensures Valid()
    {
      this.tokens := tokens;
      tokenMap := map[];
      scans := 0;
    }

    /**
     * A truthy cached value is returned as it is; otherwise the table is
     * scanned. Either way the answer is written back under `address`, so
     * "UNKNOWN" is cached too, and no other key changes.
     */
    method GetTokenSymbol(address: string) returns (symbol: string)
      requires Valid()
      modifies this
      ensures Valid()
      ensures symbol == Scan(tokens, address)
      ensures tokenMap == old(tokenMap)[address := symbol]
      ensures IsHit(old(tokenMap), address) ==>
                symbol == old(tokenMap)[address] && tokenMap == old(tokenMap) && scans == old(scans)
      ensures !IsHit(old(tokenMap), address) ==> scans == old(scans) + 1
    {
      if IsHit(tokenMap, address) {
        symbol := tokenMap[address];
      } else {
        symbol := IterateOverKyberTokens(tokens, address);
        scans := scans + 1;
      }
      tokenMap := tokenMap[address := symbol];
    }
  }

  /**
   * Two lookups of one address give the same answer, the one a scan gives,
   * and the second does not scan again unless that answer is the empty string.
   */
  method LookupTwice(cache: TokenSymbolCache, address: string) returns (first: string, second: string)
    requires cache.Valid()
    modifies cache
    ensures cache.Valid()
    ensures first == second == Scan(cache.tokens, address)
    ensures cache.tokenMap == old(cache.tokenMap)[address := first]
    ensures first != "" ==>
              cache.scans == old(cache.scans) + (if IsHit(old(cache.tokenMap), address) then 0 else 1)
  {
    first := cache.GetTokenSymbol(address);
    ghost var afterFirst := cache.scans;
    second := cache.GetTokenSymbol(address);
    assert first != "" ==> cache.scans == afterFirst;
  }
}

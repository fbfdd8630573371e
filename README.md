# The Kyber Whales: token symbol resolver and trade cell formatting

The Kyber Whales is a single-page view that lists large Kyber trades and
shows them in a table. Apart from rendering, its logic is all in
`src/App.tsx`. This project models two parts of it in Dafny:

- **The token symbol resolver.** `_iterateOverKyberTokens` scans the static
  Kyber token table in `Object.entries` order. It returns the key (the symbol)
  of the first entry whose `address` is exactly the input, and `'UNKNOWN'` when
  no entry matches. `getTokenSymbol` puts the process-wide dictionary
  `TOKEN_MAP` in front of that scan. A truthy cached value is returned as it
  is. Otherwise the table is scanned. In both cases the answer is written back,
  so `'UNKNOWN'` is cached too.
- **The cell strings of the "Transaction ID", "Trader" and "Token Bought"
  columns.** These are the Etherscan link targets and the truncated labels.
  They use JavaScript's `split` and `substr`, and the model reproduces those
  functions' clamping rules.

Modules:

- `JsString` (`js_string.dfy`): `Split`/`Join` and `Substr`, with JavaScript semantics, and `IndexOf`, a helper that gives the first position of a character, or `|s|` when it is absent (not JavaScript's -1). The source does not call `indexOf`; the helper only serves to state what `split` gives.
- `KyberTokens` (`kyber_tokens.dfy`):
  - the token table, a sequence of `TokenEntry(symbol, address)` in iteration order;
  - `Scan`, the specification function for the scan;
  - `IterateOverKyberTokens`, the loop itself;
  - the class `TokenSymbolCache`, holding `TOKEN_MAP` as a `map<string, string>` field.
- `TradeColumns` (`trade_columns.dfy`): the cells as `Link(href, text)` values.

The cache's object invariant is `Consistent`: every cached entry equals what a
fresh scan answers for its key. It holds for the empty cache, and
`GetTokenSymbol` preserves it. So every lookup answers exactly what the scan
answers, and repeated lookups agree. A ghost counter `scans` counts how often
a lookup reaches the table. It shows that after the first lookup of an
address, later lookups do not scan again. The one exception is a table symbol
that is the empty string, which is falsy and so never counts as a hit.

The trader label ends with `trader.substr(trader.length - 6, trader.length)`.
For an address of six or more characters this is its last six characters. For
a shorter string, JavaScript counts the negative start from the end a second
time, so the tail starts at `max(2·length − 6, 0)`. `TraderCell` states both
cases.

## Model

| member | source | states |
|---|---|---|
| `KyberTokens.IterateOverKyberTokens` | src/App.tsx:60-65 | The loop returns the symbol of the first entry (in iteration order) whose address equals the input, or "UNKNOWN" when no entry's address does. Its answer equals `Scan`. |
| `KyberTokens.ScanFirstMatch` | src/App.tsx:61-62 | When entry i is the first with an address exactly equal to the input, the scan answers entry i's key. |
| `KyberTokens.ScanNoMatch` | src/App.tsx:64 | When no entry has the input address, the scan answers "UNKNOWN". |
| `KyberTokens.ScanIsKnownSymbol` | src/App.tsx:60-65 | The scan's answer is either "UNKNOWN" or the key of an entry whose address equals the input. |
| `KyberTokens.ScanUnknownIff` | src/App.tsx:60-65 | If no key in the table is literally "UNKNOWN", then the scan answers "UNKNOWN" if and only if no entry has the address. |
| `KyberTokens.ScanDistinct` | src/App.tsx:61-62 | If the table's addresses are pairwise distinct, every address in the table resolves to its own entry's symbol. |
| `KyberTokens.ConsistentCacheValue` | src/App.tsx:67-72 | In a cache that agrees with the scan, every value is "UNKNOWN" or the key of an entry carrying the cached address. |
| `KyberTokens.TokenSymbolCache.constructor` | src/App.tsx:26 | `TOKEN_MAP` starts empty, which satisfies the cache invariant. |
| `KyberTokens.TokenSymbolCache.GetTokenSymbol` | src/App.tsx:67-73 | Preserves the cache invariant and returns the scan's answer. The new cache is the old one with `address` set to the answer, and every other key is unchanged. On a truthy hit it returns the cached value, leaves the cache as it was and does not scan. On a miss it scans once. |
| `KyberTokens.LookupTwice` | src/App.tsx:67-73 | Two lookups of one address return the same value, namely the scan's answer. If that answer is non-empty, the pair scans once on a miss and not at all on a hit, so the second lookup does not scan. |
| `JsString.Split` | src/App.tsx:81 | `split` always gives at least one piece, and no piece contains the separator. |
| `JsString.JoinSplit` | src/App.tsx:81 | Joining the pieces of `split` with the same separator gives the original string back. |
| `JsString.SplitHead` | src/App.tsx:81-83 | The first piece of `split` (`cleanTx[0]`) is the prefix of the string before the first separator. |
| `JsString.Substr` | src/App.tsx:86 | The result of `substr` is never longer than the string or than a non-negative requested length. |
| `JsString.SubstrFromStart` | src/App.tsx:86 | `substr(0, n)` is the first `min(n, length)` characters. |
| `JsString.SubstrFromEnd` | src/App.tsx:99 | `substr(length − k, length)` is the last k characters when the string has at least k characters. Otherwise it starts at `max(2·length − k, 0)`. |
| `TradeColumns.IdCell` | src/App.tsx:80-87 | The link target is the tx URL followed by the id up to its first '-'. The text is the first `min(10, length)` characters of the id followed by "...". |
| `TradeColumns.IdCellTarget` | src/App.tsx:81-83 | An id with no '-' links in full. An id that starts with '-' links to the bare tx URL. |
| `TradeColumns.TraderCell` | src/App.tsx:94-100 | The link target is the address URL followed by the whole trader string. For a string of at least 6 characters, the text is its first `min(10, length)` characters, then "...", then its last 6 characters. For a shorter string it is the whole string, then "...", then the tail from `max(2·length − 6, 0)`. |
| `TradeColumns.TraderCellOfAddress` | src/App.tsx:99 | For a 42-character address the text is 19 characters: the first 10, then "...", then the last 6. |
| `TradeColumns.TokenBoughtCell` | src/App.tsx:114-119 | The cell links to the token page of the contract, and its text is the scan's answer for that contract. The lookup goes through the cache and keeps the cache invariant. It scans the table only on a miss. |

## Left out

- The contents of `KyberConstants` (`./kyberConstants` is not part of this model): the token table is a parameter of the cache, a sequence of (symbol, address) pairs in `Object.entries` order. Each entry's metadata other than its address is dropped.
- Inherited `Object.prototype` properties: `TOKEN_MAP` is modelled as a plain dictionary. In JavaScript a lookup of a name such as `"constructor"` or `"toString"` finds an inherited, truthy value. An assignment to `"__proto__"` also behaves differently. Contract addresses never take these forms.
- The amount columns (src/App.tsx:103-110, 121-127): they call the foreign `fromWei` and then do floating-point rounding with `toFixed(2)`.
- The Apollo client, the GraphQL query text and the remote endpoint (src/App.tsx:17-20, 28-45): network I/O and a static string.
- The startup check of the endpoint environment variable (src/App.tsx:11-13): environment I/O.
- React/JSX rendering, the antd table, the choice between loading, error and data in the query's render prop, `console.log`, and the header and attribution markup (src/App.tsx:130-176): UI glue. The model keeps only each cell's link target and text.
- JavaScript strings are UTF-16 code-unit sequences. The model uses Dafny's `seq<char>` and does not distinguish surrogate pairs.

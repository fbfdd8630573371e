/**
 * The string content of the trade table's cells: the Etherscan link each
 * cell points at and the text it shows.
 */
module TradeColumns {
  import opened JsString
  import opened KyberTokens

  /** An anchor: its link target and its text. */
  datatype Link = Link(href: string, text: string)

  const TxUrl: string := "https://etherscan.io/tx/"
  const AddressUrl: string := "https://etherscan.io/address/"
  const TokenUrl: string := "https://etherscan.io/token/"
  const Ellipsis: string := "..."

  /**
   * The "Transaction ID" cell. The id is `<tx hash>-<log index>`; the link
   * goes to the part before the first '-', and the text is the first ten
   * characters of the whole id followed by "...".
   */
  function IdCell(id: string): (cell: Link)
    ensures cell.href == TxUrl + id[..IndexOf(id, '-')]
    ensures cell.text == id[..Min(10, |id|)] + Ellipsis
  {
    SplitHead(id, '-');
    SubstrFromStart(id, 10);
    Link(TxUrl + Split(id, '-')[0], Substr(id, 0, 10) + Ellipsis)
  }

  /** An id without '-' links in full; one that starts with '-' links to the bare URL. */
  lemma IdCellTarget(id: string)
    ensures '-' !in id ==> IdCell(id).href == TxUrl + id
    ensures |id| > 0 && id[0] == '-' ==> IdCell(id).href == TxUrl
  {
  }

  /**
   * The "Trader" cell. The link goes to the whole address; the text is its
   * first ten characters, "...", and `trader.substr(trader.length - 6, trader.length)`,
   * which is the last six characters whenever the address has at least six.
   */
  function TraderCell(trader: string): (cell: Link)
    ensures cell.href == AddressUrl + trader
    ensures |trader| >= 6 ==>
              cell.text == trader[..Min(10, |trader|)] + Ellipsis + trader[|trader| - 6..]
    ensures |trader| < 6 ==>
              cell.text == trader + Ellipsis + trader[Max(2 * |trader| - 6, 0)..]
  {
    SubstrFromStart(trader, 10);
    SubstrFromEnd(trader, 6);
    assert |trader| < 6 ==> trader[..Min(10, |trader|)] == trader;
    Link(AddressUrl + trader, Substr(trader, 0, 10) + Ellipsis + Substr(trader, |trader| - 6, |trader|))
  }

  /** An Ethereum address as the trade data carries it: "0x" and 40 hex digits. */
  lemma TraderCellOfAddress(trader: string)
    requires |trader| == 42
    ensures |TraderCell(trader).text| == 19
    ensures TraderCell(trader).text == trader[..10] + Ellipsis + trader[36..]
  {
  }

  /**
   * The "Token Bought" cell: a link to the token's page whose text is the
   * resolved symbol, which goes through (and updates) the symbol cache.
   */
  method TokenBoughtCell(cache: TokenSymbolCache, tokenContract: string) returns (cell: Link)
    requires cache.Valid()
    modifies cache
    ensures cache.Valid()
    ensures cell == Link(TokenUrl + tokenContract, Scan(cache.tokens, tokenContract))
    ensures cache.tokenMap == old(cache.tokenMap)[tokenContract := cell.text]
    ensures IsHit(old(cache.tokenMap), tokenContract) ==>
              cache.tokenMap == old(cache.tokenMap) && cache.scans == old(cache.scans)
    ensures !IsHit(old(cache.tokenMap), tokenContract) ==> cache.scans == old(cache.scans) + 1
  {
    var symbol := cache.GetTokenSymbol(tokenContract);
    cell := Link(TokenUrl + tokenContract, symbol);
  }
}

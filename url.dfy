/**
 * The parts of a URL the image loader looks at: its scheme and its query,
 * split as the generic URI-reference pattern of appendix B of RFC 3986 does,
 * and the query's `name=value` items, percent-decoded.
 */
module Url {
  import opened Wrappers
  import opened Text
  import opened PercentEncoding

  datatype Url = Url(scheme: Option<string>, query: Option<string>)

  predicate NoGenDelims(s: string) {
    ':' !in s && '/' !in s && '?' !in s && '#' !in s
  }

  /** `s` up to, and not including, its first `d`. */
  function UpTo(s: string, d: char): (r: string)
    ensures d !in r
  {
    match IndexOf(s, d)
    case None => s
    case Some(i) => s[..i]
  }

  /** The query of the text after the scheme: from the first `?` (if no `#` comes before it) up to the next `#`. */
  function QueryOf(rest: string): Option<string> {
    if rest == [] then None
    else if rest[0] == '#' then None
    else if rest[0] == '?' then Some(UpTo(rest[1..], '#'))
    else QueryOf(rest[1..])
  }

  /**
   * Scheme and query of a URI reference: the scheme is the non-empty text
   * before the first `:` when that text holds no `/`, `?` or `#`.
   */
  function Parse(s: string): Url {
    match IndexOf(s, ':')
    case Some(i) =>
      if i > 0 && NoGenDelims(s[..i]) then Url(Some(s[..i]), QueryOf(s[i + 1..]))
      else Url(None, QueryOf(s))
    case None => Url(None, QueryOf(s))
  }

  /** An authority-only URL `scheme://` followed by `?query` has that scheme and that query. */
  lemma {:induction false} ParseSchemeAndQuery(scheme: string, query: string)
    requires scheme != [] && NoGenDelims(scheme)
    requires '#' !in query
    ensures Parse(scheme + "://?" + query) == Url(Some(scheme), Some(query))
  {
    var s := scheme + "://?" + query;
    var i := |scheme|;
    assert s[i] == ':' && s[..i] == scheme;
    assert IndexOf(s, ':') == Some(i);
    var rest := s[i + 1..];
    assert rest == "//?" + query;
    assert rest[1..] == "/?" + query && rest[1..][1..] == "?" + query;
    assert ("?" + query)[1..] == query;
    assert UpTo(query, '#') == query;
    assert QueryOf("?" + query) == Some(query);
    assert QueryOf(rest) == QueryOf(rest[1..]) == QueryOf("?" + query);
  }

  // ---------------------------------------------------------------------------
  // Query items
  // ---------------------------------------------------------------------------

  /** One query item: a name and, when the item had an `=`, a value. */
  datatype QueryItem = QueryItem(name: string, value: Option<string>)

  /**
   * One `&`-separated piece of a query: the percent-decoded text before its
   * first `=` is the name and the text after it the value; a piece with no
   * `=` has no value. None when the percent escapes do not decode.
   */
  function ParseItem(piece: string): Option<QueryItem> {
    match IndexOf(piece, '=')
    case None =>
      (match PercentDecode(piece)
       case None => None
       case Some(name) => Some(QueryItem(name, None)))
    case Some(i) =>
      match (PercentDecode(piece[..i]), PercentDecode(piece[i + 1..]))
      case (Some(name), Some(value)) => Some(QueryItem(name, Some(value)))
      case _ => None
  }

  function ParseItems(pieces: seq<string>): (r: Option<seq<QueryItem>>)
    ensures r.Some? ==> |r.value| == |pieces|
  {
    if pieces == [] then Some([])
    else
      match (ParseItem(pieces[0]), ParseItems(pieces[1..]))
      case (Some(item), Some(rest)) => Some([item] + rest)
      case _ => None
  }

  /** Reading a list of pieces reads its first piece and then the rest. */
  lemma ParseItemsCons(pieces: seq<string>, item: QueryItem, rest: seq<QueryItem>)
    requires pieces != []
    requires ParseItem(pieces[0]) == Some(item) && ParseItems(pieces[1..]) == Some(rest)
    ensures ParseItems(pieces) == Some([item] + rest)
  {
  }

  /** A list of pieces each of which reads as an item reads as the list of those items. */
  lemma {:induction false} ParseItemsAll(pieces: seq<string>, items: seq<QueryItem>)
    requires |pieces| == |items|
    requires forall i :: 0 <= i < |pieces| ==> ParseItem(pieces[i]) == Some(items[i])
    ensures ParseItems(pieces) == Some(items)
  {
    if pieces != [] {
      ParseItemsAll(pieces[1..], items[1..]);
      ParseItemsCons(pieces, items[0], items[1..]);
      assert items == [items[0]] + items[1..];
    }
  }

  /** The items of a query, in order; None when the query cannot be decoded. */
  function QueryItems(query: string): Option<seq<QueryItem>> {
    ParseItems(Split(query, '&'))
  }

  /** `URLComponents(url:).queryItems`: None for a URL with no query or one that cannot be decoded. */
  function UrlQueryItems(url: Url): Option<seq<QueryItem>> {
    match url.query
    case None => None
    case Some(q) => QueryItems(q)
  }
}

/**
 * The JavaScript side of the `expo-photos://` image URL
 * (src/PHImageSource.tsx): the query-string builder and the image source
 * made from an asset's options.
 */
module ImageSource {
  import opened Wrappers
  import opened Text
  import opened PercentEncoding
  import opened PhotoKit
  import Url

  /** A `CGSize` as JavaScript passes it; the model restricts its numbers to integers. */
  datatype JsSize = JsSize(width: int, height: int)

  /** `PHImageSourceOptions`; a field that is None is `undefined`. */
  datatype PHImageSourceOptions = PHImageSourceOptions(
    localIdentifier: Option<string>,
    targetSize: Option<JsSize>,
    resizeMode: Option<ResizeMode>,
    deliveryMode: Option<ImageDeliveryMode>,
    contentMode: Option<ContentMode>,
    isNetworkAccessAllowed: Option<bool>)

  /** The `{ uri }` object handed to React Native's `Image`. */
  datatype ImageSource = ImageSource(uri: string)

  /** One entry of the record given to `buildQueryString`: a key and a value that may be `undefined` (None). */
  type Param = (string, Option<string>)

  const Scheme: string := "expo-photos"

  // ---------------------------------------------------------------------------
  // Dropping undefined entries
  // ---------------------------------------------------------------------------

  /** The entries whose value is defined, in their original order. */
  function DefinedEntries(params: seq<Param>): (entries: seq<(string, string)>)
    ensures entries == [] <==> forall i :: 0 <= i < |params| ==> params[i].1.None?
  {
    if params == [] then []
    else
      var front := DefinedEntries(params[..|params| - 1]);
      var last := params[|params| - 1];
      assert forall i :: 0 <= i < |params| - 1 ==> params[..|params| - 1][i] == params[i];
      match last.1
      case None => front
      case Some(v) => front + [(last.0, v)]
  }

  /** The positions of the defined entries, in increasing order. */
  function DefinedIndices(params: seq<Param>): (idx: seq<nat>)
    ensures forall j :: 0 <= j < |idx| ==> idx[j] < |params| && params[idx[j]].1.Some?
    ensures forall j, k :: 0 <= j < k < |idx| ==> idx[j] < idx[k]
    ensures forall i :: 0 <= i < |params| && params[i].1.Some? ==> i in idx
  {
    if params == [] then []
    else
      var front := DefinedIndices(params[..|params| - 1]);
      if params[|params| - 1].1.Some? then front + [|params| - 1] else front
  }

  /**
   * Filtering keeps exactly the defined entries, in order: the j-th entry
   * kept is the entry at the j-th defined position.
   */
  lemma {:induction false} DefinedEntriesAt(params: seq<Param>)
    ensures |DefinedEntries(params)| == |DefinedIndices(params)|
    ensures forall j :: 0 <= j < |DefinedIndices(params)| ==>
      var p := params[DefinedIndices(params)[j]];
      DefinedEntries(params)[j] == (p.0, p.1.value)
  {
    if params != [] {
      var front := params[..|params| - 1];
      DefinedEntriesAt(front);
      var es, idx := DefinedEntries(params), DefinedIndices(params);
      var es', idx' := DefinedEntries(front), DefinedIndices(front);
      forall j | 0 <= j < |idx|
        ensures es[j] == (params[idx[j]].0, params[idx[j]].1.value)
      {
        if j < |idx'| {
          assert es[j] == es'[j] && idx[j] == idx'[j];
          assert front[idx'[j]] == params[idx[j]];
        }
      }
    }
  }

  // ---------------------------------------------------------------------------
  // buildQueryString
  // ---------------------------------------------------------------------------

  /** One `key=value` pair with both sides passed through `encodeURIComponent`. */
  function EncodeEntry(e: (string, string)): string {
    EncodeURIComponent(e.0) + "=" + EncodeURIComponent(e.1)
  }

  function EncodeEntries(entries: seq<(string, string)>): seq<string> {
    seq(|entries|, i requires 0 <= i < |entries| => EncodeEntry(entries[i]))
  }

  /**
   * `buildQueryString`: the empty text when no value is defined, otherwise
   * `?` followed by the encoded pairs of the defined entries joined by `&`.
   */
  function BuildQueryString(params: seq<Param>): (q: string)
    ensures q == "" <==> forall i :: 0 <= i < |params| ==> params[i].1.None?
    ensures q != "" ==> q[0] == '?'
  {
    var entries := DefinedEntries(params);
    if entries == [] then "" else "?" + Join(EncodeEntries(entries), '&')
  }

  /** An encoded pair holds only unreserved characters, `%` and `=`. */
  lemma EncodeEntryAlphabet(e: (string, string))
    ensures forall i :: 0 <= i < |EncodeEntry(e)| ==>
      Unreserved(EncodeEntry(e)[i]) || EncodeEntry(e)[i] == '%' || EncodeEntry(e)[i] == '='
  {
    var k, v := EncodeURIComponent(e.0), EncodeURIComponent(e.1);
    var s := EncodeEntry(e);
    forall i | 0 <= i < |s| ensures Unreserved(s[i]) || s[i] == '%' || s[i] == '=' {
      if i < |k| {
        assert s[i] == k[i];
      } else if i > |k| {
        assert s[i] == v[i - |k| - 1];
      }
    }
  }

  /** An encoded pair holds no `&` and exactly one `=`, right after the encoded key. */
  lemma EncodeEntryShape(e: (string, string))
    ensures '&' !in EncodeEntry(e)
    ensures forall i :: 0 <= i < |EncodeEntry(e)| ==>
      Unreserved(EncodeEntry(e)[i]) || EncodeEntry(e)[i] == '%' || EncodeEntry(e)[i] == '='
    ensures IndexOf(EncodeEntry(e), '=') == Some(|EncodeURIComponent(e.0)|)
  {
    var k := EncodeURIComponent(e.0);
    var s := EncodeEntry(e);
    EncodeEntryAlphabet(e);
    assert '=' !in k;
    assert s[|k|] == '=' && s[..|k|] == k;
  }

  /** Reading an encoded pair back as a query item gives the original key and value. */
  lemma ParseEncodedEntry(e: (string, string))
    ensures Url.ParseItem(EncodeEntry(e)) == Some(Url.QueryItem(e.0, Some(e.1)))
  {
    var k, v := EncodeURIComponent(e.0), EncodeURIComponent(e.1);
    var s := EncodeEntry(e);
    EncodeEntryShape(e);
    assert s[..|k|] == k && s[|k| + 1..] == v;
    DecodeEncode(e.0);
    DecodeEncode(e.1);
  }

  /** The query items a list of defined entries becomes on the native side. */
  function ItemsOf(entries: seq<(string, string)>): seq<Url.QueryItem> {
    seq(|entries|, i requires 0 <= i < |entries| => Url.QueryItem(entries[i].0, Some(entries[i].1)))
  }

  /** The encoded pairs read back as the entries' query items, in order. */
  lemma ParseEncodedEntries(entries: seq<(string, string)>)
    ensures Url.ParseItems(EncodeEntries(entries)) == Some(ItemsOf(entries))
  {
    var pieces := EncodeEntries(entries);
    var items := ItemsOf(entries);
    forall i | 0 <= i < |pieces| ensures Url.ParseItem(pieces[i]) == Some(items[i]) {
      ParseEncodedEntry(entries[i]);
    }
    Url.ParseItemsAll(pieces, items);
  }

  /**
   * A non-empty query splits on `&` into exactly the encoded pairs, none of
   * them empty (so there is no leading, trailing or doubled `&`), and
   * splitting each on its first `=` and decoding gives back the defined
   * entries in order.
   */
  lemma QueryRecoversEntries(params: seq<Param>)
    requires BuildQueryString(params) != ""
    ensures var q := BuildQueryString(params);
      && Split(q[1..], '&') == EncodeEntries(DefinedEntries(params))
      && (forall i :: 0 <= i < |Split(q[1..], '&')| ==> Split(q[1..], '&')[i] != "")
      && Url.QueryItems(q[1..]) == Some(ItemsOf(DefinedEntries(params)))
  {
    var entries := DefinedEntries(params);
    var pieces := EncodeEntries(entries);
    forall i | 0 <= i < |pieces| ensures '&' !in pieces[i] && pieces[i] != "" {
      EncodeEntryShape(entries[i]);
    }
    SplitJoin(pieces, '&');
    assert BuildQueryString(params)[1..] == Join(pieces, '&');
    ParseEncodedEntries(entries);
  }

  // ---------------------------------------------------------------------------
  // createPHImageSource
  // ---------------------------------------------------------------------------

  /** `Boolean.prototype.toString`. */
  function BoolText(b: bool): string {
    if b then "true" else "false"
  }

  /** The `targetSize` value: `${width}x${height}`. */
  function TargetSizeText(s: JsSize): string {
    IntText(s.width) + "x" + IntText(s.height)
  }

  function MapText<T>(o: Option<T>, text: T -> string): Option<string> {
    match o
    case None => None
    case Some(x) => Some(text(x))
  }

  /** The record `createPHImageSource` hands to `buildQueryString`, in its key order. */
  function SourceParams(o: PHImageSourceOptions, localIdentifier: string): seq<Param> {
    [ ("localIdentifier", Some(localIdentifier)),
      ("targetSize", MapText(o.targetSize, TargetSizeText)),
      ("resizeMode", MapText(o.resizeMode, m => IntText(ResizeModeRaw(m)))),
      ("deliveryMode", MapText(o.deliveryMode, m => IntText(ImageDeliveryModeRaw(m)))),
      ("contentMode", MapText(o.contentMode, m => IntText(ContentModeRaw(m)))),
      ("isNetworkAccessAllowed", MapText(o.isNetworkAccessAllowed, BoolText)) ]
  }

  /**
   * `createPHImageSource`: no source for a missing or empty identifier;
   * otherwise a URI that starts with `expo-photos://` and goes on with the
   * built query.
   */
  function CreatePHImageSource(o: PHImageSourceOptions): (r: Option<ImageSource>)
    ensures r.None? <==> o.localIdentifier.None? || o.localIdentifier.value == ""
    ensures r.Some? ==> |r.value.uri| > |Scheme| + 3 && r.value.uri[..|Scheme| + 3] == Scheme + "://"
    ensures r.Some? ==> r.value.uri == Scheme + "://" + BuildQueryString(SourceParams(o, o.localIdentifier.value))
  {
    match o.localIdentifier
    case None => None
    case Some(id) =>
      if id == "" then None
      else
        var params := SourceParams(o, id);
        assert params[0].1.Some?;
        var query := BuildQueryString(params);
        assert (Scheme + "://" + query)[..|Scheme| + 3] == Scheme + "://";
        Some(ImageSource(Scheme + "://" + query))
  }

  /** The keys of the source parameters, in the order the record lists them. */
  const KeyOrder: seq<string> :=
    ["localIdentifier", "targetSize", "resizeMode", "deliveryMode", "contentMode", "isNetworkAccessAllowed"]

  /** Whether the source parameters define a value for the key at position `i` of `KeyOrder`. */
  predicate Present(o: PHImageSourceOptions, i: nat)
    requires i < |KeyOrder|
  {
    match i
    case 0 => true
    case 1 => o.targetSize.Some?
    case 2 => o.resizeMode.Some?
    case 3 => o.deliveryMode.Some?
    case 4 => o.contentMode.Some?
    case _ => o.isNetworkAccessAllowed.Some?
  }

  function KeyRank(key: string): nat {
    if key == "localIdentifier" then 0
    else if key == "targetSize" then 1
    else if key == "resizeMode" then 2
    else if key == "deliveryMode" then 3
    else if key == "contentMode" then 4
    else 5
  }

  /** The source parameters list the keys of `KeyOrder` in order, each defined exactly when its option is given. */
  lemma SourceParamsShape(o: PHImageSourceOptions, id: string)
    ensures var ps := SourceParams(o, id);
      && |ps| == |KeyOrder|
      && ps[0].1 == Some(id)
      && forall i :: 0 <= i < |KeyOrder| ==> ps[i].0 == KeyOrder[i] && (Present(o, i) <==> ps[i].1.Some?)
  {
  }

  lemma KeyRankOrder()
    ensures forall i :: 0 <= i < |KeyOrder| ==> KeyRank(KeyOrder[i]) == i
  {
  }

  /**
   * The pairs of an image source's query: `localIdentifier` first, then
   * each other key of `KeyOrder` exactly when its option is given, always in
   * that order.
   */
  lemma SourceEntriesOrder(o: PHImageSourceOptions, id: string)
    ensures var es := DefinedEntries(SourceParams(o, id));
      && |es| >= 1 && es[0] == ("localIdentifier", id)
      && (forall j, k :: 0 <= j < k < |es| ==> KeyRank(es[j].0) < KeyRank(es[k].0))
      && (forall i :: 0 <= i < |KeyOrder| ==>
            (Present(o, i) <==> exists j :: 0 <= j < |es| && es[j].0 == KeyOrder[i]))
  {
    var ps := SourceParams(o, id);
    var es := DefinedEntries(ps);
    var idx := DefinedIndices(ps);
    DefinedEntriesAt(ps);
    SourceParamsShape(o, id);
    KeyRankOrder();
    assert 0 in idx;
    assert idx[0] == 0 by {
      var j :| 0 <= j < |idx| && idx[j] == 0;
    }
    forall j | 0 <= j < |es| ensures es[j].0 == KeyOrder[idx[j]] && KeyRank(es[j].0) == idx[j] {
    }
    forall i | 0 <= i < |KeyOrder| ensures Present(o, i) <==> exists j :: 0 <= j < |es| && es[j].0 == KeyOrder[i] {
      if Present(o, i) {
        var j :| 0 <= j < |idx| && idx[j] == i;
        assert es[j].0 == KeyOrder[i];
      }
    }
  }

  /** A built query holds no `#`, so it ends a URI's query component only at the URI's end. */
  lemma QueryHasNoHash(params: seq<Param>)
    ensures '#' !in BuildQueryString(params)
  {
    var es := DefinedEntries(params);
    if es != [] {
      var pieces := EncodeEntries(es);
      forall i | 0 <= i < |pieces| ensures forall k :: 0 <= k < |pieces[i]| ==>
        Unreserved(pieces[i][k]) || pieces[i][k] == '%' || pieces[i][k] == '=' {
        EncodeEntryShape(es[i]);
      }
      JoinAlphabet(pieces, '&');
    }
  }

  /**
   * The URI of an image source parses with the `expo-photos` scheme, and its
   * query reads back as the defined entries, `localIdentifier` first.
   */
  lemma SourceUriRecoversEntries(o: PHImageSourceOptions)
    requires CreatePHImageSource(o).Some?
    ensures var url := Url.Parse(CreatePHImageSource(o).value.uri);
      && url.scheme == Some(Scheme)
      && Url.UrlQueryItems(url) == Some(ItemsOf(DefinedEntries(SourceParams(o, o.localIdentifier.value))))
  {
    var ps := SourceParams(o, o.localIdentifier.value);
    var q := BuildQueryString(ps);
    assert q != "" && CreatePHImageSource(o).value.uri == Scheme + "://" + q by {
      SourceParamsShape(o, o.localIdentifier.value);
    }
    QueryHasNoHash(ps);
    UriOfQuery(q);
    QueryRecoversEntries(ps);
  }

  /** The source URI, `scheme://` followed by a non-empty query string, parses to the scheme and the query without its `?`. */
  lemma UriOfQuery(q: string)
    requires q != "" && q[0] == '?' && '#' !in q
    ensures Url.Parse(Scheme + "://" + q) == Url.Url(Some(Scheme), Some(q[1..]))
  {
    var body := q[1..];
    assert q == "?" + body;
    assert Scheme + "://" + q == Scheme + "://?" + body;
    Url.ParseSchemeAndQuery(Scheme, body);
  }

  /** Joined encoded pairs hold only unreserved characters, `%`, `=` and the separator. */
  lemma {:induction false} JoinAlphabet(pieces: seq<string>, d: char)
    requires forall i, k :: 0 <= i < |pieces| && 0 <= k < |pieces[i]| ==>
      Unreserved(pieces[i][k]) || pieces[i][k] == '%' || pieces[i][k] == '='
    requires d != '#'
    ensures '#' !in Join(pieces, d)
  {
    if |pieces| > 1 {
      JoinAlphabet(pieces[1..], d);
      assert '#' !in pieces[0];
    } else if |pieces| == 1 {
      assert '#' !in pieces[0];
    }
  }
}

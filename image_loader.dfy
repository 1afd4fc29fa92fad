/**
 * The native side of the `expo-photos://` image URL
 * (ios/ExpoPhotosImageLoader.swift): which URLs the loader accepts, how it
 * reads the query into a dictionary, how it validates each parameter before
 * asking the image manager for an image, and how it routes the image
 * manager's answers to React Native's handlers.
 */
module ImageLoader {
  import opened Wrappers
  import opened Text
  import opened PhotoKit
  import Url

  const Scheme: string := "expo-photos"

  // ---------------------------------------------------------------------------
  // queryItems(from:)
  // ---------------------------------------------------------------------------

  /** The dictionary made from query items: items without a value are skipped, and a later item overwrites an earlier one of the same name. */
  function Collapse(items: seq<Url.QueryItem>): map<string, string> {
    if items == [] then map[]
    else
      var m := Collapse(items[..|items| - 1]);
      var last := items[|items| - 1];
      match last.value
      case None => m
      case Some(v) => m[last.name := v]
  }

  /** A name is in the dictionary exactly when some item of that name has a value. */
  lemma {:induction false} CollapseKeys(items: seq<Url.QueryItem>, name: string)
    ensures name in Collapse(items) <==>
      exists i :: 0 <= i < |items| && items[i].name == name && items[i].value.Some?
  {
    if items != [] {
      var front := items[..|items| - 1];
      CollapseKeys(front, name);
      assert forall i :: 0 <= i < |front| ==> front[i] == items[i];
      if name in Collapse(items) && name !in Collapse(front) {
        assert items[|items| - 1].name == name;
      }
    }
  }

  /** The value kept for a name is that of the last item of that name that has a value. */
  lemma {:induction false} CollapseLastWins(items: seq<Url.QueryItem>, i: nat)
    requires i < |items| && items[i].value.Some?
    requires forall j :: i < j < |items| && items[j].name == items[i].name ==> items[j].value.None?
    ensures items[i].name in Collapse(items)
    ensures Collapse(items)[items[i].name] == items[i].value.value
  {
    var front := items[..|items| - 1];
    assert forall j :: 0 <= j < |front| ==> front[j] == items[j];
    if i < |items| - 1 {
      CollapseLastWins(front, i);
    }
  }

  /** `queryItems(from:)` as a value: the empty dictionary when the URL has no query or it cannot be decoded. */
  function QueryMap(url: Url.Url): map<string, string> {
    match Url.UrlQueryItems(url)
    case None => map[]
    case Some(items) => Collapse(items)
  }

  /** `queryItems(from:)`: builds the dictionary item by item. */
  method QueryItems(url: Url.Url) returns (result: map<string, string>)
    ensures result == QueryMap(url)
  {
    result := map[];
    var queryItems := Url.UrlQueryItems(url);
    if queryItems.None? {
      return;
    }
    var items := queryItems.value;
    for i := 0 to |items|
      invariant result == Collapse(items[..i])
    {
      assert items[..i + 1][..i] == items[..i];
      var item := items[i];
      if item.value.Some? {
        result := result[item.name := item.value.value];
      }
    }
    assert items[..|items|] == items;
  }

  // ---------------------------------------------------------------------------
  // bool(from:) and canLoadImageURL
  // ---------------------------------------------------------------------------

  /** `bool(from:)`: false for no text; true exactly for `1`, `true` or `yes` in any letter case. */
  function BoolFrom(s: Option<string>): bool {
    match s
    case None => false
    case Some(text) =>
      var lower := Lower(text);
      lower == "1" || lower == "true" || lower == "yes"
  }

  /** The letter case of the text does not matter to `bool(from:)`. */
  lemma BoolFromIgnoresCase(text: string)
    ensures BoolFrom(Some(text)) == BoolFrom(Some(Lower(text)))
  {
    LowerIdempotent(text);
  }

  /** `canLoadImageURL`: the scheme is `expo-photos`, ignoring case. */
  predicate CanLoadImageUrl(url: Url.Url) {
    url.scheme.Some? && EqualsIgnoringCase(url.scheme.value, Scheme)
  }

  // ---------------------------------------------------------------------------
  // loadImage: parameter validation
  // ---------------------------------------------------------------------------

  /** A query parameter with non-empty text; a parameter with empty text counts as absent. */
  function Param(q: map<string, string>, key: string): Option<string> {
    if key in q && q[key] != "" then Some(q[key]) else None
  }

  /** `WIDTHxHEIGHT`, with the `x` in either case, both sides numbers. */
  function ParseTargetSize(text: string): Option<Size> {
    var components := Split(Lower(text), 'x');
    if |components| == 2 && ParseInteger(components[0]).Some? && ParseInteger(components[1]).Some? then
      Some(Size(ParseInteger(components[0]).value as real, ParseInteger(components[1]).value as real))
    else None
  }

  /** `targetSize`: `fallback` when absent, otherwise `WIDTHxHEIGHT`; None when malformed. */
  function TargetSizeParam(q: map<string, string>, fallback: Size): Option<Size> {
    match Param(q, "targetSize")
    case None => Some(fallback)
    case Some(text) => ParseTargetSize(text)
  }

  /** `deliveryMode`: the default when absent, otherwise a number that is a raw delivery mode; None when it is not. */
  function DeliveryModeParam(q: map<string, string>): Option<ImageDeliveryMode> {
    match Param(q, "deliveryMode")
    case None => Some(DefaultImageRequestOptions.deliveryMode)
    case Some(text) => if ParseInteger(text).Some? then ImageDeliveryModeFromRaw(ParseInteger(text).value) else None
  }

  /** `resizeMode`: the default when absent, otherwise a number that is a raw resize mode; None when it is not. */
  function ResizeModeParam(q: map<string, string>): Option<ResizeMode> {
    match Param(q, "resizeMode")
    case None => Some(DefaultImageRequestOptions.resizeMode)
    case Some(text) => if ParseInteger(text).Some? then ResizeModeFromRaw(ParseInteger(text).value) else None
  }

  /** `contentMode`: the default mode when absent, otherwise a number that is a raw content mode; None when it is not. */
  function ContentModeParam(q: map<string, string>): Option<ContentMode> {
    match Param(q, "contentMode")
    case None => Some(DefaultContentMode)
    case Some(text) => if ParseInteger(text).Some? then ContentModeFromRaw(ParseInteger(text).value) else None
  }

  /** `isNetworkAccessAllowed`: the default when absent, otherwise `bool(from:)` of its text. */
  function NetworkParam(q: map<string, string>): bool {
    match Param(q, "isNetworkAccessAllowed")
    case None => DefaultImageRequestOptions.isNetworkAccessAllowed
    case Some(text) => BoolFrom(Some(text))
  }

  /** `size.applying(CGAffineTransform(scaleX: scale, y: scale))`. */
  function Scaled(size: Size, scale: real): Size {
    Size(size.width * scale, size.height * scale)
  }

  /** The reasons `loadImage` calls its completion handler with an error before asking for an image. */
  datatype LoadError =
    | UnsupportedScheme
    | MissingLocalIdentifier
    | AssetNotFound(id: string)
    | InvalidTargetSize
    | InvalidDeliveryMode
    | InvalidResizeMode
    | InvalidContentMode

  function Message(e: LoadError): string {
    match e
    case UnsupportedScheme => "Unsupported image URL scheme for ExpoPhotos"
    case MissingLocalIdentifier => "Missing localIdentifier query parameter"
    case AssetNotFound(id) => "Failed to fetch PHAsset with local identifier " + id + " with no error message."
    case InvalidTargetSize => "Invalid targetSize format. Expected WIDTHxHEIGHT."
    case InvalidDeliveryMode => "Invalid deliveryMode value."
    case InvalidResizeMode => "Invalid resizeMode value."
    case InvalidContentMode => "Invalid contentMode value."
  }

  /**
   * What `loadImage` asks for, given the query dictionary, or the first
   * check that fails. `library` holds the identifiers the photo library
   * resolves to an asset.
   */
  function PlanFromQuery(q: map<string, string>, viewSize: Size, scale: real, library: set<string>): (r: Result<ImageRequest, LoadError>)
    ensures r.Failure? ==> r.error != UnsupportedScheme
    ensures r.Success? ==> Param(q, "localIdentifier") == Some(r.value.asset) && r.value.asset in library
  {
    match Param(q, "localIdentifier")
    case None => Failure(MissingLocalIdentifier)
    case Some(id) =>
      if id !in library then Failure(AssetNotFound(id))
      else
        PlanForAsset(q, id, Scaled(viewSize, scale))
  }

  /** The request for a resolved asset, or the first optional parameter that is malformed, in the order `loadImage` checks them. */
  function PlanForAsset(q: map<string, string>, id: string, fallback: Size): (r: Result<ImageRequest, LoadError>)
    ensures r.Failure? ==> r.error in {InvalidTargetSize, InvalidDeliveryMode, InvalidResizeMode, InvalidContentMode}
    ensures r.Success? ==> r.value.asset == id
  {
    if TargetSizeParam(q, fallback).None? then Failure(InvalidTargetSize)
    else if DeliveryModeParam(q).None? then Failure(InvalidDeliveryMode)
    else if ResizeModeParam(q).None? then Failure(InvalidResizeMode)
    else if ContentModeParam(q).None? then Failure(InvalidContentMode)
    else
      var options := ImageRequestOptions(NetworkParam(q), DeliveryModeParam(q).value, ResizeModeParam(q).value);
      Success(ImageRequest(id, TargetSizeParam(q, fallback).value, ContentModeParam(q).value, options))
  }

  /** What `loadImage` asks for, given the URL, or the first check that fails. */
  function LoadPlan(url: Url.Url, viewSize: Size, scale: real, library: set<string>): Result<ImageRequest, LoadError> {
    if !CanLoadImageUrl(url) then Failure(UnsupportedScheme)
    else PlanFromQuery(QueryMap(url), viewSize, scale, library)
  }

  /** A call of one of React Native's handlers: the partial-load handler, or the completion handler with an error or an image. */
  datatype HandlerCall = PartialLoad(partial: Image) | Completion(error: Option<string>, image: Option<Image>)

  /**
   * `loadImage` up to the image request: exactly one error completion and no
   * request when a check fails, otherwise the request and no handler call
   * yet. Each guard updates the target size, the options and the content
   * mode in turn, as the Swift code does.
   */
  method LoadImage(url: Url.Url, size: Size, scale: real, library: set<string>)
    returns (calls: seq<HandlerCall>, request: Option<ImageRequest>)
    ensures match LoadPlan(url, size, scale, library)
      case Failure(e) => calls == [Completion(Some(Message(e)), None)] && request == None
      case Success(r) => calls == [] && request == Some(r)
  {
    calls, request := [], None;
    if !CanLoadImageUrl(url) {
      calls := [Completion(Some(Message(UnsupportedScheme)), None)];
      return;
    }
    var queryParams := QueryItems(url);
    ghost var plan := PlanFromQuery(queryParams, size, scale, library);
    assert LoadPlan(url, size, scale, library) == plan;
    if "localIdentifier" !in queryParams || queryParams["localIdentifier"] == "" {
      calls := [Completion(Some(Message(MissingLocalIdentifier)), None)];
      return;
    }
    var assetID := queryParams["localIdentifier"];
    assert Param(queryParams, "localIdentifier") == Some(assetID);
    if assetID !in library {
      calls := [Completion(Some(Message(AssetNotFound(assetID))), None)];
      return;
    }
    assert plan == PlanForAsset(queryParams, assetID, Scaled(size, scale));
    calls, request := ReadOptionalParams(queryParams, assetID, Scaled(size, scale));
  }

  /**
   * The second half of `loadImage`: starting from the default options and the
   * scaled view size, each optional parameter in turn either updates the
   * request or ends the load with its error.
   */
  method ReadOptionalParams(queryParams: map<string, string>, assetID: string, fallback: Size)
    returns (calls: seq<HandlerCall>, request: Option<ImageRequest>)
    ensures match PlanForAsset(queryParams, assetID, fallback)
      case Failure(e) => calls == [Completion(Some(Message(e)), None)] && request == None
      case Success(r) => calls == [] && request == Some(r)
  {
    calls, request := [], None;
    var imageOptions := DefaultImageRequestOptions;
    var targetSize := fallback;

    if "targetSize" in queryParams && queryParams["targetSize"] != "" {
      var components := Split(Lower(queryParams["targetSize"]), 'x');
      if |components| != 2 || ParseInteger(components[0]).None? || ParseInteger(components[1]).None? {
        calls := [Completion(Some(Message(InvalidTargetSize)), None)];
        return;
      }
      var width, height := ParseInteger(components[0]).value, ParseInteger(components[1]).value;
      targetSize := Size(width as real, height as real);
    }
    assert TargetSizeParam(queryParams, fallback) == Some(targetSize);

    if "deliveryMode" in queryParams && queryParams["deliveryMode"] != "" {
      var number := ParseInteger(queryParams["deliveryMode"]);
      if number.None? || ImageDeliveryModeFromRaw(number.value).None? {
        calls := [Completion(Some(Message(InvalidDeliveryMode)), None)];
        return;
      }
      imageOptions := imageOptions.(deliveryMode := ImageDeliveryModeFromRaw(number.value).value);
    }
    assert DeliveryModeParam(queryParams) == Some(imageOptions.deliveryMode);

    if "resizeMode" in queryParams && queryParams["resizeMode"] != "" {
      var number := ParseInteger(queryParams["resizeMode"]);
      if number.None? || ResizeModeFromRaw(number.value).None? {
        calls := [Completion(Some(Message(InvalidResizeMode)), None)];
        return;
      }
      imageOptions := imageOptions.(resizeMode := ResizeModeFromRaw(number.value).value);
    }
    assert ResizeModeParam(queryParams) == Some(imageOptions.resizeMode);

    if "isNetworkAccessAllowed" in queryParams && queryParams["isNetworkAccessAllowed"] != "" {
      imageOptions := imageOptions.(isNetworkAccessAllowed := BoolFrom(Some(queryParams["isNetworkAccessAllowed"])));
    }
    assert NetworkParam(queryParams) == imageOptions.isNetworkAccessAllowed;

    var contentMode := DefaultContentMode;
    if "contentMode" in queryParams && queryParams["contentMode"] != "" {
      var number := ParseInteger(queryParams["contentMode"]);
      if number.None? || ContentModeFromRaw(number.value).None? {
        calls := [Completion(Some(Message(InvalidContentMode)), None)];
        return;
      }
      contentMode := ContentModeFromRaw(number.value).value;
    }
    assert ContentModeParam(queryParams) == Some(contentMode);

    request := Some(ImageRequest(assetID, targetSize, contentMode, imageOptions));
  }

  // ---------------------------------------------------------------------------
  // Properties of the validation
  // ---------------------------------------------------------------------------

  /** `loadImage` fails on the scheme exactly when `canLoadImageURL` refuses the URL. */
  lemma SchemeGuardMatchesCanLoad(url: Url.Url, size: Size, scale: real, library: set<string>)
    ensures LoadPlan(url, size, scale, library) == Failure(UnsupportedScheme) <==> !CanLoadImageUrl(url)
  {
  }

  /** A parameter given with empty text is treated exactly like a missing one. */
  lemma EmptyParamIsAbsent(q: map<string, string>, key: string, size: Size, scale: real, library: set<string>)
    requires key in q && q[key] == ""
    ensures PlanFromQuery(q, size, scale, library) == PlanFromQuery(q - {key}, size, scale, library)
  {
    var q' := q - {key};
    var fallback := Scaled(size, scale);
    assert Param(q, "localIdentifier") == Param(q', "localIdentifier");
    assert TargetSizeParam(q, fallback) == TargetSizeParam(q', fallback) by {
      assert Param(q, "targetSize") == Param(q', "targetSize");
    }
    assert DeliveryModeParam(q) == DeliveryModeParam(q') by {
      assert Param(q, "deliveryMode") == Param(q', "deliveryMode");
    }
    assert ResizeModeParam(q) == ResizeModeParam(q') by {
      assert Param(q, "resizeMode") == Param(q', "resizeMode");
    }
    assert ContentModeParam(q) == ContentModeParam(q') by {
      assert Param(q, "contentMode") == Param(q', "contentMode");
    }
    assert NetworkParam(q) == NetworkParam(q') by {
      assert Param(q, "isNetworkAccessAllowed") == Param(q', "isNetworkAccessAllowed");
    }
  }

  /** With no `targetSize` the target is the view's size times the scale; with no `contentMode` it is the default mode. */
  lemma DefaultsWhenAbsent(q: map<string, string>, size: Size, scale: real, library: set<string>)
    requires PlanFromQuery(q, size, scale, library).Success?
    ensures var r := PlanFromQuery(q, size, scale, library).value;
      && (Param(q, "targetSize").None? ==> r.targetSize == Scaled(size, scale))
      && (Param(q, "contentMode").None? ==> r.contentMode == DefaultContentMode)
      && (Param(q, "deliveryMode").None? ==> r.options.deliveryMode == DefaultImageRequestOptions.deliveryMode)
      && (Param(q, "resizeMode").None? ==> r.options.resizeMode == DefaultImageRequestOptions.resizeMode)
      && (Param(q, "isNetworkAccessAllowed").None? ==> !r.options.isNetworkAccessAllowed)
  {
  }

  /**
   * A request is made only for a non-empty identifier the library resolves,
   * and only when every given enumeration parameter is a number that is a
   * valid raw value.
   */
  lemma RequestOnlyForValidParams(q: map<string, string>, size: Size, scale: real, library: set<string>)
    requires PlanFromQuery(q, size, scale, library).Success?
    ensures var r := PlanFromQuery(q, size, scale, library).value;
      && Param(q, "localIdentifier") == Some(r.asset) && r.asset in library
      && (Param(q, "targetSize").Some? ==> ParseTargetSize(q["targetSize"]) == Some(r.targetSize))
      && (Param(q, "deliveryMode").Some? ==>
            ParseInteger(q["deliveryMode"]).Some?
            && ImageDeliveryModeFromRaw(ParseInteger(q["deliveryMode"]).value) == Some(r.options.deliveryMode))
      && (Param(q, "resizeMode").Some? ==>
            ParseInteger(q["resizeMode"]).Some?
            && ResizeModeFromRaw(ParseInteger(q["resizeMode"]).value) == Some(r.options.resizeMode))
      && (Param(q, "contentMode").Some? ==>
            ParseInteger(q["contentMode"]).Some?
            && ContentModeFromRaw(ParseInteger(q["contentMode"]).value) == Some(r.contentMode))
  {
  }

  /**
   * A `targetSize` reads as a size exactly when its lower case is two
   * numbers with one `x` between them, and the size is those two numbers.
   */
  lemma TargetSizeNeedsTwoNumbers(text: string)
    ensures ParseTargetSize(text).Some? <==>
      exists a, b :: 'x' !in a && 'x' !in b && Lower(text) == a + "x" + b && ParseInteger(a).Some? && ParseInteger(b).Some?
    ensures forall a, b :: 'x' !in a && 'x' !in b && Lower(text) == a + "x" + b && ParseInteger(a).Some? && ParseInteger(b).Some? ==>
      ParseTargetSize(text) == Some(Size(ParseInteger(a).value as real, ParseInteger(b).value as real))
  {
    var parts := Split(Lower(text), 'x');
    if ParseTargetSize(text).Some? {
      JoinSplit(Lower(text), 'x');
      assert Join(parts, 'x') == parts[0] + "x" + parts[1];
      assert 'x' !in parts[0] && 'x' !in parts[1];
    }
    forall a, b | 'x' !in a && 'x' !in b && Lower(text) == a + "x" + b && ParseInteger(a).Some? && ParseInteger(b).Some?
      ensures ParseTargetSize(text) == Some(Size(ParseInteger(a).value as real, ParseInteger(b).value as real))
    {
      SplitPair(a, b, 'x');
      assert a + "x" + b == a + ['x'] + b;
    }
  }

  // ---------------------------------------------------------------------------
  // loadImage: routing the image manager's answers
  // ---------------------------------------------------------------------------

  /** The entries of the info dictionary the image manager passes with a result. */
  datatype ResultInfo = ResultInfo(cancelled: Option<bool>, degraded: Option<bool>, error: Option<string>)

  /**
   * The handler calls one image-manager answer causes: none without an info
   * dictionary or for a cancelled request; a degraded image goes only to the
   * partial-load handler (if there is one); a final image completes with no
   * error; no image but an error completes with that error.
   */
  function Dispatch(result: Option<Image>, info: Option<ResultInfo>, hasPartialHandler: bool): (calls: seq<HandlerCall>)
    ensures |calls| <= 1
    ensures info.None? || info.value.cancelled == Some(true) ==> calls == []
    ensures forall c :: c in calls && c.Completion? ==> c.error.Some? != c.image.Some?
    ensures forall c :: c in calls && c.PartialLoad? ==>
      result == Some(c.partial) && info.value.degraded == Some(true) && hasPartialHandler
    ensures forall c :: c in calls && c.Completion? && c.image.Some? ==>
      c.image == result && info.value.degraded != Some(true)
    ensures forall c :: c in calls && c.Completion? && c.error.Some? ==>
      result.None? && c.error == info.value.error
    ensures info.Some? && info.value.cancelled != Some(true) && result.Some? && info.value.degraded == Some(true) ==>
      calls == (if hasPartialHandler then [PartialLoad(result.value)] else [])
    ensures info.Some? && info.value.cancelled != Some(true) && result.Some? && info.value.degraded != Some(true) ==>
      calls == [Completion(None, result)]
    ensures info.Some? && info.value.cancelled != Some(true) && result.None? && info.value.error.Some? ==>
      calls == [Completion(info.value.error, None)]
    ensures result.None? && (info.None? || info.value.error.None?) ==> calls == []
  {
    match info
    case None => []
    case Some(i) =>
      var isCancelled := i.cancelled.GetOr(false);
      var isDegraded := i.degraded.GetOr(false);
      if isCancelled then []
      else if result.Some? then
        if isDegraded then (if hasPartialHandler then [PartialLoad(result.value)] else [])
        else [Completion(None, result)]
      else if i.error.Some? then [Completion(i.error, None)]
      else []
  }
}

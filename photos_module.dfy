/**
 * The native module of ios/ExpoPhotosModule.swift, up to its calls into the
 * photo and media frameworks: the mandatory-field guards and option
 * overrides of `fetchAssets`, `requestImage`, `requestVideo` and
 * `pickAssets`, the JavaScript shape of an asset, and the table of picker
 * continuations that `picker(_:didFinishPicking:)` resolves.
 *
 * What the frameworks answer (whether an identifier resolves, the assets a
 * fetch returns, the image or export session they deliver, whether WebP
 * encoding succeeds, whether a view controller is on screen) is given to
 * each operation as a parameter.
 */
module PhotosModule {
  import opened Wrappers
  import opened PhotoKit
  import opened Conversions

  /** `ExpoPhotosError`. */
  datatype PhotosError =
    | MandatoryFieldMissing
    | CouldNotFindAsset
    | CouldNotEncodeImage
    | CouldNotCreateExportSession
    | NoViewController
    | Unknown

  /** What an async function throws: one of the module's own errors, or an error a framework reported. */
  datatype Thrown = ModuleError(error: PhotosError) | FrameworkError(description: string)

  /** The error a framework reported, or `unknown` when it reported none. */
  function ReportedError(reported: Option<string>): Thrown {
    match reported
    case Some(description) => FrameworkError(description)
    case None => ModuleError(Unknown)
  }

  // ---------------------------------------------------------------------------
  // PHAsset.toJS
  // ---------------------------------------------------------------------------

  /** The properties of a `PHAsset` that cross to JavaScript; times are in seconds. */
  datatype Asset = Asset(
    localIdentifier: string,
    creationDate: Option<real>,
    mediaType: MediaType,
    mediaSubtypes: nat,
    duration: real)

  /** `TimeInterval.toJS`: milliseconds, truncated toward zero. */
  function Millis(seconds: real): (ms: int)
    ensures seconds >= 0.0 ==> 0 <= ms && ms as real <= seconds * 1000.0 < ms as real + 1.0
    ensures seconds < 0.0 ==> ms <= 0 && ms as real - 1.0 < seconds * 1000.0 <= ms as real
  {
    var x := seconds * 1000.0;
    if x >= 0.0 then x.Floor else -((-x).Floor)
  }

  /** `PHAsset.toJS`: exactly five entries; the creation date is null for an asset without one. */
  function AssetToJS(a: Asset): (js: map<string, JsValue>)
    ensures js.Keys == {"localIdentifier", "creationDate", "mediaType", "mediaSubtypes", "duration"}
    ensures js["creationDate"] == JsNull <==> a.creationDate.None?
  {
    map[
      "localIdentifier" := JsString(a.localIdentifier),
      "creationDate" := (match a.creationDate
        case None => JsNull
        case Some(t) => JsNumber(Millis(t) as real)),
      "mediaType" := JsNumber(MediaTypeRaw(a.mediaType) as real),
      "mediaSubtypes" := JsNumber(a.mediaSubtypes as real),
      "duration" := JsNumber(Millis(a.duration) as real)]
  }

  /** The JavaScript `PHAsset` record, with times in milliseconds and the creation date possibly null. */
  datatype JsAsset = JsAsset(
    localIdentifier: string,
    creationDate: Option<int>,
    mediaType: int,
    mediaSubtypes: int,
    duration: int)

  /** A JavaScript object read as a `PHAsset` record; None when a field is missing or of another kind. */
  function ReadAsset(js: map<string, JsValue>): Option<JsAsset> {
    if && "localIdentifier" in js && js["localIdentifier"].JsString?
       && "creationDate" in js && (js["creationDate"].JsNull? || AsInt(js["creationDate"]).Some?)
       && "mediaType" in js && AsInt(js["mediaType"]).Some?
       && "mediaSubtypes" in js && AsInt(js["mediaSubtypes"]).Some?
       && "duration" in js && AsInt(js["duration"]).Some?
    then
      Some(JsAsset(
        js["localIdentifier"].s,
        if js["creationDate"].JsNull? then None else AsInt(js["creationDate"]),
        AsInt(js["mediaType"]).value,
        AsInt(js["mediaSubtypes"]).value,
        AsInt(js["duration"]).value))
    else None
  }

  /** JavaScript reads back every property of the asset, times in whole milliseconds and the raw media type. */
  lemma AssetReadsBack(a: Asset)
    ensures ReadAsset(AssetToJS(a)) == Some(JsAsset(
      a.localIdentifier,
      (match a.creationDate case None => None case Some(t) => Some(Millis(t))),
      MediaTypeRaw(a.mediaType),
      a.mediaSubtypes,
      Millis(a.duration)))
  {
    var js := AssetToJS(a);
    assert AsInt(js["mediaType"]) == Some(MediaTypeRaw(a.mediaType));
    assert AsInt(js["mediaSubtypes"]) == Some(a.mediaSubtypes);
    assert AsInt(js["duration"]) == Some(Millis(a.duration));
    match a.creationDate {
      case None =>
      case Some(t) => assert AsInt(js["creationDate"]) == Some(Millis(t));
    }
  }

  /** The JavaScript objects for a list of assets, in order. */
  function AssetsToJS(found: seq<Asset>): seq<map<string, JsValue>> {
    seq(|found|, i requires 0 <= i < |found| => AssetToJS(found[i]))
  }

  /** The enumeration that appends `toJS()` of each fetched asset. */
  method EnumerateAssets(found: seq<Asset>) returns (assets: seq<map<string, JsValue>>)
    ensures assets == AssetsToJS(found)
  {
    assets := [];
    for i := 0 to |found|
      invariant assets == AssetsToJS(found[..i])
    {
      assets := assets + [AssetToJS(found[i])];
    }
    assert found[..|found|] == found;
  }

  // ---------------------------------------------------------------------------
  // fetchAssets
  // ---------------------------------------------------------------------------

  datatype FetchAssetsOptions = FetchAssetsOptions(
    filterPredicate: Option<string>,
    fetchLimit: Option<int>,
    sortDescriptors: Option<seq<SortDescriptor>>)

  /** The fields of `PHFetchOptions` this module sets; a fresh one has no predicate, no limit (0) and no sort order. */
  datatype FetchOptions = FetchOptions(
    filterPredicate: Option<string>,
    fetchLimit: int,
    sortDescriptors: Option<seq<SortDescriptor>>)

  const DefaultFetchOptions := FetchOptions(None, 0, None)

  /**
   * `fetchAssets`: each given option replaces the fresh fetch options' value
   * and an absent one leaves it; the result is the JavaScript object of each
   * asset `query` returns for those options, in the order returned.
   */
  method FetchAssets(options: FetchAssetsOptions, query: FetchOptions -> seq<Asset>)
    returns (fetchOptions: FetchOptions, assets: seq<map<string, JsValue>>)
    ensures fetchOptions.filterPredicate == (if options.filterPredicate.Some? then options.filterPredicate else DefaultFetchOptions.filterPredicate)
    ensures fetchOptions.fetchLimit == options.fetchLimit.GetOr(DefaultFetchOptions.fetchLimit)
    ensures fetchOptions.sortDescriptors ==
      (if options.sortDescriptors.Some? then options.sortDescriptors else DefaultFetchOptions.sortDescriptors)
    ensures |assets| == |query(fetchOptions)|
    ensures forall i :: 0 <= i < |assets| ==> assets[i] == AssetToJS(query(fetchOptions)[i])
  {
    fetchOptions := DefaultFetchOptions;
    if options.filterPredicate.Some? {
      fetchOptions := fetchOptions.(filterPredicate := options.filterPredicate);
    }
    if options.fetchLimit.Some? {
      fetchOptions := fetchOptions.(fetchLimit := options.fetchLimit.value);
    }
    if options.sortDescriptors.Some? {
      fetchOptions := fetchOptions.(sortDescriptors := options.sortDescriptors);
    }
    assets := EnumerateAssets(query(fetchOptions));
  }

  // ---------------------------------------------------------------------------
  // requestImage
  // ---------------------------------------------------------------------------

  datatype RequestImageOptions = RequestImageOptions(
    localIdentifier: Option<string>,
    targetSize: Option<Size>,
    contentMode: Option<ContentMode>,
    isNetworkAccessAllowed: Option<bool>,
    deliveryMode: Option<ImageDeliveryMode>,
    resizeMode: Option<ResizeMode>,
    outputURL: Option<string>,
    encodeCompressionQuality: Option<real>,
    encodeMaxFileSize: Option<int>,
    timeout: Option<real>)

  /** The fields `requestImage` cannot do without. */
  predicate ImageFieldsPresent(o: RequestImageOptions) {
    o.localIdentifier.Some? && o.targetSize.Some? && o.contentMode.Some? && o.outputURL.Some?
  }

  /**
   * The image manager's first call of the result handler: an image (degraded
   * or final, which the handler does not tell apart), or none and the error
   * (if any) its info dictionary reports.
   */
  datatype ImageAnswer = ImageDelivered(image: Image) | NoImage(reported: Option<string>)

  /** The keys of the WebP coder options this module sets. */
  datatype CoderOption = EncodeCompressionQuality | EncodeMaxFileSize

  /** The WebP file `requestImage` writes: the image, the coder options and the destination. */
  datatype ImageExport = ImageExport(image: Image, coderOptions: map<CoderOption, real>, outputURL: string)

  /**
   * `requestImage`. A missing mandatory field throws before the asset is
   * looked up; an identifier the library does not resolve throws next.
   * Otherwise the image request uses the fresh request options with each
   * given option in place of its default; no image throws the reported error
   * (or `unknown`); an image the codec (`encoded`) cannot encode throws
   * `couldNotEncodeImage`; else the image is encoded with the coder options
   * given and written to the output URL, and a failed write (`writeError`,
   * the error the file system reports) is thrown.
   */
  method RequestImage(options: RequestImageOptions, library: set<string>, answer: ImageAnswer, encoded: bool, writeError: Option<string>)
    returns (request: Option<ImageRequest>, result: Result<ImageExport, Thrown>)
    ensures !ImageFieldsPresent(options) ==> result == Failure(ModuleError(MandatoryFieldMissing))
    ensures ImageFieldsPresent(options) && options.localIdentifier.value !in library ==>
      result == Failure(ModuleError(CouldNotFindAsset))
    ensures request.Some? <==> ImageFieldsPresent(options) && options.localIdentifier.value in library
    ensures request.Some? ==>
      && request.value.asset == options.localIdentifier.value
      && request.value.targetSize == options.targetSize.value
      && request.value.contentMode == options.contentMode.value
      && request.value.options == ImageRequestOptions(
           options.isNetworkAccessAllowed.GetOr(DefaultImageRequestOptions.isNetworkAccessAllowed),
           options.deliveryMode.GetOr(DefaultImageRequestOptions.deliveryMode),
           options.resizeMode.GetOr(DefaultImageRequestOptions.resizeMode))
    ensures request.Some? && answer.NoImage? ==> result == Failure(ReportedError(answer.reported))
    ensures request.Some? && answer.ImageDelivered? && !encoded ==> result == Failure(ModuleError(CouldNotEncodeImage))
    ensures request.Some? && answer.ImageDelivered? && encoded && writeError.Some? ==>
      result == Failure(FrameworkError(writeError.value))
    ensures result.Success? <==> request.Some? && answer.ImageDelivered? && encoded && writeError.None?
    ensures result.Success? ==>
      && result.value.image == answer.image
      && result.value.outputURL == options.outputURL.value
      && (EncodeCompressionQuality in result.value.coderOptions <==> options.encodeCompressionQuality.Some?)
      && (EncodeMaxFileSize in result.value.coderOptions <==> options.encodeMaxFileSize.Some?)
      && (options.encodeCompressionQuality.Some? ==>
            result.value.coderOptions[EncodeCompressionQuality] == options.encodeCompressionQuality.value)
      && (options.encodeMaxFileSize.Some? ==>
            result.value.coderOptions[EncodeMaxFileSize] == options.encodeMaxFileSize.value as real)
  {
    request := None;
    if options.localIdentifier.None? || options.targetSize.None? || options.contentMode.None? || options.outputURL.None? {
      result := Failure(ModuleError(MandatoryFieldMissing));
      return;
    }
    var localIdentifier, targetSize := options.localIdentifier.value, options.targetSize.value;
    var contentMode, outputURL := options.contentMode.value, options.outputURL.value;

    if localIdentifier !in library {
      result := Failure(ModuleError(CouldNotFindAsset));
      return;
    }

    var imageRequestOptions := DefaultImageRequestOptions;
    if options.isNetworkAccessAllowed.Some? {
      imageRequestOptions := imageRequestOptions.(isNetworkAccessAllowed := options.isNetworkAccessAllowed.value);
    }
    if options.deliveryMode.Some? {
      imageRequestOptions := imageRequestOptions.(deliveryMode := options.deliveryMode.value);
    }
    if options.resizeMode.Some? {
      imageRequestOptions := imageRequestOptions.(resizeMode := options.resizeMode.value);
    }

    request := Some(ImageRequest(localIdentifier, targetSize, contentMode, imageRequestOptions));
    if answer.NoImage? {
      result := Failure(ReportedError(answer.reported));
      return;
    }
    var image := answer.image;

    var imageCoderOptions: map<CoderOption, real> := map[];
    if options.encodeCompressionQuality.Some? {
      imageCoderOptions := imageCoderOptions[EncodeCompressionQuality := options.encodeCompressionQuality.value];
    }
    if options.encodeMaxFileSize.Some? {
      imageCoderOptions := imageCoderOptions[EncodeMaxFileSize := options.encodeMaxFileSize.value as real];
    }

    if !encoded {
      result := Failure(ModuleError(CouldNotEncodeImage));
      return;
    }
    if writeError.Some? {
      result := Failure(FrameworkError(writeError.value));
      return;
    }
    result := Success(ImageExport(image, imageCoderOptions, outputURL));
  }

  // ---------------------------------------------------------------------------
  // requestVideo
  // ---------------------------------------------------------------------------

  /** A `CMTimeRange` as JavaScript gives it, in milliseconds. */
  datatype TimeRange = TimeRange(startMs: int, durationMs: int)

  datatype RequestVideoOptions = RequestVideoOptions(
    localIdentifier: Option<string>,
    isNetworkAccessAllowed: Option<bool>,
    deliveryMode: Option<VideoDeliveryMode>,
    exportPreset: Option<string>,
    outputURL: Option<string>,
    outputFileType: Option<FileType>,
    fileLengthLimit: Option<int>,
    timeRange: Option<TimeRange>,
    timeout: Option<real>)

  /** The fields `requestVideo` cannot do without. */
  predicate VideoFieldsPresent(o: RequestVideoOptions) {
    o.localIdentifier.Some? && o.exportPreset.Some? && o.outputURL.Some?
  }

  /** A `requestExportSession(forVideo:options:exportPreset:)` call on the image manager. */
  datatype VideoRequest = VideoRequest(asset: string, options: VideoRequestOptions, exportPreset: string)

  /** The settings of an `AVAssetExportSession` this module sets. */
  datatype ExportSettings = ExportSettings(
    outputURL: Option<string>,
    outputFileType: Option<FileType>,
    fileLengthLimit: int,
    timeRange: Option<TimeRange>)

  /** The image manager's answer: an export session with the settings it starts with, or none and the error (if any) reported. */
  datatype SessionAnswer = SessionCreated(settings: ExportSettings) | NoSession(reported: Option<string>)

  /** How the export ends: completed, or any other status with the session's error (if any). */
  datatype ExportStatus = ExportCompleted | ExportNotCompleted(reported: Option<string>)

  /**
   * `requestVideo`. A missing mandatory field throws before the asset is
   * looked up; an unresolved identifier throws next. The export-session
   * request uses the fresh video options with each given option in place of
   * its default; no session throws the reported error (or `unknown`); the
   * session's settings are overridden by each export option given, and an
   * export that does not complete throws its error (or `unknown`).
   */
  method RequestVideo(options: RequestVideoOptions, library: set<string>, answer: SessionAnswer, status: ExportStatus)
    returns (request: Option<VideoRequest>, exported: Option<ExportSettings>, result: Result<(), Thrown>)
    ensures !VideoFieldsPresent(options) ==> result == Failure(ModuleError(MandatoryFieldMissing))
    ensures VideoFieldsPresent(options) && options.localIdentifier.value !in library ==>
      result == Failure(ModuleError(CouldNotFindAsset))
    ensures request.Some? <==> VideoFieldsPresent(options) && options.localIdentifier.value in library
    ensures request.Some? ==>
      request.value == VideoRequest(
        options.localIdentifier.value,
        VideoRequestOptions(
          options.isNetworkAccessAllowed.GetOr(DefaultVideoRequestOptions.isNetworkAccessAllowed),
          options.deliveryMode.GetOr(DefaultVideoRequestOptions.deliveryMode)),
        options.exportPreset.value)
    ensures request.Some? && answer.NoSession? ==> result == Failure(ReportedError(answer.reported)) && exported.None?
    ensures exported.Some? <==> request.Some? && answer.SessionCreated?
    ensures exported.Some? ==>
      var initial := answer.settings;
      && exported.value.outputURL == options.outputURL
      && exported.value.outputFileType == (if options.outputFileType.Some? then options.outputFileType else initial.outputFileType)
      && exported.value.fileLengthLimit == options.fileLengthLimit.GetOr(initial.fileLengthLimit)
      && exported.value.timeRange == (if options.timeRange.Some? then options.timeRange else initial.timeRange)
      && result == (match status
           case ExportCompleted => Success(())
           case ExportNotCompleted(reported) => Failure(ReportedError(reported)))
    ensures result != Failure(ModuleError(CouldNotCreateExportSession))
  {
    request, exported := None, None;
    if options.localIdentifier.None? || options.exportPreset.None? || options.outputURL.None? {
      result := Failure(ModuleError(MandatoryFieldMissing));
      return;
    }
    var localIdentifier, exportPreset := options.localIdentifier.value, options.exportPreset.value;

    if localIdentifier !in library {
      result := Failure(ModuleError(CouldNotFindAsset));
      return;
    }

    var videoRequestOptions := DefaultVideoRequestOptions;
    if options.isNetworkAccessAllowed.Some? {
      videoRequestOptions := videoRequestOptions.(isNetworkAccessAllowed := options.isNetworkAccessAllowed.value);
    }
    if options.deliveryMode.Some? {
      videoRequestOptions := videoRequestOptions.(deliveryMode := options.deliveryMode.value);
    }

    request := Some(VideoRequest(localIdentifier, videoRequestOptions, exportPreset));
    if answer.NoSession? {
      result := Failure(ReportedError(answer.reported));
      return;
    }
    var exportSession := answer.settings;

    if options.outputURL.Some? {
      exportSession := exportSession.(outputURL := options.outputURL);
    }
    if options.outputFileType.Some? {
      exportSession := exportSession.(outputFileType := options.outputFileType);
    }
    if options.fileLengthLimit.Some? {
      exportSession := exportSession.(fileLengthLimit := options.fileLengthLimit.value);
    }
    if options.timeRange.Some? {
      exportSession := exportSession.(timeRange := options.timeRange);
    }
    exported := Some(exportSession);

    match status {
      case ExportCompleted =>
        result := Success(());
      case ExportNotCompleted(reported) =>
        result := Failure(ReportedError(reported));
    }
  }

  // ---------------------------------------------------------------------------
  // pickAssets and picker(_:didFinishPicking:)
  // ---------------------------------------------------------------------------

  datatype PickAssetsOptions = PickAssetsOptions(filter: Option<PickerFilter>, selectionLimit: Option<int>)

  /** The fields of `PHPickerConfiguration` this module sets; a fresh one allows one selection and has no filter. */
  datatype PickerConfiguration = PickerConfiguration(selectionLimit: int, filter: Option<PickerFilter>)

  const DefaultPickerConfiguration := PickerConfiguration(1, None)

  /** A `PHPickerResult`: the picked item, with its asset identifier when it has one. */
  datatype PickerResult = PickerResult(assetIdentifier: Option<string>)

  /** The asset identifiers of the results, in order; results without one are dropped. */
  function AssetIdentifiers(results: seq<PickerResult>): (ids: seq<string>)
    ensures |ids| <= |results|
    ensures forall id :: id in ids <==> exists i :: 0 <= i < |results| && results[i].assetIdentifier == Some(id)
  {
    if results == [] then []
    else
      var rest := AssetIdentifiers(results[1..]);
      assert forall i :: 0 < i < |results| ==> results[i] == results[1..][i - 1];
      match results[0].assetIdentifier
      case None => rest
      case Some(id) => [id] + rest
  }

  /** All results carry an identifier exactly when none is dropped. */
  lemma {:induction false} NoIdentifierDropped(results: seq<PickerResult>)
    ensures |AssetIdentifiers(results)| == |results| <==> forall i :: 0 <= i < |results| ==> results[i].assetIdentifier.Some?
  {
    if results != [] {
      NoIdentifierDropped(results[1..]);
      assert forall i :: 0 < i < |results| ==> results[i] == results[1..][i - 1];
    }
  }

  /**
   * The identifiers of a list of results are those of its parts, in order:
   * `compactMap` keeps the order and the number of the identifiers, and a
   * single result gives its identifier, or nothing when it has none.
   */
  lemma {:induction false} AssetIdentifiersConcat(a: seq<PickerResult>, b: seq<PickerResult>)
    ensures AssetIdentifiers(a + b) == AssetIdentifiers(a) + AssetIdentifiers(b)
    ensures |a| == 1 ==> AssetIdentifiers(a) == (match a[0].assetIdentifier case None => [] case Some(id) => [id])
  {
    if a != [] {
      AssetIdentifiersConcat(a[1..], b);
      assert (a + b)[0] == a[0] && (a + b)[1..] == a[1..] + b;
      var rest := AssetIdentifiers(a[1..]);
      match a[0].assetIdentifier {
        case None =>
        case Some(id) => assert [id] + rest + AssetIdentifiers(b) == [id] + (rest + AssetIdentifiers(b));
      }
    } else {
      assert a + b == b;
    }
  }

  /** `PHAsset.fetchAssets(withLocalIdentifiers:)`: the assets of the identifiers the library holds, in the identifiers' order. */
  function FetchByIdentifiers(ids: seq<string>, library: map<string, Asset>): (found: seq<Asset>)
    ensures |found| <= |ids|
    ensures forall a :: a in found ==> exists id :: id in ids && id in library && library[id] == a
    ensures forall id :: id in ids && id in library ==> library[id] in found
  {
    if ids == [] then []
    else
      var rest := FetchByIdentifiers(ids[1..], library);
      if ids[0] in library then [library[ids[0]]] + rest else rest
  }

  /**
   * The assets fetched for a list of identifiers are those of its parts, in
   * order; a single identifier gives its asset, or nothing when the library
   * does not hold it.
   */
  lemma {:induction false} FetchByIdentifiersConcat(a: seq<string>, b: seq<string>, library: map<string, Asset>)
    ensures FetchByIdentifiers(a + b, library) == FetchByIdentifiers(a, library) + FetchByIdentifiers(b, library)
    ensures |a| == 1 ==> FetchByIdentifiers(a, library) == (if a[0] in library then [library[a[0]]] else [])
  {
    if a != [] {
      FetchByIdentifiersConcat(a[1..], b, library);
      assert (a + b)[1..] == a[1..] + b;
    } else {
      assert a + b == b;
    }
  }

  /** The identity of a picker view controller (`ObjectIdentifier(picker)`). */
  type PickerId = nat

  /** The identity of a checked continuation, a promise the JavaScript caller awaits. */
  type ContinuationId = nat

  /** What happens to the table and the continuations, in order. */
  datatype Event =
    | Registered(picker: PickerId, continuation: ContinuationId)
    | Removed(picker: PickerId)
    | Resumed(continuation: ContinuationId, assets: seq<map<string, JsValue>>)

  /**
   * `pickAssetsContinuations` with the `pickAssets` entry point that fills it
   * and the delegate callback that empties it. `next` stands for the
   * continuation the next `pickAssets` creates, which is a new one.
   */
  class PickerRegistry {
    var continuations: map<PickerId, ContinuationId>
    var events: seq<Event>
    var next: ContinuationId

    /**
     * Every continuation in the table or resumed was created before `next`;
     * no continuation is registered under two pickers; none is resumed twice;
     * a resumed one is no longer in the table.
     */
    ghost predicate Valid()
      reads this
    {
      && (forall p :: p in continuations ==> continuations[p] < next)
      && (forall i :: 0 <= i < |events| && events[i].Resumed? ==> events[i].continuation < next)
      && (forall p, q :: p in continuations && q in continuations && p != q ==> continuations[p] != continuations[q])
      && (forall i, j :: 0 <= i < j < |events| && events[i].Resumed? && events[j].Resumed? ==>
            events[i].continuation != events[j].continuation)
      && (forall i, p :: 0 <= i < |events| && events[i].Resumed? && p in continuations ==>
            events[i].continuation != continuations[p])
    }

    /** The continuations resumed so far. */
    ghost function ResumedContinuations(): set<ContinuationId>
      reads this
    {
      set i | 0 <= i < |events| && events[i].Resumed? :: events[i].continuation
    }

    constructor()
      ensures Valid()
      ensures continuations == map[] && events == []
    {
      continuations := map[];
      events := [];
      next := 0;
    }

    /**
     * `pickAssets`: without a view controller it throws and changes nothing.
     * Otherwise the fresh configuration takes each given option in place of
     * its default, and a new continuation is stored under the picker's id,
     * leaving every other entry as it was.
     */
    method PickAssets(options: PickAssetsOptions, picker: PickerId, hasViewController: bool)
      returns (result: Result<PickerConfiguration, Thrown>)
      requires Valid()
      modifies this
      ensures Valid()
      ensures !hasViewController ==> result == Failure(ModuleError(NoViewController)) && unchanged(this)
      ensures hasViewController ==>
        && result == Success(PickerConfiguration(
             options.selectionLimit.GetOr(DefaultPickerConfiguration.selectionLimit),
             if options.filter.Some? then options.filter else DefaultPickerConfiguration.filter))
        && picker in continuations
        && continuations == old(continuations)[picker := continuations[picker]]
        && continuations[picker] !in old(continuations).Values
        && continuations[picker] !in old(ResumedContinuations())
        && events == old(events) + [Registered(picker, continuations[picker])]
    {
      if !hasViewController {
        result := Failure(ModuleError(NoViewController));
        return;
      }

      var config := DefaultPickerConfiguration;
      if options.selectionLimit.Some? {
        config := config.(selectionLimit := options.selectionLimit.value);
      }
      if options.filter.Some? {
        config := config.(filter := options.filter);
      }

      var continuation := next;
      next := next + 1;
      continuations := continuations[picker := continuation];
      events := events + [Registered(picker, continuation)];
      result := Success(config);
    }

    /**
     * `picker(_:didFinishPicking:)`: for a picker not in the table nothing
     * changes. Otherwise its entry, and no other, is removed first, and then
     * its continuation is resumed with the JavaScript objects of the assets
     * the picked identifiers resolve to.
     */
    method DidFinishPicking(picker: PickerId, results: seq<PickerResult>, library: map<string, Asset>)
      requires Valid()
      modifies this
      ensures Valid()
      ensures picker !in old(continuations) ==> unchanged(this)
      ensures picker in old(continuations) ==>
        && continuations == old(continuations) - {picker}
        && events == old(events) + [
             Removed(picker),
             Resumed(old(continuations)[picker], AssetsToJS(FetchByIdentifiers(AssetIdentifiers(results), library)))]
        && old(continuations)[picker] !in old(ResumedContinuations())
    {
      if picker !in continuations {
        return;
      }
      var continuation := continuations[picker];
      continuations := continuations - {picker};
      events := events + [Removed(picker)];

      var assetIdentifiers := AssetIdentifiers(results);
      var assets := EnumerateAssets(FetchByIdentifiers(assetIdentifiers, library));
      events := events + [Resumed(continuation, assets)];
    }
  }
}

# expo-photos: the `expo-photos://` image URL and the native option rules, in Dafny

This project models the part of `@hortemo/expo-photos` that is logic rather
than calls into Apple's frameworks.

- **The image URL, JavaScript side.** `createPHImageSource` and
  `buildQueryString` (src/PHImageSource.tsx) build
  `expo-photos://?localIdentifier=…&targetSize=…` from an asset's options.
  They drop undefined options, keep the key order, and pass keys and values
  through `encodeURIComponent`.
- **The image URL, native side.** `ExpoPhotosImageLoader`
  (ios/ExpoPhotosImageLoader.swift):
  - accepts only the `expo-photos` scheme, ignoring case;
  - reads the query into a dictionary (a later item overwrites an earlier
    one, and an item without a value is skipped);
  - reads `localIdentifier`, `targetSize`, `deliveryMode`, `resizeMode`,
    `isNetworkAccessAllowed` and `contentMode` in that order. A missing or
    unknown `localIdentifier`, or a `targetSize`, `deliveryMode`,
    `resizeMode` or `contentMode` that is not valid, ends the load with
    exactly one error completion at the first bad one.
    `isNetworkAccessAllowed` is never refused: `1`, `true` or `yes`, in any
    case, read as `true`, and any other text reads as `false`;
  - routes the image manager's answers (cancelled, degraded, final, error)
    to React Native's handlers.
- **The native module.** `ExpoPhotos` (ios/ExpoPhotosModule.swift):
  - the mandatory-field guards and the "override the default only when
    given" option blocks of `fetchAssets`, `requestImage`, `requestVideo` and
    `pickAssets`;
  - the `Convertible` converters (raw-value enumerations, `PHPickerFilter`,
    `NSSortDescriptor`);
  - the JavaScript shape of a `PHAsset`;
  - the `pickAssetsContinuations` table that `pickAssets` fills and
    `picker(_:didFinishPicking:)` empties.

The two ends of the URL are then joined (module `RoundTrip`). JavaScript
target sizes are integers in the model (see "Left out"). With that, the
native loader accepts every URI the JavaScript side builds. It asks the image
manager for exactly the asset, target size, content mode and options the
JavaScript caller gave, with the native defaults for the ones left out. It
fails only when the photo library does not resolve the identifier.

Files and modules:

- `wrappers.dfy` (`Wrappers`): `Option` and `Result`.
- `text.dfy` (`Text`): splitting and joining on a separator, ASCII lower
  case, and decimal integer text.
- `percent_encoding.dfy` (`PercentEncoding`):
  - `encodeURIComponent` as ECMA-262, section 19.2.6 defines it. The
    unreserved marks stay; every other character becomes the upper-case
    `%XX` escapes of its UTF-8 bytes (RFC 3629).
  - The percent-decoding of a query component (section 2.1 of RFC 3986).
- `url.dfy` (`Url`):
  - the split of a URI reference into scheme and query (appendix B of
    RFC 3986);
  - the query items `URLComponents` reports: pieces split on `&`, each split
    at its first `=`, each side percent-decoded.
- `photokit.dfy` (`PhotoKit`): the PhotoKit enumerations with their raw
  values, and the option records with their documented defaults.
- `image_source.dfy` (`ImageSource`): src/PHImageSource.tsx, as functions.
- `image_loader.dfy` (`ImageLoader`): ios/ExpoPhotosImageLoader.swift.
  - The two step-by-step parts are methods proved against specification
    functions: the `queryItems` loop and the guards of `loadImage`.
  - The rest are functions.
- `conversions.dfy` (`Conversions`): the `Convertible` extensions of
  ios/ExpoPhotosModule.swift over a `JsValue` datatype.
- `photos_module.dfy` (`PhotosModule`): the async functions of
  ios/ExpoPhotosModule.swift, as methods that set the option fields one by
  one, plus `PHAsset.toJS`.
  - The continuation table is the class `PickerRegistry`. Its `Valid()`
    invariant says that no continuation is resumed twice, and that a resumed
    one is no longer in the table.
- `round_trip.dfy` (`RoundTrip`): the JavaScript encoder against the native
  loader.

What the frameworks answer becomes a parameter of the operation that asks:

- `library`: the identifiers `PHAsset.fetchAssets(withLocalIdentifiers:)`
  resolves, or the assets they resolve to;
- `query`: the assets a fetch with given options returns;
- `answer`: the image or export session the image manager delivers, or the
  error it reports;
- `encoded`: whether WebP encoding succeeds;
- `writeError`: the error writing the encoded image to `outputURL` throws,
  if any;
- `status`: how an export ends;
- `hasViewController`: whether a view controller is on screen.

Remarks on the source that the model makes visible, without being defects of
the code:

- `ExpoPhotosError.couldNotCreateExportSession` is declared but never thrown.
  When the image manager gives no export session, `requestVideo` throws the
  reported error, or `unknown` (`PhotosModule.RequestVideo` proves it never
  throws `couldNotCreateExportSession`).
- The TypeScript `PHAsset` type declares `creationDate` as a number. The
  native side sends `null` for an asset without a date
  (`PhotosModule.AssetToJS`).
- The TypeScript `RequestImageOptions` makes `outputURL` optional. Native
  `requestImage` throws `mandatoryFieldMissing` without it.
- In src/ExpoPhotos.types.ts, the TypeScript `AVFileType` enumeration gives
  `AHAP` and `appleiTT` the same raw value, `com.apple.itt`.

## Model

| member | source | states |
|---|---|---|
| ImageSource.DefinedEntries | src/PHImageSource.tsx:21-27 | the defined entries are empty exactly when every value of the record is undefined |
| ImageSource.DefinedEntriesAt | src/PHImageSource.tsx:21-23 | filtering keeps exactly the defined entries, in their original order: the j-th entry kept is the entry at the j-th defined position |
| ImageSource.BuildQueryString | src/PHImageSource.tsx:18-38 | the query is the empty text exactly when every value is undefined; otherwise it starts with `?` |
| ImageSource.EncodeEntryShape | src/PHImageSource.tsx:34 | an encoded `key=value` pair holds no `&`, only unreserved characters, `%` and `=`, and its first `=` sits right after the encoded key |
| ImageSource.ParseEncodedEntry | src/PHImageSource.tsx:34 | splitting an encoded pair at its first `=` and percent-decoding both sides gives back the original key and value |
| ImageSource.ParseEncodedEntries | src/PHImageSource.tsx:32-35 | the list of encoded pairs reads back as the entries' query items, in order |
| ImageSource.QueryRecoversEntries | src/PHImageSource.tsx:29-37 | splitting a non-empty query after its `?` on `&` gives exactly the encoded pairs, none empty (so no leading, trailing or doubled `&`); decoding them gives the defined entries in order |
| ImageSource.QueryHasNoHash | src/PHImageSource.tsx:29-37 | a built query never holds `#`, so a URI's query runs to its end |
| ImageSource.CreatePHImageSource | src/PHImageSource.tsx:60-91 | there is no source exactly when `localIdentifier` is missing or empty; otherwise the URI is `expo-photos://` followed by the query string built from the record of the six options, with `localIdentifier` first |
| ImageSource.SourceParamsShape | src/PHImageSource.tsx:77-88 | the record lists the six keys in their fixed order; `localIdentifier` is always defined; each other key is defined exactly when its option is given |
| ImageSource.SourceEntriesOrder | src/PHImageSource.tsx:81-88 | the pairs of an image source's query begin with `localIdentifier`; keys come in the record's order; a key appears exactly when its option is given |
| ImageSource.SourceUriRecoversEntries | src/PHImageSource.tsx:90 | the URI parses with the `expo-photos` scheme, and its query items are the defined entries in order |
| PercentEncoding.EncodeURIComponent | src/PHImageSource.tsx:34 | `encodeURIComponent` output holds only unreserved characters and `%` |
| PercentEncoding.Utf8RoundTrip | src/PHImageSource.tsx:34 | decoding the UTF-8 bytes of a text gives the text back |
| PercentEncoding.EncodedBytes | src/PHImageSource.tsx:34 | the bytes that `encodeURIComponent` output denotes are the UTF-8 bytes of its input |
| PercentEncoding.DecodeEncode | src/PHImageSource.tsx:34 | percent-decoding undoes `encodeURIComponent` for every text |
| Text.SplitJoin | src/PHImageSource.tsx:36 | splitting on `d` undoes joining with `d` when no piece holds `d` |
| Text.JoinSplit | src/PHImageSource.tsx:36 | joining with `d` undoes splitting on `d` |
| Text.SplitPair | ios/ExpoPhotosImageLoader.swift:103-104 | two pieces without `d`, with one `d` between them, split back into exactly those two pieces |
| Text.LowerIdempotent | ios/ExpoPhotosImageLoader.swift:53 | lower-casing twice is the same as lower-casing once |
| Text.ParseIntText | src/PHImageSource.tsx:84-86 | the decimal text JavaScript writes for an integer reads back as that integer |
| Url.ParseSchemeAndQuery | ios/ExpoPhotosImageLoader.swift:20-21 | `scheme://?query` parses to that scheme and that query when the query holds no `#` |
| Url.ParseItemsAll | ios/ExpoPhotosImageLoader.swift:20-21 | pieces that each read as an item read together as the list of those items |
| ImageLoader.CollapseKeys | ios/ExpoPhotosImageLoader.swift:25-31 | a name is in the dictionary exactly when some item of that name has a value |
| ImageLoader.CollapseLastWins | ios/ExpoPhotosImageLoader.swift:26-30 | the value kept for a name is that of its last item with a value |
| ImageLoader.QueryItems | ios/ExpoPhotosImageLoader.swift:19-32 | the loop builds the collapsed dictionary of the URL's query items, or the empty dictionary when the URL has no decodable query |
| ImageLoader.BoolFromIgnoresCase | ios/ExpoPhotosImageLoader.swift:48-55 | `bool(from:)` gives the same answer for a text and its lower case |
| ImageLoader.SchemeGuardMatchesCanLoad | ios/ExpoPhotosImageLoader.swift:77-80 | `loadImage` fails on the scheme exactly when `canLoadImageURL` refuses the URL |
| ImageLoader.PlanFromQuery | ios/ExpoPhotosImageLoader.swift:85-95 | a planned request is for the non-empty `localIdentifier` of the query, and that identifier resolves in the library; failing here is never a scheme error |
| ImageLoader.PlanForAsset | ios/ExpoPhotosImageLoader.swift:100-143 | past the asset lookup, the only failures are the four invalid-parameter errors, and the request is for the given asset |
| ImageLoader.LoadImage | ios/ExpoPhotosImageLoader.swift:77-143 | when a check fails, there is exactly one error completion with that check's message and no image request; otherwise there is no handler call and the request is the one planned from the URL |
| ImageLoader.ReadOptionalParams | ios/ExpoPhotosImageLoader.swift:98-143 | starting from the default options and the scaled view size, each guard either updates the request or ends with its one error completion, as the plan says |
| ImageLoader.EmptyParamIsAbsent | ios/ExpoPhotosImageLoader.swift:102-136 | a parameter given with empty text leads to the same outcome as one left out |
| ImageLoader.DefaultsWhenAbsent | ios/ExpoPhotosImageLoader.swift:98-143 | a missing `targetSize` means the view size times the scale; each other missing parameter means its default |
| ImageLoader.RequestOnlyForValidParams | ios/ExpoPhotosImageLoader.swift:85-143 | a request is made only for a resolved non-empty identifier. Every given `targetSize` must be `WIDTHxHEIGHT`. Every given enumeration parameter must be a number that is a valid raw value, and that value is the one used |
| ImageLoader.TargetSizeNeedsTwoNumbers | ios/ExpoPhotosImageLoader.swift:102-111 | a `targetSize` is accepted exactly when its lower case is `a` + `x` + `b`, with neither `a` nor `b` holding an `x`, and both `a` and `b` read as integers; the size is then width `a` by height `b` |
| ImageLoader.Dispatch | ios/ExpoPhotosImageLoader.swift:157-177 | at most one handler call. None without info or for a cancelled request. A degraded image goes to the partial-load handler when there is one, and to nothing otherwise. A final image completes with no error. No image with an error completes with that error, and no image without one calls nothing |
| PhotoKit.ContentModeFromRaw | src/ExpoPhotos.types.ts:76-79 | a content mode exists exactly for the raw values 0 and 1, and it has that raw value |
| PhotoKit.ImageDeliveryModeFromRaw | src/ExpoPhotos.types.ts:70-74 | an image delivery mode exists exactly for the raw values 0 to 2, and it has that raw value |
| PhotoKit.ResizeModeFromRaw | src/ExpoPhotos.types.ts:64-68 | a resize mode exists exactly for the raw values 0 to 2, and it has that raw value |
| PhotoKit.VideoDeliveryModeFromRaw | src/ExpoPhotos.types.ts:92-97 | a video delivery mode exists exactly for the raw values 0 to 3, and it has that raw value |
| PhotoKit.AccessLevelFromRaw | src/ExpoPhotos.types.ts:17-20 | an access level exists exactly for the raw values 1 and 2, and it has that raw value |
| PhotoKit.RawRoundTrips | src/ExpoPhotos.types.ts:64-97 | every enumeration case reads back from its raw value |
| Conversions.AsInt | ios/ExpoPhotosModule.swift:399 | a number without a fractional part gives that integer, and every other value (a fraction, a string, a boolean, null, an array or an object) gives none |
| Conversions.ConvertIntEnum | ios/ExpoPhotosModule.swift:396-406 | an integer enumeration converts only from an integral number its `init(rawValue:)` accepts; the conversion error carries the value given |
| Conversions.ConvertStringEnum | ios/ExpoPhotosModule.swift:408-418 | a string enumeration converts only from a string its `init(rawValue:)` accepts; the conversion error carries the value given |
| Conversions.IntEnumRefusesNonNumbers | ios/ExpoPhotosModule.swift:398-403 | every value that is not a number is refused, whatever the raw values |
| Conversions.FractionsRefused | ios/ExpoPhotosModule.swift:399 | a number with a fractional part is refused |
| Conversions.JsEnumsConvert | ios/ExpoPhotosModule.swift:420-425 | each JavaScript enumeration number converts to the native case with that raw value |
| Conversions.FileTypeConverts | ios/ExpoPhotosModule.swift:424 | a file type converts from exactly the strings, and keeps the string as its identifier |
| Conversions.ConvertPickerFilter | ios/ExpoPhotosModule.swift:427-443 | a refused value is reported in the conversion error |
| Conversions.PickerFilterAcceptsJsNames | ios/ExpoPhotosModule.swift:427-443 | the filter converts exactly from `images`, `videos` and `any`, and `any` means images or videos |
| Conversions.ConvertSortDescriptor | ios/ExpoPhotosModule.swift:355-366 | the conversion succeeds exactly for an object with a string `key` and a boolean `ascending`; otherwise the error carries the value |
| Conversions.SortDescriptorRoundTrip | ios/ExpoPhotosModule.swift:355-366 | a descriptor written as an object converts back to itself, even with extra fields |
| PhotosModule.Millis | ios/ExpoPhotosModule.swift:328-330 | seconds become milliseconds truncated toward zero, for both signs |
| PhotosModule.AssetToJS | ios/ExpoPhotosModule.swift:344-352 | the object has exactly the five keys; `creationDate` is null exactly for an asset without a date |
| PhotosModule.AssetReadsBack | ios/ExpoPhotosModule.swift:344-352 | JavaScript reads every property back: the identifier, times in whole milliseconds, the raw media type and the subtypes |
| PhotosModule.EnumerateAssets | ios/ExpoPhotosModule.swift:83-86 | the enumeration appends the object of each asset, in order |
| PhotosModule.FetchAssets | ios/ExpoPhotosModule.swift:68-88 | each given fetch option replaces the default and a missing one keeps it; the result is the objects of the fetched assets, in order |
| PhotosModule.RequestImage | ios/ExpoPhotosModule.swift:95-166 | a missing mandatory field throws `mandatoryFieldMissing` before any lookup, and an unresolved identifier throws `couldNotFindAsset`. The request uses each given option in place of its default. No image throws the reported error, or `unknown`. A failed encoding throws `couldNotEncodeImage`. A failed write throws the write's error. It succeeds exactly when the image is encoded and written, with exactly the coder options given |
| PhotosModule.RequestVideo | ios/ExpoPhotosModule.swift:168-249 | a missing mandatory field throws `mandatoryFieldMissing`, and an unresolved identifier throws `couldNotFindAsset`. The session request uses each given option in place of its default. No session throws the reported error, or `unknown`. Each given export option replaces the session's own setting. The export's status decides the outcome |
| PhotosModule.AssetIdentifiers | ios/ExpoPhotosModule.swift:303 | an identifier is kept exactly when some result carries it; results without one are dropped |
| PhotosModule.AssetIdentifiersConcat | ios/ExpoPhotosModule.swift:303 | the identifiers of two runs of results are those of the first followed by those of the second, and one result gives its identifier once, or nothing; so order and repeats are kept |
| PhotosModule.NoIdentifierDropped | ios/ExpoPhotosModule.swift:303 | no result is dropped exactly when every result carries an identifier |
| PhotosModule.FetchByIdentifiers | ios/ExpoPhotosModule.swift:305-308 | every asset fetched is the library's asset for one of the identifiers asked for, and every identifier the library resolves gives its asset |
| PhotosModule.FetchByIdentifiersConcat | ios/ExpoPhotosModule.swift:305-308 | fetching two runs of identifiers gives the assets of the first followed by those of the second, and one identifier gives its asset once, or nothing when the library does not resolve it |
| PhotosModule.PickerRegistry.constructor | ios/ExpoPhotosModule.swift:61-63 | the table starts empty, with no continuation resumed |
| PhotosModule.PickerRegistry.PickAssets | ios/ExpoPhotosModule.swift:259-289 | without a view controller it throws `noViewController` and changes nothing. Otherwise the configuration takes each given option in place of its default, and a new continuation is stored under the picker's id. Every other entry is left as it was, and the invariant is kept |
| PhotosModule.PickerRegistry.DidFinishPicking | ios/ExpoPhotosModule.swift:294-311 | an unknown picker changes nothing. A known picker's entry, and no other, is removed before its continuation is resumed with the objects of the assets the picked identifiers resolve to. That continuation had not been resumed before, and the invariant is kept |
| RoundTrip.BoolTextReadsBack | ios/ExpoPhotosImageLoader.swift:48-55 | the `true` and `false` that JavaScript writes read back as the boolean written |
| RoundTrip.TargetSizeReadsBack | ios/ExpoPhotosImageLoader.swift:102-111 | a target size written as `${width}x${height}` reads back as the same width and height |
| RoundTrip.RawTextReadsBack | ios/ExpoPhotosImageLoader.swift:113-143 | an enumeration's raw value written as decimal text reads back as the same case |
| RoundTrip.DefinedEntriesMap | ios/ExpoPhotosImageLoader.swift:25-31 | with distinct keys, the dictionary gives each defined key its value and holds no undefined key |
| RoundTrip.SourceQueryParams | ios/ExpoPhotosImageLoader.swift:82 | the loader accepts an image source's URI, and reads each parameter as the encoder defined it, with an undefined one absent |
| RoundTrip.SourceFieldsRead | ios/ExpoPhotosImageLoader.swift:100-143 | each optional field of an image source's URI reads as the source gave it, or at its native default |
| RoundTrip.SourceLoadsAsRequested | ios/ExpoPhotosImageLoader.swift:77-143 | for an image source's URI, the loader fails only on an unresolved identifier. Otherwise it requests that asset with the source's target size (or the scaled view size), content mode and options, with the native defaults for those left out |

## Left out

- Calls into PhotoKit, AVFoundation, SDWebImage and UIKit are not modelled. These are fetching, requesting images and export sessions, exporting, WebP encoding, writing the file, presenting and dismissing the picker, and `presentLimitedLibraryPicker`. Their answers are parameters of the operations that make them; the outcome of the file write is the `writeError` parameter of `PhotosModule.RequestImage`.
- PhotosModule.FetchByIdentifiers, PhotosModule.FetchByIdentifiersConcat: assume that `PHAsset.fetchAssets(withLocalIdentifiers:)` returns the assets in the identifiers' order, and one asset for each occurrence of a repeated identifier. The framework promises neither the order nor the repeats.
- PhotoKit.ContentModeFromRaw, PhotoKit.ImageDeliveryModeFromRaw, PhotoKit.ResizeModeFromRaw, PhotoKit.VideoDeliveryModeFromRaw, PhotoKit.AccessLevelFromRaw, ImageLoader.DeliveryModeParam, ImageLoader.ResizeModeParam, ImageLoader.ContentModeParam, Conversions.ConvertIntEnum: the valid raw values are taken from the TypeScript enumerations in src/ExpoPhotos.types.ts, and every other integer is refused. In Swift, `init(rawValue:)` of these PhotoKit enumerations, which are imported from Objective-C, accepts every integer. So the source passes, for example, `deliveryMode=7` on to PhotoKit, where the model ends the load with the invalid-value error.
- Timeouts, `DispatchQueue.asyncAfter` cancellation, `withCheckedThrowingContinuation`, `MainActor.run` and `Task` are concurrency. The `timeout` options are carried but have no effect in the model, and the cancellation blocks are not modelled.
- requestAuthorization is a single framework call and is not modelled; only the `PHAccessLevel` conversion is.
- Floating-point conversions are not modelled. These are milliseconds to `TimeInterval`, `CMTime` and `CMTimeRange` (`CMTimeMakeWithSeconds` at timescale 600), and the progress multiplier of `loadImage`. Sizes and times are exact reals.
- ImageLoader.ParseTargetSize, ImageLoader.DeliveryModeParam, ImageLoader.ResizeModeParam, ImageLoader.ContentModeParam: `NumberFormatter` in `en_US_POSIX` decimal style is modelled as integer text only (an optional `-` and digits). Decimal fractions, grouping separators and exponents are therefore refused where the source accepts them, and `intValue`'s truncation of a fraction is not modelled.
- ImageSource.JsSize: the JavaScript `targetSize` numbers are integers in the model, so `Number.prototype.toString` of a fraction or an exponent form is not modelled.
- Text.Lower: upper and lower case are ASCII only; Swift's `lowercased()` and `caseInsensitiveCompare` also fold non-ASCII letters.
- Url.Parse: splits a URI as appendix B of RFC 3986 does. It does not reject the malformed URLs that `URLComponents` refuses (such a URL gives the empty dictionary in the source). It does not validate the authority.
- PercentEncoding.EncodeURIComponent: Dafny characters are Unicode scalar values. The `URIError` that `encodeURIComponent` throws for a lone UTF-16 surrogate cannot arise in the model.
- The bridging of `NSNumber` to `Bool` and `Int` is not modelled. In the model a JavaScript boolean is never an integer, and `1` is never a boolean.
- The `NSPredicate` converter is not modelled: the format-string parser is a framework call. The predicate text is passed through as given.
- Conversions.AsInt: integers are unbounded in the model. Under `NSNumber` bridging, `as? Int` also fails on whole numbers outside `Int.min...Int.max` (such as `1e19`), which the model accepts. No raw-value enumeration declares such a value, so the conversions that use it refuse it all the same.
- PhotosModule.RequestImage: `answer` is the image manager's first call of the result handler. In the source that handler resumes the continuation on its first call without looking at `PHImageResultIsDegradedKey`, so with opportunistic delivery the image written may be the degraded one. A second call (PhotoKit may make one with the final image) would resume the continuation twice, which traps. Later calls are not modelled.
- PhotosModule.Millis: `Int(self * 1000)` traps on overflow in Swift; integers are unbounded here. `fileLengthLimit` (`Int64`) and `encodeMaxFileSize` (`Int`) are unbounded as well.
- PhotosModule.RequestVideo: the export session is shared, mutable state in the source. The model treats its settings as a value, which the method updates field by field and returns.
- PhotosModule.PickerRegistry: a picker's id stands for `ObjectIdentifier(picker)`. Continuations are numbered by a counter `next` that stands for the fresh continuation object each call creates. The table's events log is a record of effects, not state of the source.
- The conversion of a whole `Record` (the `@Field` structs) and of arrays is done by the Expo framework. The model starts from the converted option records.
- PHImageManagerMaximumSize, which the TypeScript types allow as a `targetSize`, is not modelled: its conversion to `CGSize` is the framework's.
- ios/PHVideoView.swift is not part of this model: it is an `AVPlayer` view driven by key-value observation.

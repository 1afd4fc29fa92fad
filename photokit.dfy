/**
 * The photo framework's enumerations that cross the bridge as raw integers,
 * with the raw values the JavaScript declarations give them
 * (src/ExpoPhotos.types.ts), the option records the framework fills in, and
 * their default values.
 */
module PhotoKit {
  import opened Wrappers

  /** How an image is fitted into the requested size (`PHImageContentMode`). */
  datatype ContentMode = AspectFit | AspectFill

  function ContentModeRaw(m: ContentMode): int {
    match m
    case AspectFit => 0
    case AspectFill => 1
  }

  /** `PHImageContentMode(rawValue:)`. */
  function ContentModeFromRaw(n: int): (r: Option<ContentMode>)
    ensures r.Some? <==> 0 <= n <= 1
    ensures r.Some? ==> ContentModeRaw(r.value) == n
  {
    if n == 0 then Some(AspectFit) else if n == 1 then Some(AspectFill) else None
  }

  /** `PHImageContentMode.default`. */
  const DefaultContentMode: ContentMode := AspectFit

  /** Quality/speed trade-off of an image request (`PHImageRequestOptionsDeliveryMode`). */
  datatype ImageDeliveryMode = Opportunistic | HighQualityFormat | FastFormat

  function ImageDeliveryModeRaw(m: ImageDeliveryMode): int {
    match m
    case Opportunistic => 0
    case HighQualityFormat => 1
    case FastFormat => 2
  }

  function ImageDeliveryModeFromRaw(n: int): (r: Option<ImageDeliveryMode>)
    ensures r.Some? <==> 0 <= n <= 2
    ensures r.Some? ==> ImageDeliveryModeRaw(r.value) == n
  {
    if n == 0 then Some(Opportunistic)
    else if n == 1 then Some(HighQualityFormat)
    else if n == 2 then Some(FastFormat)
    else None
  }

  /** How exactly an image is resized (`PHImageRequestOptionsResizeMode`; `NoResize` is `.none`). */
  datatype ResizeMode = NoResize | Fast | Exact

  function ResizeModeRaw(m: ResizeMode): int {
    match m
    case NoResize => 0
    case Fast => 1
    case Exact => 2
  }

  function ResizeModeFromRaw(n: int): (r: Option<ResizeMode>)
    ensures r.Some? <==> 0 <= n <= 2
    ensures r.Some? ==> ResizeModeRaw(r.value) == n
  {
    if n == 0 then Some(NoResize)
    else if n == 1 then Some(Fast)
    else if n == 2 then Some(Exact)
    else None
  }

  /** Quality of a video request (`PHVideoRequestOptionsDeliveryMode`). */
  datatype VideoDeliveryMode = Automatic | VideoHighQuality | VideoMediumQuality | VideoFast

  function VideoDeliveryModeRaw(m: VideoDeliveryMode): int {
    match m
    case Automatic => 0
    case VideoHighQuality => 1
    case VideoMediumQuality => 2
    case VideoFast => 3
  }

  function VideoDeliveryModeFromRaw(n: int): (r: Option<VideoDeliveryMode>)
    ensures r.Some? <==> 0 <= n <= 3
    ensures r.Some? ==> VideoDeliveryModeRaw(r.value) == n
  {
    if n == 0 then Some(Automatic)
    else if n == 1 then Some(VideoHighQuality)
    else if n == 2 then Some(VideoMediumQuality)
    else if n == 3 then Some(VideoFast)
    else None
  }

  /** Library access asked for (`PHAccessLevel`). */
  datatype AccessLevel = AddOnly | ReadWrite

  function AccessLevelRaw(a: AccessLevel): int {
    match a
    case AddOnly => 1
    case ReadWrite => 2
  }

  function AccessLevelFromRaw(n: int): (r: Option<AccessLevel>)
    ensures r.Some? <==> 1 <= n <= 2
    ensures r.Some? ==> AccessLevelRaw(r.value) == n
  {
    if n == 1 then Some(AddOnly) else if n == 2 then Some(ReadWrite) else None
  }

  /** Kind of an asset (`PHAssetMediaType`). */
  datatype MediaType = UnknownMedia | ImageMedia | VideoMedia | AudioMedia

  function MediaTypeRaw(t: MediaType): int {
    match t
    case UnknownMedia => 0
    case ImageMedia => 1
    case VideoMedia => 2
    case AudioMedia => 3
  }

  /** Every raw enumeration value reads back as the value it came from. */
  lemma RawRoundTrips(c: ContentMode, d: ImageDeliveryMode, r: ResizeMode, v: VideoDeliveryMode, a: AccessLevel)
    ensures ContentModeFromRaw(ContentModeRaw(c)) == Some(c)
    ensures ImageDeliveryModeFromRaw(ImageDeliveryModeRaw(d)) == Some(d)
    ensures ResizeModeFromRaw(ResizeModeRaw(r)) == Some(r)
    ensures VideoDeliveryModeFromRaw(VideoDeliveryModeRaw(v)) == Some(v)
    ensures AccessLevelFromRaw(AccessLevelRaw(a)) == Some(a)
  {
  }

  /** A width and height in points or pixels (`CGSize`). */
  datatype Size = Size(width: real, height: real)

  /** The fields of `PHImageRequestOptions` this repository sets. */
  datatype ImageRequestOptions = ImageRequestOptions(
    isNetworkAccessAllowed: bool,
    deliveryMode: ImageDeliveryMode,
    resizeMode: ResizeMode)

  /** A freshly made `PHImageRequestOptions()`, with the framework's documented defaults. */
  const DefaultImageRequestOptions := ImageRequestOptions(false, Opportunistic, Fast)

  /** A decoded image (`UIImage`) the image manager hands back; its pixels are not modelled. */
  datatype Image = Image(handle: nat)

  /** A `requestImage(for:targetSize:contentMode:options:)` call on the image manager. */
  datatype ImageRequest = ImageRequest(
    asset: string,
    targetSize: Size,
    contentMode: ContentMode,
    options: ImageRequestOptions)

  /** The fields of `PHVideoRequestOptions` this repository sets. */
  datatype VideoRequestOptions = VideoRequestOptions(
    isNetworkAccessAllowed: bool,
    deliveryMode: VideoDeliveryMode)

  /** A freshly made `PHVideoRequestOptions()`. */
  const DefaultVideoRequestOptions := VideoRequestOptions(false, Automatic)
}

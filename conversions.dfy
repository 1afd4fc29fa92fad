/**
 * The `Convertible` extensions of ios/ExpoPhotosModule.swift: how a value
 * arriving from JavaScript becomes a sort descriptor, a picker filter or a
 * raw-value enumeration, and the conversion error (which carries the
 * offending value) when it does not fit.
 */
module Conversions {
  import opened Wrappers
  import opened PhotoKit

  /** A value as it arrives from JavaScript. */
  datatype JsValue =
    | JsNull
    | JsBool(b: bool)
    | JsNumber(n: real)
    | JsString(s: string)
    | JsArray(items: seq<JsValue>)
    | JsObject(fields: map<string, JsValue>)

  /** A conversion's result: the native value, or the conversion error holding the value that did not fit. */
  type Converted<T> = Result<T, JsValue>

  /** `value as? Int`: a number with no fractional part. */
  function AsInt(v: JsValue): (r: Option<int>)
    ensures r.Some? <==> v.JsNumber? && v.n == v.n.Floor as real
    ensures r.Some? ==> v == JsNumber(r.value as real)
  {
    if v.JsNumber? && v.n == v.n.Floor as real then Some(v.n.Floor) else None
  }

  // ---------------------------------------------------------------------------
  // Raw-value enumerations
  // ---------------------------------------------------------------------------

  /** `Convertible` for an enumeration with integer raw values: an integer that `fromRaw` accepts. */
  function ConvertIntEnum<E>(v: JsValue, fromRaw: int -> Option<E>): (r: Converted<E>)
    ensures r.Failure? ==> r.error == v
    ensures r.Success? ==> exists n: int :: v == JsNumber(n as real) && fromRaw(n) == Some(r.value)
  {
    match AsInt(v)
    case None => Failure(v)
    case Some(n) =>
      match fromRaw(n)
      case None => Failure(v)
      case Some(e) => Success(e)
  }

  /** `Convertible` for an enumeration with string raw values: a string that `fromRaw` accepts. */
  function ConvertStringEnum<E>(v: JsValue, fromRaw: string -> Option<E>): (r: Converted<E>)
    ensures r.Failure? ==> r.error == v
    ensures r.Success? ==> v.JsString? && fromRaw(v.s) == Some(r.value)
  {
    match v
    case JsString(s) =>
      (match fromRaw(s)
       case None => Failure(v)
       case Some(e) => Success(e))
    case _ => Failure(v)
  }

  /** Any value that is not a number is refused by an integer enumeration, whatever its raw values. */
  lemma IntEnumRefusesNonNumbers<E>(v: JsValue, fromRaw: int -> Option<E>)
    requires !v.JsNumber?
    ensures ConvertIntEnum(v, fromRaw) == Failure(v)
  {
  }

  /** The numbers the JavaScript enumerations declare convert to the native case of the same raw value. */
  lemma {:induction false} JsEnumsConvert(c: ContentMode, d: ImageDeliveryMode, m: ResizeMode, v: VideoDeliveryMode, a: AccessLevel)
    ensures ConvertIntEnum(JsNumber(ContentModeRaw(c) as real), ContentModeFromRaw) == Success(c)
    ensures ConvertIntEnum(JsNumber(ImageDeliveryModeRaw(d) as real), ImageDeliveryModeFromRaw) == Success(d)
    ensures ConvertIntEnum(JsNumber(ResizeModeRaw(m) as real), ResizeModeFromRaw) == Success(m)
    ensures ConvertIntEnum(JsNumber(VideoDeliveryModeRaw(v) as real), VideoDeliveryModeFromRaw) == Success(v)
    ensures ConvertIntEnum(JsNumber(AccessLevelRaw(a) as real), AccessLevelFromRaw) == Success(a)
  {
    RawRoundTrips(c, d, m, v, a);
    assert AsInt(JsNumber(ContentModeRaw(c) as real)) == Some(ContentModeRaw(c));
    assert AsInt(JsNumber(ImageDeliveryModeRaw(d) as real)) == Some(ImageDeliveryModeRaw(d));
    assert AsInt(JsNumber(ResizeModeRaw(m) as real)) == Some(ResizeModeRaw(m));
    assert AsInt(JsNumber(VideoDeliveryModeRaw(v) as real)) == Some(VideoDeliveryModeRaw(v));
    assert AsInt(JsNumber(AccessLevelRaw(a) as real)) == Some(AccessLevelRaw(a));
  }

  /** A number with a fractional part is refused even when its integer part is a raw value. */
  lemma FractionsRefused<E>(x: real, fromRaw: int -> Option<E>)
    requires x != x.Floor as real
    ensures ConvertIntEnum(JsNumber(x), fromRaw) == Failure(JsNumber(x))
  {
  }

  /** `AVFileType`: a uniform type identifier; every string is one. */
  datatype FileType = FileType(identifier: string)

  function FileTypeFromRaw(s: string): (r: Option<FileType>)
    ensures r == Some(FileType(s))
  {
    Some(FileType(s))
  }

  /** A file type converts from exactly the strings, and keeps the string as its identifier. */
  lemma FileTypeConverts(v: JsValue)
    ensures ConvertStringEnum(v, FileTypeFromRaw).Success? <==> v.JsString?
    ensures v.JsString? ==> ConvertStringEnum(v, FileTypeFromRaw) == Success(FileType(v.s))
  {
  }

  // ---------------------------------------------------------------------------
  // PHPickerFilter
  // ---------------------------------------------------------------------------

  /** `PHPickerFilter`: images, videos, or any of several filters. */
  datatype PickerFilter = Images | Videos | AnyOf(filters: seq<PickerFilter>)

  /** The values of the JavaScript `PHPickerFilter` enumeration. */
  datatype JsPickerFilter = ImagesFilter | VideosFilter | AnyFilter

  function JsPickerFilterName(f: JsPickerFilter): string {
    match f
    case ImagesFilter => "images"
    case VideosFilter => "videos"
    case AnyFilter => "any"
  }

  /** The native filter each JavaScript filter stands for: `any` is images or videos. */
  function NativePickerFilter(f: JsPickerFilter): PickerFilter {
    match f
    case ImagesFilter => Images
    case VideosFilter => Videos
    case AnyFilter => AnyOf([Images, Videos])
  }

  function ConvertPickerFilter(v: JsValue): (r: Converted<PickerFilter>)
    ensures r.Failure? ==> r.error == v
  {
    match v
    case JsString(s) =>
      if s == "images" then Success(Images)
      else if s == "videos" then Success(Videos)
      else if s == "any" then Success(AnyOf([Images, Videos]))
      else Failure(v)
    case _ => Failure(v)
  }

  /** The filter converter accepts exactly the names of the JavaScript enumeration, each as the filter it stands for. */
  lemma PickerFilterAcceptsJsNames(v: JsValue)
    ensures ConvertPickerFilter(v).Success? <==> exists f :: v == JsString(JsPickerFilterName(f))
    ensures forall f :: ConvertPickerFilter(JsString(JsPickerFilterName(f))) == Success(NativePickerFilter(f))
  {
    if ConvertPickerFilter(v).Success? {
      var s := v.s;
      if s == "images" {
        assert v == JsString(JsPickerFilterName(ImagesFilter));
      } else if s == "videos" {
        assert v == JsString(JsPickerFilterName(VideosFilter));
      } else {
        assert v == JsString(JsPickerFilterName(AnyFilter));
      }
    }
  }

  // ---------------------------------------------------------------------------
  // NSSortDescriptor
  // ---------------------------------------------------------------------------

  /** `NSSortDescriptor(key:ascending:)`. */
  datatype SortDescriptor = SortDescriptor(key: string, ascending: bool)

  /** An object with a string `key` and a boolean `ascending`; any other fields are ignored. */
  function ConvertSortDescriptor(v: JsValue): (r: Converted<SortDescriptor>)
    ensures r.Failure? ==> r.error == v
    ensures r.Success? <==>
      && v.JsObject?
      && "key" in v.fields && v.fields["key"].JsString?
      && "ascending" in v.fields && v.fields["ascending"].JsBool?
  {
    match v
    case JsObject(fields) =>
      if "key" in fields && fields["key"].JsString? && "ascending" in fields && fields["ascending"].JsBool? then
        Success(SortDescriptor(fields["key"].s, fields["ascending"].b))
      else Failure(v)
    case _ => Failure(v)
  }

  /** The JavaScript `NSSortDescriptor` object for a descriptor. */
  function SortDescriptorToJs(d: SortDescriptor): JsValue {
    JsObject(map["key" := JsString(d.key), "ascending" := JsBool(d.ascending)])
  }

  /** A descriptor written as a JavaScript object, with or without further fields, converts back to itself. */
  lemma SortDescriptorRoundTrip(d: SortDescriptor, extra: map<string, JsValue>)
    ensures ConvertSortDescriptor(SortDescriptorToJs(d)) == Success(d)
    ensures ConvertSortDescriptor(JsObject(extra["key" := JsString(d.key)]["ascending" := JsBool(d.ascending)])) == Success(d)
  {
  }
}

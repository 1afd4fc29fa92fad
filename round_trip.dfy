/**
 * The two ends of the `expo-photos://` image URL together: the URI that
 * `createPHImageSource` builds in JavaScript is accepted by the native
 * loader, and the loader asks the image manager for exactly the asset, size,
 * content mode and options the JavaScript side gave, with the native
 * defaults for those it left out.
 */
module RoundTrip {
  import opened Wrappers
  import opened Text
  import opened PhotoKit
  import Url
  import ImageSource
  import ImageLoader

  /** `bool(from:)` reads the `true` and `false` the encoder writes as the boolean written. */
  lemma BoolTextReadsBack(b: bool)
    ensures ImageLoader.BoolFrom(Some(ImageSource.BoolText(b))) == b
  {
    assert Lower("true") == "true";
    assert Lower("false") == "false";
  }

  /** Integer text has no letters, so lower-casing `${width}x${height}` leaves it as it is. */
  lemma TargetSizeTextLower(s: ImageSource.JsSize)
    ensures Lower(ImageSource.TargetSizeText(s)) == IntText(s.width) + "x" + IntText(s.height)
    ensures 'x' !in IntText(s.width) && 'x' !in IntText(s.height)
  {
    var w, h := IntText(s.width), IntText(s.height);
    IntTextAlphabet(s.width);
    IntTextAlphabet(s.height);
    LowerCaseless(w);
    LowerCaseless(h);
    LowerAppend(w, "x");
    LowerAppend(w + "x", h);
    assert Lower("x") == "x";
  }

  /** A target size written as `${width}x${height}` reads back as the same width and height. */
  lemma TargetSizeReadsBack(s: ImageSource.JsSize)
    ensures ImageLoader.ParseTargetSize(ImageSource.TargetSizeText(s)) == Some(Size(s.width as real, s.height as real))
  {
    var w, h := IntText(s.width), IntText(s.height);
    TargetSizeTextLower(s);
    SplitPair(w, h, 'x');
    assert Split(Lower(ImageSource.TargetSizeText(s)), 'x') == [w, h];
    ParseIntText(s.width);
    ParseIntText(s.height);
  }

  /** An enumeration's raw value, written as decimal text, reads back as the same case. */
  lemma RawTextReadsBack(c: ContentMode, d: ImageDeliveryMode, r: ResizeMode)
    ensures ParseInteger(IntText(ContentModeRaw(c))) == Some(ContentModeRaw(c))
    ensures ParseInteger(IntText(ImageDeliveryModeRaw(d))) == Some(ImageDeliveryModeRaw(d))
    ensures ParseInteger(IntText(ResizeModeRaw(r))) == Some(ResizeModeRaw(r))
    ensures ContentModeFromRaw(ContentModeRaw(c)) == Some(c)
    ensures ImageDeliveryModeFromRaw(ImageDeliveryModeRaw(d)) == Some(d)
    ensures ResizeModeFromRaw(ResizeModeRaw(r)) == Some(r)
  {
    ParseIntText(ContentModeRaw(c));
    ParseIntText(ImageDeliveryModeRaw(d));
    ParseIntText(ResizeModeRaw(r));
  }

  /**
   * Reading the defined entries of a record with distinct keys into the
   * loader's dictionary gives each defined key its value and holds no
   * undefined key.
   */
  lemma {:induction false} DefinedEntriesMap(ps: seq<ImageSource.Param>)
    requires forall i, j :: 0 <= i < j < |ps| ==> ps[i].0 != ps[j].0
    ensures var m := ImageLoader.Collapse(ImageSource.ItemsOf(ImageSource.DefinedEntries(ps)));
      && (forall i :: 0 <= i < |ps| ==>
           && (ps[i].1.Some? ==> ps[i].0 in m && m[ps[i].0] == ps[i].1.value)
           && (ps[i].1.None? ==> ps[i].0 !in m))
      && (forall k :: k in m ==> exists i :: 0 <= i < |ps| && ps[i].0 == k)
  {
    if ps != [] {
      var front := ps[..|ps| - 1];
      var last := ps[|ps| - 1];
      assert forall i :: 0 <= i < |front| ==> front[i] == ps[i];
      DefinedEntriesMap(front);
      var mf := ImageLoader.Collapse(ImageSource.ItemsOf(ImageSource.DefinedEntries(front)));
      var m := ImageLoader.Collapse(ImageSource.ItemsOf(ImageSource.DefinedEntries(ps)));
      assert m == (match last.1 case None => mf case Some(v) => mf[last.0 := v]) by {
        CollapseStep(ps);
      }
      assert last.0 !in mf;
    }
  }

  /** Appending one parameter adds its key and value to the dictionary when it is defined, and nothing otherwise. */
  lemma CollapseStep(ps: seq<ImageSource.Param>)
    requires ps != []
    ensures var last := ps[|ps| - 1];
      var mf := ImageLoader.Collapse(ImageSource.ItemsOf(ImageSource.DefinedEntries(ps[..|ps| - 1])));
      ImageLoader.Collapse(ImageSource.ItemsOf(ImageSource.DefinedEntries(ps))) ==
        (match last.1 case None => mf case Some(v) => mf[last.0 := v])
  {
    var ef := ImageSource.DefinedEntries(ps[..|ps| - 1]);
    var last := ps[|ps| - 1];
    match last.1 {
      case None =>
        assert ImageSource.DefinedEntries(ps) == ef;
      case Some(v) =>
        var es := ef + [(last.0, v)];
        assert ImageSource.DefinedEntries(ps) == es;
        var items := ImageSource.ItemsOf(es);
        assert items[..|items| - 1] == ImageSource.ItemsOf(ef);
        assert items[|items| - 1] == Url.QueryItem(last.0, Some(v));
    }
  }

  /** Every value the image source defines is non-empty text, and its keys are distinct. */
  lemma SourceParamsDefinedNonEmpty(o: ImageSource.PHImageSourceOptions, id: string)
    requires id != ""
    ensures var ps := ImageSource.SourceParams(o, id);
      && (forall i, j :: 0 <= i < j < |ps| ==> ps[i].0 != ps[j].0)
      && (forall i :: 0 <= i < |ps| && ps[i].1.Some? ==> ps[i].1.value != "")
  {
    var ps := ImageSource.SourceParams(o, id);
    ImageSource.SourceParamsShape(o, id);
    if o.targetSize.Some? {
      assert ps[1].1.value == IntText(o.targetSize.value.width) + "x" + IntText(o.targetSize.value.height);
    }
    if o.isNetworkAccessAllowed.Some? {
      assert ps[5].1.value == ImageSource.BoolText(o.isNetworkAccessAllowed.value);
    }
  }

  /** The loader's dictionary for an image source's URI: each parameter as the encoder defined it, an undefined one absent. */
  lemma {:induction false} SourceQueryParams(o: ImageSource.PHImageSourceOptions)
    requires ImageSource.CreatePHImageSource(o).Some?
    ensures var url := Url.Parse(ImageSource.CreatePHImageSource(o).value.uri);
      var ps := ImageSource.SourceParams(o, o.localIdentifier.value);
      && ImageLoader.CanLoadImageUrl(url)
      && forall i :: 0 <= i < |ps| ==> ImageLoader.Param(ImageLoader.QueryMap(url), ps[i].0) == ps[i].1
  {
    var id := o.localIdentifier.value;
    var url := Url.Parse(ImageSource.CreatePHImageSource(o).value.uri);
    var ps := ImageSource.SourceParams(o, id);
    ImageSource.SourceUriRecoversEntries(o);
    assert url.scheme == Some(ImageSource.Scheme);
    assert ImageLoader.QueryMap(url) == ImageLoader.Collapse(ImageSource.ItemsOf(ImageSource.DefinedEntries(ps)));
    SourceParamsDefinedNonEmpty(o, id);
    DefinedEntriesMap(ps);
  }

  /** A target size the encoder wrote reads back; without one the loader falls back to `fallback`. */
  lemma TargetSizeFieldReadsBack(q: map<string, string>, t: Option<ImageSource.JsSize>, fallback: Size)
    requires ImageLoader.Param(q, "targetSize") ==
      (match t case None => None case Some(s) => Some(ImageSource.TargetSizeText(s)))
    ensures ImageLoader.TargetSizeParam(q, fallback) ==
      Some(match t case None => fallback case Some(s) => Size(s.width as real, s.height as real))
  {
    if t.Some? {
      TargetSizeReadsBack(t.value);
    }
  }

  /** The enumeration and boolean fields the encoder wrote read back as given, the missing ones at their defaults. */
  lemma OptionFieldsReadBack(q: map<string, string>, o: ImageSource.PHImageSourceOptions)
    requires ImageLoader.Param(q, "resizeMode") ==
      (match o.resizeMode case None => None case Some(m) => Some(IntText(ResizeModeRaw(m))))
    requires ImageLoader.Param(q, "deliveryMode") ==
      (match o.deliveryMode case None => None case Some(m) => Some(IntText(ImageDeliveryModeRaw(m))))
    requires ImageLoader.Param(q, "contentMode") ==
      (match o.contentMode case None => None case Some(m) => Some(IntText(ContentModeRaw(m))))
    requires ImageLoader.Param(q, "isNetworkAccessAllowed") ==
      (match o.isNetworkAccessAllowed case None => None case Some(b) => Some(ImageSource.BoolText(b)))
    ensures ImageLoader.ResizeModeParam(q) == Some(o.resizeMode.GetOr(DefaultImageRequestOptions.resizeMode))
    ensures ImageLoader.DeliveryModeParam(q) == Some(o.deliveryMode.GetOr(DefaultImageRequestOptions.deliveryMode))
    ensures ImageLoader.ContentModeParam(q) == Some(o.contentMode.GetOr(DefaultContentMode))
    ensures ImageLoader.NetworkParam(q) == o.isNetworkAccessAllowed.GetOr(DefaultImageRequestOptions.isNetworkAccessAllowed)
  {
    RawTextReadsBack(o.contentMode.GetOr(AspectFit), o.deliveryMode.GetOr(Opportunistic), o.resizeMode.GetOr(Fast));
    if o.isNetworkAccessAllowed.Some? {
      BoolTextReadsBack(o.isNetworkAccessAllowed.value);
    }
  }

  /** The loader accepts the URI of an image source and finds its identifier. */
  lemma SourceAccepted(o: ImageSource.PHImageSourceOptions)
    requires ImageSource.CreatePHImageSource(o).Some?
    ensures var url := Url.Parse(ImageSource.CreatePHImageSource(o).value.uri);
      && ImageLoader.CanLoadImageUrl(url)
      && ImageLoader.Param(ImageLoader.QueryMap(url), "localIdentifier") == o.localIdentifier
  {
    var ps := ImageSource.SourceParams(o, o.localIdentifier.value);
    SourceQueryParams(o);
    assert ps[0].0 == "localIdentifier";
  }

  /** The loader reads each optional field of an image source's URI as the source gave it, or at its default. */
  lemma SourceFieldsRead(o: ImageSource.PHImageSourceOptions, fallback: Size)
    requires ImageSource.CreatePHImageSource(o).Some?
    ensures var q := ImageLoader.QueryMap(Url.Parse(ImageSource.CreatePHImageSource(o).value.uri));
      && ImageLoader.TargetSizeParam(q, fallback) ==
           Some(match o.targetSize case None => fallback case Some(s) => Size(s.width as real, s.height as real))
      && ImageLoader.ResizeModeParam(q) == Some(o.resizeMode.GetOr(DefaultImageRequestOptions.resizeMode))
      && ImageLoader.DeliveryModeParam(q) == Some(o.deliveryMode.GetOr(DefaultImageRequestOptions.deliveryMode))
      && ImageLoader.ContentModeParam(q) == Some(o.contentMode.GetOr(DefaultContentMode))
      && ImageLoader.NetworkParam(q) == o.isNetworkAccessAllowed.GetOr(DefaultImageRequestOptions.isNetworkAccessAllowed)
  {
    var ps := ImageSource.SourceParams(o, o.localIdentifier.value);
    var q := ImageLoader.QueryMap(Url.Parse(ImageSource.CreatePHImageSource(o).value.uri));
    SourceQueryParams(o);
    assert ImageLoader.Param(q, ps[1].0) == ps[1].1;
    assert ImageLoader.Param(q, ps[2].0) == ps[2].1;
    assert ImageLoader.Param(q, ps[3].0) == ps[3].1;
    assert ImageLoader.Param(q, ps[4].0) == ps[4].1;
    assert ImageLoader.Param(q, ps[5].0) == ps[5].1;
    TargetSizeFieldReadsBack(q, o.targetSize, fallback);
    OptionFieldsReadBack(q, o);
  }

  /** The loader's plan for a dictionary whose fields read as an image source's options. */
  lemma PlanOfSourceFields(
    q: map<string, string>, o: ImageSource.PHImageSourceOptions, id: string, fallback: Size, library: set<string>)
    requires ImageLoader.Param(q, "localIdentifier") == Some(id)
    requires ImageLoader.TargetSizeParam(q, fallback) ==
      Some(match o.targetSize case None => fallback case Some(s) => Size(s.width as real, s.height as real))
    requires ImageLoader.ResizeModeParam(q) == Some(o.resizeMode.GetOr(DefaultImageRequestOptions.resizeMode))
    requires ImageLoader.DeliveryModeParam(q) == Some(o.deliveryMode.GetOr(DefaultImageRequestOptions.deliveryMode))
    requires ImageLoader.ContentModeParam(q) == Some(o.contentMode.GetOr(DefaultContentMode))
    requires ImageLoader.NetworkParam(q) == o.isNetworkAccessAllowed.GetOr(DefaultImageRequestOptions.isNetworkAccessAllowed)
    ensures ImageLoader.PlanForAsset(q, id, fallback) == Success(ImageRequest(
      id,
      (match o.targetSize case None => fallback case Some(s) => Size(s.width as real, s.height as real)),
      o.contentMode.GetOr(DefaultContentMode),
      ImageRequestOptions(
        o.isNetworkAccessAllowed.GetOr(DefaultImageRequestOptions.isNetworkAccessAllowed),
        o.deliveryMode.GetOr(DefaultImageRequestOptions.deliveryMode),
        o.resizeMode.GetOr(DefaultImageRequestOptions.resizeMode))))
  {
  }

  /**
   * The native loader, given the URI of an image source, fails only when the
   * library does not resolve the identifier, and otherwise requests that
   * asset with the target size, content mode and options the source gave,
   * each missing one at its native default (the view's size times its scale
   * for the target).
   */
  lemma {:induction false} SourceLoadsAsRequested(o: ImageSource.PHImageSourceOptions, view: Size, scale: real, library: set<string>)
    requires ImageSource.CreatePHImageSource(o).Some?
    ensures var url := Url.Parse(ImageSource.CreatePHImageSource(o).value.uri);
      var id := o.localIdentifier.value;
      ImageLoader.LoadPlan(url, view, scale, library) ==
        if id !in library then Failure(ImageLoader.AssetNotFound(id))
        else
          Success(ImageRequest(
            id,
            (match o.targetSize
             case None => ImageLoader.Scaled(view, scale)
             case Some(s) => Size(s.width as real, s.height as real)),
            o.contentMode.GetOr(DefaultContentMode),
            ImageRequestOptions(
              o.isNetworkAccessAllowed.GetOr(DefaultImageRequestOptions.isNetworkAccessAllowed),
              o.deliveryMode.GetOr(DefaultImageRequestOptions.deliveryMode),
              o.resizeMode.GetOr(DefaultImageRequestOptions.resizeMode))))
  {
    var id := o.localIdentifier.value;
    var url := Url.Parse(ImageSource.CreatePHImageSource(o).value.uri);
    var ps := ImageSource.SourceParams(o, id);
    var q := ImageLoader.QueryMap(url);
    var fallback := ImageLoader.Scaled(view, scale);
    SourceAccepted(o);
    SourceFieldsRead(o, fallback);
    PlanOfSourceFields(q, o, id, fallback, library);
    assert ImageLoader.LoadPlan(url, view, scale, library) == ImageLoader.PlanFromQuery(q, view, scale, library);
  }
}

/** The three HTTP handlers. `/` answers a fixed JSON payload; `/i/{key}` fetches the
    original through a presigned URL, decodes it, corrects its orientation and renders a
    JPEG according to the query; `/o/{key}` redirects to the presigned URL.

    The network, the S3 signer and the pixel libraries are not interpreted. The origin
    is a function from URL to its answer; pyheif and Pillow's `Image.open` are functions
    from bytes to a decoded frame; Pillow's pixel work is a function that either raises
    or yields the JPEG bytes, and the work itself is described by the `RenderPlan`
    handed to it (decoder, rotation, thumbnail box, grayscale, quality). */
module Handlers {
  import opened Errors
  import opened Decimal
  import opened KeyCodec
  import opened Orientation
  import opened QueryRules
  import opened BytesRepr

  /** The process configuration the URL signer uses (read once from the environment). */
  datatype Config = Config(bucket: string)

  /** Seconds a presigned URL stays valid (`ExpiresIn=600`). */
  const UrlLifetime := 600

  /** A presigned `get_object` URL. Different objects give different URLs. */
  datatype SignedUrl = SignedUrl(bucket: string, objectName: string, expiresIn: int)

  /** `url_for_image(sha256, ext)` */
  function UrlForImage(cfg: Config, sha256: string, ext: string): (url: SignedUrl)
    ensures url.bucket == cfg.bucket && url.expiresIn == UrlLifetime
    ensures url.objectName == ObjectName(ObjectKey(sha256, ext))
  {
    SignedUrl(cfg.bucket, ObjectName(ObjectKey(sha256, ext)), UrlLifetime)
  }

  /** What the origin answered: its status code and raw body. */
  datatype FetchResult = FetchResult(status: int, content: seq<byte>)

  /** What `pyheif.read_heif` yields: pixel mode and size. */
  datatype HeifFrame = HeifFrame(mode: string, width: nat, height: nat)

  /** A decoded image as the handler sees it: its size, mode and EXIF access. */
  datatype Picture = Picture(width: nat, height: nat, mode: string, exif: ExifAccess)

  datatype Decoder = HeifReader | PillowOpen

  /** The image libraries; each yields `None` where it raises. `readHeif` and `openImage`
      decode. `rotate` says whether `image.rotate(angle, expand=True)` succeeds on the
      image the decoder made from the bytes (`Image.open` loads pixels lazily, so a
      damaged file can first fail here). `finish` runs the rest of the plan, from
      `thumbnail` to the JPEG `save`, and yields the bytes written. */
  datatype Library = Library(
    readHeif: seq<byte> -> Option<HeifFrame>,
    openImage: seq<byte> -> Option<Picture>,
    rotate: (Decoder, seq<byte>, int) -> bool,
    finish: RenderPlan -> Option<seq<byte>>)

  /** How the JPEG body is produced from the origin's bytes: decode with `decoder`,
      `rotate(angle, expand=True)` if `rotation` is given, `thumbnail(box)` if a box is
      given, `convert("L")` if `grayscale`, then `save(..., "JPEG", quality=quality)`. */
  datatype RenderPlan = RenderPlan(
    source: seq<byte>,
    decoder: Decoder,
    rotation: Option<int>,
    thumbnailBox: Option<(int, int)>,
    grayscale: bool,
    quality: int)

  datatype JsonBody =
    | NothingToSee(error: string)
    | OriginFailure(error: string, statusCode: int, body: string)

  datatype Response =
    | Json(status: int, payload: JsonBody)
    | Jpeg(status: int, plan: RenderPlan, body: seq<byte>, mediaType: string, headers: map<string, string>)
    | Redirect(status: int, location: SignedUrl)
    /** an exception escaped the handler; the framework answers with a server error */
    | Uncaught(fault: Fault)

  const SecondsPerYear := 365 * 24 * 60 * 60

  lemma YearInDecimal()
    ensures DecimalString(SecondsPerYear) == "31536000"
  {
    assert DecimalString(3) == "3";
    assert DecimalString(31) == "31";
    assert DecimalString(315) == "315";
    assert DecimalString(3153) == "3153";
    assert DecimalString(31536) == "31536";
    assert DecimalString(315360) == "315360";
    assert DecimalString(3153600) == "3153600";
    assert DecimalString(31536000) == "31536000";
  }

  /** `"s-maxage={}, public".format(365 * 24 * 60 * 60)`: shared caches may keep the
      response for a year (the s-maxage and public directives of RFC 9111, sections
      5.2.2.10 and 5.2.2.9). */
  function CacheControl(): (value: string)
    ensures value == "s-maxage=31536000, public"
  {
    YearInDecimal();
    "s-maxage=" + DecimalString(SecondsPerYear) + ", public"
  }

  /** `homepage`: always the same JSON payload, `{"error": "Nothing to see here"}`. */
  function Homepage(): (r: Response)
    ensures r.Json? && r.status == 200 && r.payload.NothingToSee?
    ensures r.payload.error == "Nothing to see here"
  {
    Json(200, NothingToSee("Nothing to see here"))
  }

  /** `original`: a 302 redirect to the presigned URL of the object the key names. The
      key is unpacked as in `image`, so the same keys fail, and nothing is fetched. */
  function Original(cfg: Config, key: string): (r: Response)
    ensures ParseKey(key).Failure? ==> r == Uncaught(ParseKey(key).fault)
    ensures ParseKey(key).Success? ==>
              && r.Redirect? && r.status == 302
              && r.location.bucket == cfg.bucket
              && r.location.objectName == key
              && r.location.expiresIn == UrlLifetime
  {
    match ParseKey(key)
    case Failure(fault) => Uncaught(fault)
    case Success(k) =>
      Redirect(302, UrlForImage(cfg, k.sha256, k.ext))
  }

  /** Loading the fetched bytes: `pyheif.read_heif` and `Image.frombytes` when the
      extension is exactly `"heic"` (so not `"HEIC"`), `Image.open` for anything else.
      An image built with `Image.frombytes` has no `_getexif`. */
  function Decode(lib: Library, ext: string, content: seq<byte>): (r: Option<(Picture, Decoder)>)
    ensures r.Some? ==> (r.value.1 == HeifReader <==> ext == "heic")
    ensures ext == "heic" ==>
              && (r.Some? <==> lib.readHeif(content).Some?)
              && (r.Some? ==>
                    var frame := lib.readHeif(content).value;
                    r.value.0 == Picture(frame.width, frame.height, frame.mode, NoGetExif))
    ensures ext != "heic" ==>
              && (r.Some? <==> lib.openImage(content).Some?)
              && (r.Some? ==> r.value.0 == lib.openImage(content).value)
  {
    if ext == "heic" then
      match lib.readHeif(content)
      case None => None
      case Some(heic) => Some((Picture(heic.width, heic.height, heic.mode, NoGetExif), HeifReader))
    else
      match lib.openImage(content)
      case None => None
      case Some(image) => Some((image, PillowOpen))
  }

  /** A HEIC original is never rotated, whatever its orientation metadata. */
  lemma HeicNeverRotated(lib: Library, content: seq<byte>, tag: Option<int>)
    requires Decode(lib, "heic", content).Some?
    ensures OrientationRotation(Decode(lib, "heic", content).value.0.exif, tag) == Success(None)
  {
  }

  /** The image size after the orientation step. */
  function OrientedSize(image: Picture, rotation: Option<int>): (size: (nat, nat))
    requires rotation.Some? ==> rotation.value in {90, 180, 270}
    ensures rotation.None? || rotation == Some(180) ==> size == (image.width, image.height)
    ensures rotation == Some(90) || rotation == Some(270) ==> size == (image.height, image.width)
    ensures size.0 * size.1 == image.width * image.height
  {
    if rotation.Some? then RotatedSize(image.width, image.height, rotation.value) else (image.width, image.height)
  }

  /** The faults `image` can let escape once the key has unpacked. */
  predicate IsPipelineFault(f: Fault) {
    || f.DecodeFailed? || f.ExifFailed? || f.UnboundOrientationTag?
    || f.InvalidIntLiteral? || f.ZeroDivision? || f.PillowFailed?
  }

  /** `image`: the transform endpoint. `orientationTag` is the module-level loop
      variable (`None` if it was never bound). */
  method ServeImage(cfg: Config, orientationTag: Option<int>, key: string, query: Query,
                    origin: SignedUrl -> FetchResult, lib: Library) returns (resp: Response)
    // a key without exactly one dot escapes as the unpacking error
    ensures ParseKey(key).Failure? ==> resp == Uncaught(ParseKey(key).fault)
    // the origin is asked for the object the key names; a non-200 answer becomes a
    // JSON diagnostic and nothing is decoded or rendered
    ensures ParseKey(key).Success? ==>
              var k := ParseKey(key).value;
              var fetched := origin(UrlForImage(cfg, k.sha256, k.ext));
              && UrlForImage(cfg, k.sha256, k.ext).objectName == key
              && (fetched.status != 200 <==> resp.Json?)
              && (fetched.status != 200 ==>
                    resp == Json(200, OriginFailure("Status code not 200", fetched.status, Repr(fetched.content))))
    // a JPEG is rendered from the fetched bytes: decoded by extension, rotated as the
    // EXIF orientation says, boxed from w and h against the oriented size, with the
    // grayscale and quality rules of the query, and its body is what Pillow wrote
    ensures resp.Jpeg? ==>
              && ParseKey(key).Success?
              && var k := ParseKey(key).value;
                 var fetched := origin(UrlForImage(cfg, k.sha256, k.ext));
                 && fetched.status == 200
                 && resp.status == 200
                 && resp.mediaType == "image/jpeg"
                 && resp.headers == map["cache-control" := CacheControl()]
                 && resp.plan.source == fetched.content
                 && Decode(lib, k.ext, fetched.content).Some?
                 && (var (image, decoder) := Decode(lib, k.ext, fetched.content).value;
                    && resp.plan.decoder == decoder
                    && (decoder == HeifReader <==> k.ext == "heic")
                    && OrientationRotation(image.exif, orientationTag) == Success(resp.plan.rotation)
                    && (k.ext == "heic" ==> resp.plan.rotation.None?)
                    && (resp.plan.rotation.Some? ==> lib.rotate(decoder, fetched.content, resp.plan.rotation.value))
                    && (var size := OrientedSize(image, resp.plan.rotation);
                        ResizeBox(size.0, size.1, Get(query, "w"), Get(query, "h")) == Success(resp.plan.thumbnailBox)))
                 && (resp.plan.thumbnailBox.Some? <==> "w" in query || "h" in query)
                 && resp.plan.grayscale == WantsGrayscale(query)
                 && resp.plan.quality == ChooseQuality(Get(query, "q"))
                 && 1 <= resp.plan.quality <= 100
                 && lib.finish(resp.plan) == Some(resp.body)
    // after the fetch, the errors that escape are the decoder's, the EXIF reader's,
    // those of the w/h rule and Pillow's, each let out by the step that raised it
    ensures resp.Uncaught? && ParseKey(key).Success? ==>
              && IsPipelineFault(resp.fault)
              && var k := ParseKey(key).value;
                 var fetched := origin(UrlForImage(cfg, k.sha256, k.ext));
                 && fetched.status == 200
                 && (Decode(lib, k.ext, fetched.content).None? ==> resp.fault == DecodeFailed)
                 && (Decode(lib, k.ext, fetched.content).Some? ==>
                       var (image, decoder) := Decode(lib, k.ext, fetched.content).value;
                       var rotation := OrientationRotation(image.exif, orientationTag);
                       && (rotation.Failure? ==> resp.fault == rotation.fault)
                       && (rotation.Success? && rotation.value.Some? &&
                           !lib.rotate(decoder, fetched.content, rotation.value.value) ==>
                             resp.fault == PillowFailed)
                       && (rotation.Success? &&
                           (rotation.value.Some? ==> lib.rotate(decoder, fetched.content, rotation.value.value)) ==>
                             var size := OrientedSize(image, rotation.value);
                             var box := ResizeBox(size.0, size.1, Get(query, "w"), Get(query, "h"));
                             && (box.Failure? ==> resp.fault == box.fault)
                             && (box.Success? ==>
                                   && resp.fault == PillowFailed
                                   && lib.finish(RenderPlan(fetched.content, decoder, rotation.value, box.value,
                                                            WantsGrayscale(query), ChooseQuality(Get(query, "q")))).None?)))
    ensures !resp.Redirect?
  {
    var parsed := ParseKey(key);
    if parsed.Failure? {
      return Uncaught(parsed.fault);
    }
    var sha256, ext := parsed.value.sha256, parsed.value.ext;
    var url := UrlForImage(cfg, sha256, ext);

    // fetch the original
    var fetched := origin(url);
    if fetched.status != 200 {
      return Json(200, OriginFailure("Status code not 200", fetched.status, Repr(fetched.content)));
    }

    // load it
    var decoded := Decode(lib, ext, fetched.content);
    if decoded.None? {
      return Uncaught(DecodeFailed);
    }
    var image, decoder := decoded.value.0, decoded.value.1;

    // does EXIF ask for a rotation?
    var rotation := OrientationRotation(image.exif, orientationTag);
    if rotation.Failure? {
      return Uncaught(rotation.fault);
    }
    var width, height := image.width, image.height;
    if rotation.value.Some? {
      if !lib.rotate(decoder, fetched.content, rotation.value.value) {
        return Uncaught(PillowFailed);
      }
      var size := RotatedSize(width, height, rotation.value.value);
      width, height := size.0, size.1;
    }

    // thumbnail box from ?w= and ?h=, read against the oriented size
    var box := ResizeBox(width, height, Get(query, "w"), Get(query, "h"));
    if box.Failure? {
      return Uncaught(box.fault);
    }
    ResizeOnlyWhenAsked(width, height, Get(query, "w"), Get(query, "h"));

    // ?bw= and ?q=
    var grayscale := WantsGrayscale(query);
    var quality := ChooseQuality(Get(query, "q"));

    // thumbnail, convert and save, as Pillow carries them out
    var plan := RenderPlan(fetched.content, decoder, rotation.value, box.value, grayscale, quality);
    var jpeg := lib.finish(plan);
    if jpeg.None? {
      return Uncaught(PillowFailed);
    }
    resp := Jpeg(200, plan, jpeg.value, "image/jpeg", map["cache-control" := CacheControl()]);
  }
}

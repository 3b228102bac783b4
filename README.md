# s3-image-proxy: a Dafny model of the request handlers

s3-image-proxy serves images kept in an S3 bucket under content-addressed keys
`"{sha256}.{ext}"`. `/i/{key}` fetches the original through a presigned URL, decodes it
(HEIC through pyheif, everything else through Pillow), undoes the EXIF rotations 3, 6
and 8 (the mirrored orientations 2, 4, 5 and 7 are left as they are), optionally
thumbnails it (`?w=`, `?h=`), turns it grayscale (`?bw=`) and re-encodes it as JPEG at a
chosen quality (`?q=`), with a one-year shared-cache header. `/o/{key}`
redirects to the presigned URL of the original. `/` returns a fixed JSON payload.

The model keeps every decision the handlers make and treats the rest as opaque:

- `errors.dfy` (`Errors`): the exceptions that escape a handler, and `Result`/`Option`.
- `decimal.dfy` (`Decimal`): Python's `str.isdigit`, `int(s)` in base 10 (surrounding
  whitespace, a sign, `_` between digits) and `"{}".format(n)` on ASCII text.
- `key_codec.dfy` (`KeyCodec`): `key.split(".")`, the two-name unpacking and
  `"{}.{}".format(sha256, ext)`.
- `orientation.dfy` (`Orientation`): the import-time search for the tag named
  `"Orientation"` (a loop over the ordered tag table); the EXIF lookup, where a missing
  `_getexif`, no EXIF, a missing tag, or a read that raises AttributeError, KeyError or
  IndexError means "no rotation", while any other read error and an unbound tag name
  escape; the table 3 → 180, 6 → 270, 8 → 90 (degrees counter-clockwise, as Pillow's
  `rotate` takes them; every other value, the mirrored ones included, means no
  rotation); and the size after a rotation with `expand=True`.
- `query_rules.dfy` (`QueryRules`): the thumbnail box from `w`/`h`, the `bw` test, the
  quality rule.
- `bytes_repr.dfy` (`BytesRepr`): `repr(content)` of the origin's body, placed in the
  JSON diagnostic, with a reader for the literal.
- `handlers.dfy` (`Handlers`): the three handlers. `ServeImage` is a method that follows
  the source step by step. Its result is either a JSON body, an uncaught exception, or a
  JPEG response. The JPEG response carries a `RenderPlan` (the decoder, rotation,
  thumbnail box, grayscale flag and quality handed to Pillow) and the bytes Pillow
  wrote. Each Pillow step may raise, and then the exception escapes.

Three behaviours of the code are worth stating plainly:

- The key is split on every `.`, not on the last one. Exactly one dot is accepted, and
  either side may be empty.
- The derived dimension is truncated, not rounded, and it can be 0.
- `bw` is a truthiness test, so `bw=` (empty) does not convert and `bw=0` does.

## Model

| member | source | states |
|---|---|---|
| `Decimal.PyInt` | index.py:80-97 | `int()` in base 10 (as at lines 80-87 and 97); a string that passes `isdigit()` is read as the value of its digits, leading zeros included |
| `Decimal.LeadingZeroIgnored` | index.py:97 | a leading `0` does not change the value of a digit string (`"040"` is 40) |
| `Decimal.PyIntOfDecimal` | index.py:80-87 | `int()` reads back the decimal text of any natural number |
| `Decimal.PyIntOfNegatedDecimal` | index.py:80-87 | `int()` reads `-` followed by decimal text as the negated value |
| `Decimal.NoDigitNoInt` | index.py:80-87 | `int()` raises ValueError on text with no digit (`""`, `"abc"`, `"-"`) |
| `Decimal.DecimalString` | index.py:106 | `"{}".format(n)` is a non-empty digit string without a leading zero unless `n` is 0 |
| `Decimal.DecimalStringRoundTrip` | index.py:106 | the digits written for `n` denote `n` |
| `KeyCodec.Split` | index.py:39 | `str.split(".")` always yields at least one part |
| `KeyCodec.SplitCount` | index.py:39 | `split(".")` yields one part more than the number of dots |
| `KeyCodec.SplitPartsHaveNoDot` | index.py:39 | no part of `split(".")` contains a dot |
| `KeyCodec.JoinSplit` | index.py:39 | joining the parts of `split(".")` with `.` gives the string back |
| `KeyCodec.ObjectName` | index.py:27 | the object name is the hash, a `.`, then the extension: it starts with the hash, holds the dot right after it and ends with the extension |
| `KeyCodec.ParseKey` | index.py:39 | for a key that unpacks, the rebuilt object name equals the key and neither half holds a dot; a key that does not unpack does not hold exactly one dot (the same unpacking as `original`, line 112) |
| `KeyCodec.ParseKeyOutcome` | index.py:39 | the key unpacks if and only if it has exactly one dot; with none it is the "not enough values (got 1)" error, with more the "too many values" error |
| `KeyCodec.ObjectNameParses` | index.py:39 | a name built from two dot-free halves, empty ones included, unpacks into exactly those halves |
| `Orientation.FindTag` | index.py:12-14 | the loop variable ends on the first key named "Orientation", else on the last key; it stays unbound only for an empty table |
| `Orientation.StopIsUnique` | index.py:12-14 | the place where the search loop stops is determined by the table |
| `Orientation.StopFindsName` | index.py:12-14 | if any key is named "Orientation", the loop stops on a key with that name |
| `Orientation.OrientationTagFound` | index.py:12-14 | in a table where only 0x0112 is named "Orientation", the search finds 0x0112 |
| `Orientation.RotationFor` | index.py:64-69 | value 3 gives 180, 6 gives 270 and 8 gives 90, each an if-and-only-if; every other value gives no rotation |
| `Orientation.OrientationRotation` | index.py:62-71 | apart from `rotate`, whose failure `Handlers.ServeImage` models, the EXIF lookup in the `try` block (lines 63-68) fails exactly on an uncaught parse error (ExifFailed) or on entries with an unbound tag name (NameError); a rotation comes only from the entry under the found tag, through the rotation table |
| `Orientation.RotationPolicy` | index.py:62-71 | a missing `_getexif`, no EXIF, a caught parse error or a missing tag means no rotation and no error; a rotation happens exactly for entries 3, 6, 8; only an unbound tag name or an uncaught parse error escapes |
| `Orientation.RotatedSize` | index.py:65-69 | a quarter turn swaps width and height, a half turn keeps them; the area is unchanged |
| `QueryRules.Get` | index.py:75-76 | a parameter is present exactly when it is in the query, with its value |
| `QueryRules.TruncDivBounds` | index.py:81 | `int(a / b)` truncates toward zero: floor for non-negative `a`, ceiling for negative `a` |
| `QueryRules.ResizeBox` | index.py:74-87 | no box exactly when neither `w` nor `h` is given; a given side is `int()` of its parameter; a derived side is the proportion truncated toward zero (rounded down from a non-negative given side, up from a negative one); the only errors are an unreadable parameter and a ZeroDivisionError, which needs `w` alone on a zero-width image or `h` alone on a zero-height one |
| `QueryRules.ResizeOnlyWhenAsked` | index.py:77 | there is a thumbnail step exactly when `w` or `h` is present; with neither, nothing can fail |
| `QueryRules.WidthOnlyBox` | index.py:78-81 | with only a non-negative `w`, the box is `w` wide and `floor(height * w / width)` high |
| `QueryRules.HeightOnlyBox` | index.py:82-85 | with only a non-negative `h`, the box is `h` high and `floor(width * h / height)` wide |
| `QueryRules.BothGivenBox` | index.py:86-88 | with both, the box is `(int(w), int(h))` as given |
| `QueryRules.ResizeFaults` | index.py:78-87 | an unreadable `w` escapes first, then an unreadable `h`; a zero side to divide by gives ZeroDivisionError, and only when one value is derived |
| `QueryRules.DerivedSideTruncates` | index.py:81 | a 3x2 image with `w=4` gets a box 2 high, not the rounded 3 |
| `QueryRules.DerivedSideCanBeZero` | index.py:78-88 | a 1000x100 image with `w=1` gets the box (1, 0), which is passed to `thumbnail` as it is |
| `QueryRules.NegativeSideTruncatesUp` | index.py:78-81 | a 3x2 image with `w=-4` gets the box (-4, -2): `int()` of a negative quotient rounds toward zero |
| `QueryRules.WantsGrayscale` | index.py:91 | grayscale exactly when `bw` is present and non-empty (`bw=0` converts, `bw=` does not) |
| `QueryRules.ChooseQuality` | index.py:95-98 | the quality always lies in 1..100 |
| `QueryRules.QualityAccepted` | index.py:97-98 | a digit string with value 1..100 is taken as the quality |
| `QueryRules.QualityDefaulted` | index.py:95-97 | a missing `q`, or one that is not a digit string or is out of 1..100, gives 75 |
| `QueryRules.QualityIsDigitsOrDefault` | index.py:95-98 | the quality is 75 or the value of the digits of `q` |
| `QueryRules.QualityLeadingZero` | index.py:97-98 | `q=040` gives 40 |
| `QueryRules.QualityZeroRejected` | index.py:97 | `q=0` gives 75 |
| `QueryRules.QualityAboveHundredRejected` | index.py:97 | `q=101` gives 75 |
| `QueryRules.QualityNotDigits` | index.py:95-97 | a missing `q`, `q=`, `q=abc` and `q=-5` give 75 |
| `BytesRepr.QuoteFor` | index.py:50 | the literal uses double quotes if and only if the data holds a single quote and no double quote |
| `BytesRepr.UnescapeEscapeAll` | index.py:50 | reading the escaped body back gives the original bytes |
| `BytesRepr.Repr` | index.py:50 | the origin's body can be read back exactly from the `repr` in the diagnostic |
| `BytesRepr.ReprPrintable` | index.py:50 | the `repr` is printable ASCII whatever the bytes |
| `BytesRepr.PlainTextVerbatim` | index.py:50 | printable text with no quote or backslash appears verbatim as `b'...'` |
| `Handlers.UrlForImage` | index.py:26-30 | the URL is for the object `"{sha256}.{ext}"` in the configured bucket, valid for 600 seconds |
| `Handlers.CacheControl` | index.py:106 | the header value is exactly `s-maxage=31536000, public` |
| `Handlers.Homepage` | index.py:33-34 | always status 200 with the JSON payload whose `"error"` is "Nothing to see here" |
| `Handlers.Original` | index.py:110-113 | a key that unpacks gives a 302 redirect to a URL for the object named exactly by the key; other keys escape with the unpacking error; nothing is fetched |
| `Handlers.Decode` | index.py:55-59 | the HEIF reader is used if and only if the extension is exactly `"heic"`; a HEIF-built image has no `_getexif` |
| `Handlers.HeicNeverRotated` | index.py:55-71 | a HEIC original is never rotated, whatever its metadata |
| `Handlers.OrientedSize` | index.py:65-74 | the size read for the resize is the size after orientation: unchanged with no rotation or a half turn, width and height swapped after a quarter turn, and the same area |
| `Handlers.ServeImage` | index.py:37-107 | the unpacking error escapes; a non-200 origin status gives the JSON diagnostic and nothing else; a JPEG response has the cache header, the fetched bytes, the decoder chosen by the extension, the EXIF rotation, the box from `w`/`h` against the oriented size, and the `bw` and `q` rules, and the bytes Pillow wrote; each later error, Pillow's `rotate`, `thumbnail`, `convert` and `save` included, escapes from the step that raised it |

## Left out

- The S3 client, its credentials and the environment variables (index.py:17-23) are not
  modelled. The presigned URL is a value made of the bucket, the object name and the
  600-second lifetime. Different objects therefore get different URLs. The signature
  itself is not modelled.
- The HTTP fetch (index.py:43-44) is network I/O, done asynchronously and without
  certificate checks. The model takes the origin's answer as a function of the URL, so
  the fetch always answers. In the source, `client.get` can raise an `httpx` transport
  error (a refused connection, or a timeout after httpx's default 5 seconds); the handler
  does not catch it, so it escapes. The model has no response for that case.
- Decoding (`pyheif.read_heif`, `Image.frombytes`, `Image.open`) is a library call. It is a
  parameter that either yields a frame or raises. A failure of `Image.frombytes` counts as
  a failure of the HEIF reader.
- Pixel work (`rotate`, `thumbnail`, `convert("L")`, the JPEG `save` into a `BytesIO`) is
  not interpreted. The model records it in the `RenderPlan`. The thumbnail's fit inside
  its box and the content of the JPEG bytes are not modelled. The in-place update of
  `image.thumbnail` has no counterpart, because nothing reads the image's size after it.
- Handlers.ServeImage: whether a Pillow step raises is a library parameter, not derived
  from the image. A box with a zero or negative side at `thumbnail`, or a mode that JPEG
  cannot store (`P`, `RGBA`) at `save` without `bw`, raises in Pillow; the model admits
  these failures but does not say which inputs cause them. An AttributeError, KeyError or
  IndexError raised by `rotate` itself would be swallowed by the `except` clause; the
  model treats every `rotate` failure as escaping.
- Only the size effect of a rotation is modelled. `rotate` by a multiple of 90 degrees with
  `expand=True` transposes the image, so a quarter turn swaps width and height.
- QueryRules.ResizeBox: the derived side is computed as the exact truncated quotient.
  The source computes it in floating point, where `(float(height) / width) * w` can land
  just below an integer (`0.57 * 100` gives `56.99…`, so 56 rather than 57), and huge
  values overflow.
- Decimal.PyInt: only ASCII digits and ASCII whitespace are modelled. `str.isdigit` and
  `int` also accept other Unicode digits and spaces. The limit on the length of a decimal
  string is not modelled either: since Python 3.11 (and the 2022 security releases of
  3.7 to 3.10) `int()` raises ValueError on more than 4300 digits, so a `q`, `w` or `h`
  that long escapes as an error, whereas the model reads its value (`QueryRules.ChooseQuality`
  never fails). Characters that `isdigit` accepts but `int` refuses are a further gap:
  `q=²` passes `q.isdigit()`, then `int(q)` raises ValueError at index.py:97 and the
  error escapes, whereas the model, which sees only ASCII digits, gives the quality 75.
- QueryRules.Get: a query is a map from name to one value. When a name is repeated,
  Starlette's `query_params.get` returns the last value (`?q=10&q=90` gives `"90"`); the
  model's map holds that last value, and the earlier ones are not modelled.
- Orientation.RotationFor: only Python ints are compared with 3, 6 and 8. A float or
  rational entry equal to 3, 6 or 8 would also compare equal in Python; the model
  treats such an entry as no rotation.
- Orientation.FindTag: it runs over a given table, not over Pillow's actual
  `ExifTags.TAGS`. `OrientationTagFound` states the result for a table like Pillow's.
- The Starlette application, its routes and `debug=True` (index.py:1-3, 116-123) are not
  modelled. An exception that escapes a handler is the model's `Uncaught` response. The
  server-error page that the framework renders for it is not modelled.

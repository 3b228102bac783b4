/** Orientation correction: which EXIF tag id is named "Orientation" (found once, at
    import time, by a linear search over Pillow's tag-name table), how the tag's value
    is read from an image, and which rotation each value selects. In Pillow's table the
    tag is 0x0112, the Orientation field of TIFF 6.0 section 8 that Exif reuses. */
module Orientation {
  import opened Errors

  const OrientationName := "Orientation"
  const OrientationTagId := 0x0112

  /** A Python dict from tag id to tag name: its keys in iteration (insertion) order,
      and the mapping itself. */
  datatype TagTable = TagTable(order: seq<int>, names: map<int, string>)

  ghost predicate WellFormed(t: TagTable) {
    && (forall i, j :: 0 <= i < j < |t.order| ==> t.order[i] != t.order[j])
    && (forall i :: 0 <= i < |t.order| ==> t.order[i] in t.names)
    && (forall k :: k in t.names ==> k in t.order)
  }

  /** The `for` loop leaves its variable at position `i`: the first key whose name is
      `target`, or, when no name matches, the last key visited. */
  ghost predicate StopsAt(t: TagTable, target: string, i: int)
    requires WellFormed(t)
  {
    && 0 <= i < |t.order|
    && (forall j :: 0 <= j < i ==> t.names[t.order[j]] != target)
    && (t.names[t.order[i]] == target || i == |t.order| - 1)
  }

  /** `for ORIENTATION_TAG in TAGS.keys(): if TAGS[ORIENTATION_TAG] == target: break`.
      `None` is the loop variable never bound (an empty table). */
  method FindTag(t: TagTable, target: string) returns (tag: Option<int>)
    requires WellFormed(t)
    ensures tag.None? <==> |t.order| == 0
    ensures tag.Some? ==> exists i :: StopsAt(t, target, i) && t.order[i] == tag.value
  {
    tag := None;
    var i := 0;
    while i < |t.order|
      invariant 0 <= i <= |t.order|
      invariant forall j :: 0 <= j < i ==> t.names[t.order[j]] != target
      invariant tag == if i == 0 then None else Some(t.order[i - 1])
    {
      tag := Some(t.order[i]);
      if t.names[t.order[i]] == target {
        assert StopsAt(t, target, i);
        break;
      }
      i := i + 1;
    }
    if i == |t.order| && i > 0 {
      assert StopsAt(t, target, i - 1);
    }
  }

  /** The loop stops at one place only. */
  lemma StopIsUnique(t: TagTable, target: string, i: int, j: int)
    requires WellFormed(t) && StopsAt(t, target, i) && StopsAt(t, target, j)
    ensures i == j
  {
  }

  /** When some key carries the name, the loop stops at a key that carries it. */
  lemma StopFindsName(t: TagTable, target: string, i: int, k: int)
    requires WellFormed(t) && StopsAt(t, target, i)
    requires k in t.names && t.names[k] == target
    ensures t.names[t.order[i]] == target
  {
    var p :| 0 <= p < |t.order| && t.order[p] == k;
    assert t.names[t.order[p]] == target;
  }

  /** In a table where 0x0112 is the only id named "Orientation", that is the tag found. */
  lemma OrientationTagFound(t: TagTable, i: int)
    requires WellFormed(t) && StopsAt(t, OrientationName, i)
    requires OrientationTagId in t.names && t.names[OrientationTagId] == OrientationName
    requires forall k :: k in t.names && t.names[k] == OrientationName ==> k == OrientationTagId
    ensures t.order[i] == OrientationTagId
  {
    StopFindsName(t, OrientationName, i, OrientationTagId);
  }

  // ---- reading the tag from an image ----

  /** An EXIF entry's value: an integer, or anything else (a string, a tuple, a rational). */
  datatype ExifValue = Integer(n: int) | NonInteger

  /** What `dict(image._getexif().items())` meets. */
  datatype ExifAccess =
    /** the image class has no `_getexif` (AttributeError) */
    | NoGetExif
    /** `_getexif()` returns None, which has no `items` (AttributeError) */
    | NoExif
    /** `_getexif()` raises while parsing; `caught` when it is an AttributeError, KeyError or IndexError */
    | ExifRaises(caught: bool)
    /** the EXIF block as a dict from tag id to value */
    | ExifEntries(entries: map<int, ExifValue>)

  /** The rotation table: the angle passed to `image.rotate(angle, expand=True)`, if any. */
  function RotationFor(v: ExifValue): (angle: Option<int>)
    ensures angle == Some(180) <==> v == Integer(3)
    ensures angle == Some(270) <==> v == Integer(6)
    ensures angle == Some(90) <==> v == Integer(8)
    ensures angle.Some? ==> angle.value in {90, 180, 270}
  {
    if v == Integer(3) then Some(180)
    else if v == Integer(6) then Some(270)
    else if v == Integer(8) then Some(90)
    else None
  }

  /** The `try` block: the rotation to apply, `None` for none. AttributeError, KeyError
      and IndexError are swallowed; a NameError (tag never bound) and any other parse
      error escape. A rotation comes only from the entry under the found tag, through
      the rotation table. */
  function OrientationRotation(exif: ExifAccess, tag: Option<int>): (r: Result<Option<int>>)
    ensures r.Failure? <==> exif == ExifRaises(false) || (exif.ExifEntries? && tag.None?)
    ensures r.Failure? ==> r.fault == (if exif.ExifEntries? then UnboundOrientationTag else ExifFailed)
    ensures r.Success? && r.value.Some? ==>
              && exif.ExifEntries? && tag.Some? && tag.value in exif.entries
              && r.value == RotationFor(exif.entries[tag.value])
  {
    match exif
    case NoGetExif => Success(None)
    case NoExif => Success(None)
    case ExifRaises(caught) => if caught then Success(None) else Failure(ExifFailed)
    case ExifEntries(entries) =>
      if tag.None? then Failure(UnboundOrientationTag)
      else if tag.value !in entries then Success(None)
      else Success(RotationFor(entries[tag.value]))
  }

  /** A rotation happens only for an orientation entry of 3, 6 or 8 under the found tag;
      every missing or unreadable piece of metadata means no rotation and no error,
      except a tag name that was never bound. */
  lemma RotationPolicy(exif: ExifAccess, tag: Option<int>)
    ensures (exif.NoGetExif? || exif.NoExif? || exif == ExifRaises(true)) ==>
              OrientationRotation(exif, tag) == Success(None)
    ensures exif.ExifEntries? && tag.Some? && tag.value !in exif.entries ==>
              OrientationRotation(exif, tag) == Success(None)
    ensures OrientationRotation(exif, tag) == Success(Some(180)) <==>
              exif.ExifEntries? && tag.Some? && tag.value in exif.entries && exif.entries[tag.value] == Integer(3)
    ensures OrientationRotation(exif, tag) == Success(Some(270)) <==>
              exif.ExifEntries? && tag.Some? && tag.value in exif.entries && exif.entries[tag.value] == Integer(6)
    ensures OrientationRotation(exif, tag) == Success(Some(90)) <==>
              exif.ExifEntries? && tag.Some? && tag.value in exif.entries && exif.entries[tag.value] == Integer(8)
    ensures OrientationRotation(exif, tag).Failure? <==>
              exif == ExifRaises(false) || (exif.ExifEntries? && tag.None?)
  {
  }

  /** Size after `rotate(angle, expand=True)` for a multiple of 90 degrees: a quarter
      turn swaps width and height, a half turn keeps them. */
  function RotatedSize(width: nat, height: nat, angle: int): (size: (nat, nat))
    requires angle in {90, 180, 270}
    ensures size.0 * size.1 == width * height
    ensures angle == 180 ==> size == (width, height)
    ensures angle != 180 ==> size == (height, width)
  {
    if angle == 180 then (width, height) else (height, width)
  }
}

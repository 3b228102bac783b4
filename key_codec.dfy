/** The object key in the request path, `"{sha256}.{ext}"`: how the handlers take it
    apart (`sha256, ext = key.split(".")`) and how the store's object name is put back
    together (`"{}.{}".format(sha256, ext)`). */
module KeyCodec {
  import opened Errors

  datatype ObjectKey = ObjectKey(sha256: string, ext: string)

  /** Number of `.` characters in `s`. */
  function DotCount(s: string): nat {
    if |s| == 0 then 0 else (if s[0] == '.' then 1 else 0) + DotCount(s[1..])
  }

  /** `s.split(".")`: cut at every dot; there is always at least one part. */
  function Split(s: string): (parts: seq<string>)
    ensures |parts| >= 1
  {
    if |s| == 0 then [""]
    else
      var rest := Split(s[1..]);
      if s[0] == '.' then [""] + rest else [[s[0]] + rest[0]] + rest[1..]
  }

  /** `".".join(parts)` */
  function Join(parts: seq<string>): string
    requires |parts| >= 1
  {
    if |parts| == 1 then parts[0] else parts[0] + "." + Join(parts[1..])
  }

  /** The unpacking `sha256, ext = key.split(".")`. The object addressed is exactly the
      path key: rebuilding the name from the two halves gives the key back, and neither
      half holds a dot. A key that does not unpack has no dot or more than one. */
  function ParseKey(key: string): (r: Result<ObjectKey>)
    ensures r.Success? ==> ObjectName(r.value) == key
    ensures r.Success? ==> '.' !in r.value.sha256 && '.' !in r.value.ext
    ensures r.Failure? ==> DotCount(key) != 1
  {
    SplitCount(key);
    JoinSplit(key);
    SplitPartsHaveNoDot(key);
    var parts := Split(key);
    assert |parts| == 2 ==> parts[1..] == [parts[1]];
    if |parts| < 2 then Failure(NotEnoughValuesToUnpack(|parts|))
    else if |parts| > 2 then Failure(TooManyValuesToUnpack(|parts|))
    else Success(ObjectKey(parts[0], parts[1]))
  }

  /** `"{}.{}".format(sha256, ext)`, the name of the object in the bucket. */
  function ObjectName(k: ObjectKey): (name: string)
    ensures |name| == |k.sha256| + 1 + |k.ext|
    ensures name[|k.sha256|] == '.'
    ensures name[..|k.sha256|] == k.sha256 && name[|k.sha256| + 1..] == k.ext
  {
    k.sha256 + "." + k.ext
  }

  // ---- str.split ----

  lemma {:induction false} SplitCount(s: string)
    ensures |Split(s)| == DotCount(s) + 1
  {
    if |s| > 0 { SplitCount(s[1..]); }
  }

  lemma {:induction false} SplitPartsHaveNoDot(s: string)
    ensures forall i :: 0 <= i < |Split(s)| ==> '.' !in Split(s)[i]
  {
    if |s| > 0 {
      SplitPartsHaveNoDot(s[1..]);
    }
  }

  /** Joining the parts with `.` gives the string back. */
  lemma {:induction false} JoinSplit(s: string)
    ensures Join(Split(s)) == s
  {
    if |s| > 0 {
      var rest := Split(s[1..]);
      JoinSplit(s[1..]);
      if s[0] == '.' {
        assert ([""] + rest)[1..] == rest;
      } else {
        var parts := [[s[0]] + rest[0]] + rest[1..];
        if |rest| > 1 {
          assert parts[1..] == rest[1..];
        }
        assert s == [s[0]] + s[1..];
      }
    }
  }

  lemma {:induction false} SplitWithoutDot(s: string)
    requires '.' !in s
    ensures Split(s) == [s]
  {
    if |s| > 0 {
      SplitWithoutDot(s[1..]);
      assert s == [s[0]] + s[1..];
    }
  }

  lemma {:induction false} SplitAroundOneDot(a: string, b: string)
    requires '.' !in a && '.' !in b
    ensures Split(a + "." + b) == [a, b]
  {
    var s := a + "." + b;
    if |a| == 0 {
      assert s[1..] == b;
      SplitWithoutDot(b);
    } else {
      assert s[1..] == a[1..] + "." + b;
      assert '.' !in a[1..] by { assert forall c :: c in a[1..] ==> c in a; }
      SplitAroundOneDot(a[1..], b);
      assert a == [a[0]] + a[1..];
    }
  }

  // ---- the key as the handlers read it ----

  /** The key unpacks exactly when it holds one dot; with none Python reports one value,
      with more it reports one value per part. */
  lemma ParseKeyOutcome(key: string)
    ensures ParseKey(key).Success? <==> DotCount(key) == 1
    ensures DotCount(key) == 0 ==> ParseKey(key) == Failure(NotEnoughValuesToUnpack(1))
    ensures DotCount(key) >= 2 ==> ParseKey(key) == Failure(TooManyValuesToUnpack(DotCount(key) + 1))
  {
    SplitCount(key);
  }

  /** The converse of the round trip in `ParseKey`: a name built from two dot-free halves unpacks into them,
      empty halves included (`"."` unpacks into two empty strings). */
  lemma ObjectNameParses(k: ObjectKey)
    requires '.' !in k.sha256 && '.' !in k.ext
    ensures ParseKey(ObjectName(k)) == Success(k)
  {
    SplitAroundOneDot(k.sha256, k.ext);
  }
}

/** The two pure steps of the upload handler (api.php:231-236): the file
    extension gate and the name the upload is stored under. PHP works on the
    raw bytes of the client's file name here. */
module Upload {
  import opened Wrappers

  newtype byte = b: int | 0 <= b < 256

  type Bytes = seq<byte>

  const Slash: byte := 47
  const Dot: byte := 46
  const Underscore: byte := 95

  /** The bytes of an ASCII or Latin-1 string. */
  function Ascii(s: string): (r: Bytes)
    requires forall k :: 0 <= k < |s| ==> s[k] as int < 256
    ensures |r| == |s|
    ensures forall k :: 0 <= k < |s| ==> r[k] as int == s[k] as int
  {
    seq(|s|, k requires 0 <= k < |s| => s[k] as int as byte)
  }

  /** The byte class `[A-Za-z0-9_.-]`. */
  predicate IsSafeByte(b: byte) {
    || 65 <= b <= 90
    || 97 <= b <= 122
    || 48 <= b <= 57
    || b == Underscore || b == Dot || b == 45
  }

  /** `preg_replace('/[^A-Za-z0-9_.-]/', '_', $name)`: every byte outside
      the safe class becomes "_"; safe bytes stay. */
  function SanitizeFileName(name: Bytes): (r: Bytes)
    ensures |r| == |name|
    ensures forall k :: 0 <= k < |r| ==> IsSafeByte(r[k])
    ensures forall k :: 0 <= k < |name| && IsSafeByte(name[k]) ==> r[k] == name[k]
    ensures forall k :: 0 <= k < |name| && !IsSafeByte(name[k]) ==> r[k] == Underscore
  {
    seq(|name|, k requires 0 <= k < |name| => if IsSafeByte(name[k]) then name[k] else Underscore)
  }

  /** Sanitising a sanitised name changes nothing. */
  lemma SanitizeFileNameIdempotent(name: Bytes)
    ensures SanitizeFileName(SanitizeFileName(name)) == SanitizeFileName(name)
  {
  }

  /** The stored name `<timestamp>_<sanitised name>`: whatever the client
      sent, nothing after the timestamp can hold a "/", so the file stays in
      the uploads directory. */
  function StoredFileName(timestamp: Bytes, name: Bytes): (r: Bytes)
    ensures |r| == |timestamp| + 1 + |name|
    ensures r[..|timestamp|] == timestamp && r[|timestamp|] == Underscore
    ensures r[|timestamp| + 1..] == SanitizeFileName(name)
    ensures forall k :: |timestamp| < k < |r| ==> r[k] != Slash
  {
    timestamp + [Underscore] + SanitizeFileName(name)
  }

  /** The index of the last `b` in `s`. */
  function LastIndexOf(s: Bytes, b: byte): (r: Option<nat>)
    ensures r.Some? ==> r.value < |s| && s[r.value] == b
    ensures r.Some? ==> forall k :: r.value < k < |s| ==> s[k] != b
    ensures r.None? ==> b !in s
    decreases |s|
  {
    if s == [] then None
    else if s[|s| - 1] == b then Some(|s| - 1)
    else LastIndexOf(s[..|s| - 1], b)
  }

  /** PHP `basename`: trailing slashes dropped, then the last component. */
  function BaseName(path: Bytes): (r: Bytes)
    ensures Slash !in r
    ensures Slash !in path ==> r == path
  {
    var trimmed := path[..|path| - TrailingSlashes(path, |path|)];
    match LastIndexOf(trimmed, Slash)
    case Some(k) => trimmed[k + 1..]
    case None => trimmed
  }

  /** The number of slashes ending `path[..j]`. */
  function TrailingSlashes(path: Bytes, j: nat): (n: nat)
    requires j <= |path|
    ensures n <= j
    decreases j
  {
    if j > 0 && path[j - 1] == Slash then 1 + TrailingSlashes(path, j - 1) else 0
  }

  /** `pathinfo($name, PATHINFO_EXTENSION)`: what follows the last "." of
      the base name, or nothing when it has no ".". */
  function Extension(name: Bytes): (ext: Bytes)
    ensures Dot !in ext && Slash !in ext
    ensures ext != [] ==> exists k :: 0 <= k < |BaseName(name)| && BaseName(name)[k] == Dot && BaseName(name)[k + 1..] == ext
  {
    var base := BaseName(name);
    match LastIndexOf(base, Dot)
    case Some(k) => base[k + 1..]
    case None => []
  }

  /** PHP `strtolower` on bytes: only A-Z change. */
  function LowerBytes(s: Bytes): (r: Bytes)
    ensures |r| == |s|
    ensures forall k :: 0 <= k < |s| && 65 <= s[k] <= 90 ==> r[k] == s[k] + 32
    ensures forall k :: 0 <= k < |s| && !(65 <= s[k] <= 90) ==> r[k] == s[k]
  {
    seq(|s|, k requires 0 <= k < |s| => if 65 <= s[k] <= 90 then s[k] + 32 else s[k])
  }

  /** The upload gate: the lower-cased extension is "xls" or "xlsx". */
  function IsAcceptedUpload(name: Bytes): (accepted: bool)
    ensures accepted ==> |Extension(name)| == 3 || |Extension(name)| == 4
    ensures accepted ==> Dot in BaseName(name)
  {
    var ext := LowerBytes(Extension(name));
    ext == Ascii("xls") || ext == Ascii("xlsx")
  }

  /** The last `x` of `a + b` is the last `x` of `a` when `b` has none. */
  lemma {:induction false} LastIndexOfPastSuffix(a: Bytes, b: Bytes, x: byte)
    requires x !in b
    ensures LastIndexOf(a + b, x) == LastIndexOf(a, x)
    decreases |b|
  {
    if b == [] {
      assert a + b == a;
    } else {
      assert (a + b)[..|a + b| - 1] == a + b[..|b| - 1];
      LastIndexOfPastSuffix(a, b[..|b| - 1], x);
    }
  }

  /** A name "<stem>.<e>" whose `e` holds no "." and no "/" has extension `e`. */
  lemma ExtensionOfDottedName(stem: Bytes, e: Bytes)
    requires e != [] && Dot !in e && Slash !in e
    ensures Extension(stem + [Dot] + e) == e
  {
    var name := stem + [Dot] + e;
    assert name[|name| - 1] == e[|e| - 1];
    assert TrailingSlashes(name, |name|) == 0;
    assert name[..|name|] == name;
    assert name == stem + ([Dot] + e);
    LastIndexOfPastSuffix(stem, [Dot] + e, Slash);
    var base := BaseName(name);
    match LastIndexOf(stem, Slash)
    case Some(k) =>
      assert base == stem[k + 1..] + [Dot] + e;
      LastIndexOfPastSuffix(stem[k + 1..] + [Dot], e, Dot);
      assert LastIndexOf(stem[k + 1..] + [Dot], Dot) == Some(|stem[k + 1..]|);
    case None =>
      assert base == stem + [Dot] + e;
      LastIndexOfPastSuffix(stem + [Dot], e, Dot);
      assert LastIndexOf(stem + [Dot], Dot) == Some(|stem|);
  }

  /** A name "<stem>.<e>" is accepted exactly when `e` lower-cases to "xls"
      or "xlsx". */
  lemma AcceptedExactlyForSpreadsheetExtensions(stem: Bytes, e: Bytes)
    requires e != [] && Dot !in e && Slash !in e
    ensures IsAcceptedUpload(stem + [Dot] + e) <==> LowerBytes(e) == Ascii("xls") || LowerBytes(e) == Ascii("xlsx")
  {
    ExtensionOfDottedName(stem, e);
  }

  /** The gate ignores case: "<stem>.XLSX" is accepted. */
  lemma UpperCaseExtensionAccepted(stem: Bytes)
    ensures IsAcceptedUpload(stem + [Dot] + Ascii("XLSX"))
  {
    var e := Ascii("XLSX");
    assert e == [88, 76, 83, 88];
    assert LowerBytes(e) == Ascii("xlsx");
    AcceptedExactlyForSpreadsheetExtensions(stem, e);
  }

  /** A name without any "." has no extension and is refused. */
  lemma UndottedNameRefused(name: Bytes)
    requires Dot !in name
    ensures Extension(name) == [] && !IsAcceptedUpload(name)
  {
    var base := BaseName(name);
    var trimmed := name[..|name| - TrailingSlashes(name, |name|)];
    assert forall k :: 0 <= k < |base| ==> base[k] in trimmed;
    assert Dot !in base;
    assert |Ascii("xls")| == 3;
  }
}

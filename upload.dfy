/** The upload middleware's configuration: where an uploaded file is stored,
    under which generated name, how large it may be, and which files it
    accepts. The file's extension (Node's `path.extname` of its original
    name), the clock reading and the project's root directory are inputs. */
module Upload {

  /** What the middleware knows about an incoming file. `extension` stands for
      `path.extname(originalName)`: empty, or a dot followed by the rest. The
      model does not compute it, so nothing here ties the two fields
      together; `originalName` is kept only to name the file. */
  datatype FileInfo = FileInfo(originalName: string, mimetype: string, extension: string)

  /** The verdict handed to the middleware's callback. */
  datatype Verdict = Accepted | Rejected(message: string)

  const GltfBinaryMime: string := "model/gltf-binary"
  const UsdzMime: string := "model/vnd.usdz+zip"
  const GlbExtension: string := ".glb"
  const UsdzExtension: string := ".usdz"
  const InvalidTypeMessage: string := "Invalid file type, only .glb and .usdz files are allowed!"
  const UploadsFolder: string := "uploads"

  /** The per-file size limit in bytes: 100 MiB (its comment says 30 MB). */
  function MaxFileSize(): (n: nat)
    ensures n == 104857600
    ensures n > 30 * 1024 * 1024
  {
    100 * 1024 * 1024
  }

  // ---------------------------------------------------------------------
  // Lower-casing (ASCII letters only)
  // ---------------------------------------------------------------------

  function LowerChar(c: char): char
  {
    if 'A' <= c <= 'Z' then (c as int - 'A' as int + 'a' as int) as char else c
  }

  /** `String.prototype.toLowerCase`, restricted to ASCII letters. */
  function ToLower(s: string): (r: string)
    ensures |r| == |s|
    ensures forall i :: 0 <= i < |s| ==> r[i] == LowerChar(s[i])
  {
    if s == [] then [] else [LowerChar(s[0])] + ToLower(s[1..])
  }

  /** `s` spells the lower-case word `lower` when case is ignored. */
  predicate EqualsIgnoringCase(s: string, lower: string)
  {
    |s| == |lower| && forall i :: 0 <= i < |s| ==> LowerChar(s[i]) == lower[i]
  }

  lemma ToLowerEqualsIff(s: string, lower: string)
    ensures ToLower(s) == lower <==> EqualsIgnoringCase(s, lower)
  {
    if EqualsIgnoringCase(s, lower) {
      assert forall i :: 0 <= i < |s| ==> ToLower(s)[i] == lower[i];
    }
  }

  // ---------------------------------------------------------------------
  // fileFilter
  // ---------------------------------------------------------------------

  /** A file is accepted when its MIME type is one of the two 3D-model types,
      or when its extension, lower-cased, is `.glb` or `.usdz`; either test
      alone suffices. Everything else is rejected with one fixed message. */
  function FileFilter(file: FileInfo): (v: Verdict)
    ensures v.Accepted? <==>
      || file.mimetype == GltfBinaryMime
      || file.mimetype == UsdzMime
      || EqualsIgnoringCase(file.extension, GlbExtension)
      || EqualsIgnoringCase(file.extension, UsdzExtension)
    ensures v.Rejected? ==> v.message == InvalidTypeMessage
  {
    ToLowerEqualsIff(file.extension, GlbExtension);
    ToLowerEqualsIff(file.extension, UsdzExtension);
    if || file.mimetype == GltfBinaryMime
       || file.mimetype == UsdzMime
       || ToLower(file.extension) == GlbExtension
       || ToLower(file.extension) == UsdzExtension
    then Accepted
    else Rejected(InvalidTypeMessage)
  }

  /** An upper-case `.GLB` extension is accepted whatever the MIME type. */
  lemma UpperCaseGlbAccepted(name: string, mimetype: string)
    ensures FileFilter(FileInfo(name, mimetype, ".GLB")) == Accepted
  {
    assert EqualsIgnoringCase(".GLB", GlbExtension) by {
      assert LowerChar('G') == 'g' && LowerChar('L') == 'l' && LowerChar('B') == 'b';
    }
  }

  /** An ordinary image is rejected: the filter admits 3D models only. */
  lemma PngImageRejected(name: string)
    ensures FileFilter(FileInfo(name, "image/png", ".png")) == Rejected(InvalidTypeMessage)
  {
    assert ".png"[1] == 'p' && LowerChar('p') == 'p';
    assert !EqualsIgnoringCase(".png", GlbExtension);
    assert !EqualsIgnoringCase(".png", UsdzExtension) by {
      assert |".png"| != |UsdzExtension|;
    }
  }

  // ---------------------------------------------------------------------
  // filename: the clock reading in decimal, then the original extension
  // ---------------------------------------------------------------------

  predicate IsDigit(c: char)
  {
    '0' <= c <= '9'
  }

  predicate AllDigits(s: string)
  {
    forall i :: 0 <= i < |s| ==> IsDigit(s[i])
  }

  function DigitChar(d: nat): (c: char)
    requires d < 10
    ensures IsDigit(c)
  {
    ('0' as int + d) as char
  }

  function DigitValue(c: char): (d: nat)
    requires IsDigit(c)
    ensures d < 10
  {
    c as int - '0' as int
  }

  /** JavaScript's decimal rendering of a non-negative integer: at least one
      digit, and no leading zero unless the number is zero. */
  function DecimalString(n: nat): (s: string)
    ensures |s| >= 1 && AllDigits(s)
    ensures |s| > 1 ==> s[0] != '0'
    decreases n
  {
    if n < 10 then [DigitChar(n)] else DecimalString(n / 10) + [DigitChar(n % 10)]
  }

  /** The number a string of decimal digits denotes. */
  function DecimalValue(s: string): nat
    requires AllDigits(s)
    decreases |s|
  {
    if s == [] then 0 else 10 * DecimalValue(s[..|s| - 1]) + DigitValue(s[|s| - 1])
  }

  lemma {:induction false} DecimalRoundTrip(n: nat)
    ensures DecimalValue(DecimalString(n)) == n
  {
    var s := DecimalString(n);
    if n >= 10 {
      DecimalRoundTrip(n / 10);
      assert s[..|s| - 1] == DecimalString(n / 10);
      assert DigitValue(s[|s| - 1]) == n % 10;
    }
  }

  /** The stored name `Date.now() + path.extname(originalname)`: a run of
      decimal digits followed by exactly the original extension. */
  function StoredFilename(file: FileInfo, timestamp: nat): (f: string)
    ensures |f| > |file.extension|
    ensures f[|f| - |file.extension|..] == file.extension
    ensures AllDigits(f[..|f| - |file.extension|])
    ensures DecimalValue(f[..|f| - |file.extension|]) == timestamp
  {
    var digits := DecimalString(timestamp);
    DecimalRoundTrip(timestamp);
    assert (digits + file.extension)[..|digits|] == digits;
    digits + file.extension
  }

  /** The length of the run of digits that starts `s`. */
  function LeadingDigits(s: string): (n: nat)
    ensures n <= |s| && AllDigits(s[..n])
    ensures n < |s| ==> !IsDigit(s[n])
  {
    if s == [] || !IsDigit(s[0]) then 0
    else
      var k := LeadingDigits(s[1..]);
      assert s[..k + 1] == [s[0]] + s[1..][..k];
      k + 1
  }

  /** Reads a stored name back into the clock reading and the extension. */
  function SplitFilename(f: string): (nat, string)
  {
    var k := LeadingDigits(f);
    (DecimalValue(f[..k]), f[k..])
  }

  /** Because an extension is empty or starts with a dot, the stored name
      determines both the clock reading and the extension it was made from. */
  lemma {:induction false} FilenameRoundTrip(file: FileInfo, timestamp: nat)
    requires file.extension == [] || file.extension[0] == '.'
    ensures SplitFilename(StoredFilename(file, timestamp)) == (timestamp, file.extension)
  {
    var digits := DecimalString(timestamp);
    var f := StoredFilename(file, timestamp);
    assert f == digits + file.extension;
    LeadingDigitsOfConcat(digits, file.extension);
    assert f[..|digits|] == digits;
    assert f[|digits|..] == file.extension;
    DecimalRoundTrip(timestamp);
  }

  lemma {:induction false} LeadingDigitsOfConcat(digits: string, rest: string)
    requires AllDigits(digits)
    requires rest == [] || !IsDigit(rest[0])
    ensures LeadingDigits(digits + rest) == |digits|
  {
    if digits != [] {
      assert (digits + rest)[1..] == digits[1..] + rest;
      LeadingDigitsOfConcat(digits[1..], rest);
    } else {
      assert digits + rest == rest;
    }
  }

  // ---------------------------------------------------------------------
  // destination
  // ---------------------------------------------------------------------

  /** The folder every upload is written to: the project root joined with the
      fixed `uploads` segment. The file plays no part in the choice. */
  function Destination(projectRoot: string, file: FileInfo): (d: string)
    ensures |d| == |projectRoot| + 1 + |UploadsFolder|
    ensures d[..|projectRoot|] == projectRoot
    ensures d[|projectRoot|..] == "/" + UploadsFolder
  {
    projectRoot + "/" + UploadsFolder
  }

  lemma DestinationIgnoresFile(projectRoot: string, a: FileInfo, b: FileInfo)
    ensures Destination(projectRoot, a) == Destination(projectRoot, b)
  {
  }
}

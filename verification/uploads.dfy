/**
 * `allowed_file`: an uploaded image is accepted when its name has a dot and the text
 * after the last dot, lower-cased, is one of the allowed extensions.
 */
module Uploads {
  import opened Wrappers

  const ALLOWED_EXTENSIONS: set<string> := {"png", "jpg", "jpeg", "gif", "webp"}

  /** ASCII lower-casing of one character. */
  function LowerChar(ch: char): (r: char)
    ensures 'A' <= ch <= 'Z' ==> 'a' <= r <= 'z' && r as int - ch as int == 32
    ensures !('A' <= ch <= 'Z') ==> r == ch
  {
    if 'A' <= ch <= 'Z' then (ch as int + 32) as char else ch
  }

  /** `str.lower()` restricted to ASCII letters. */
  function Lower(s: string): (r: string)
    ensures |r| == |s|
    ensures forall i :: 0 <= i < |s| ==> r[i] == LowerChar(s[i])
  {
    seq(|s|, i requires 0 <= i < |s| => LowerChar(s[i]))
  }

  /** Position of the last '.' in the name, if any. */
  function LastDot(s: string): (r: Option<nat>)
    ensures r.Some? ==> r.value < |s| && s[r.value] == '.'
    ensures r.Some? ==> forall j :: r.value < j < |s| ==> s[j] != '.'
    ensures r.None? <==> forall j :: 0 <= j < |s| ==> s[j] != '.'
  {
    if |s| == 0 then None
    else if s[|s| - 1] == '.' then Some(|s| - 1)
    else LastDot(s[..|s| - 1])
  }

  /** `filename.rsplit(".", 1)[1]` when the name has a dot. */
  function Extension(s: string): (ext: Option<string>)
    ensures ext.None? <==> '.' !in s
    ensures ext.Some? ==> '.' !in ext.value
    ensures ext.Some? ==> exists stem :: s == stem + "." + ext.value
  {
    match LastDot(s)
    case None => None
    case Some(i) =>
      var e := s[i + 1..];
      assert s == s[..i] + "." + e;
      Some(e)
  }

  /** `allowed_file`: the name has a dot and its lower-cased extension is allowed. */
  function AllowedFile(filename: string): (ok: bool)
    ensures '.' !in filename ==> !ok
    ensures ok ==> exists stem, ext :: filename == stem + "." + ext && '.' !in ext && Lower(ext) in ALLOWED_EXTENSIONS
  {
    match Extension(filename)
    case None => false
    case Some(e) => Lower(e) in ALLOWED_EXTENSIONS
  }

  /** The extension of `stem + "." + ext` is `ext` whenever `ext` holds no dot. */
  lemma ExtensionOfJoin(stem: string, ext: string)
    requires '.' !in ext
    ensures Extension(stem + "." + ext) == Some(ext)
  {
    var s := stem + "." + ext;
    assert s[|stem|] == '.';
    assert forall j :: |stem| < j < |s| ==> s[j] == ext[j - |stem| - 1];
    var i := LastDot(s).value;
    assert i == |stem|;
    assert s[i + 1..] == ext;
  }

  /**
   * `allowed_file` holds exactly when the name is `stem + "." + ext` with no dot in
   * `ext` and `ext` lower-cased in the allowed set; a name without a dot is refused.
   */
  lemma AllowedFileIff(filename: string)
    ensures '.' !in filename ==> !AllowedFile(filename)
    ensures AllowedFile(filename) <==>
      exists stem, ext :: filename == stem + "." + ext && '.' !in ext && Lower(ext) in ALLOWED_EXTENSIONS
  {
    if AllowedFile(filename) {
      var ext := Extension(filename).value;
      var stem :| filename == stem + "." + ext;
    }
    if exists stem, ext :: filename == stem + "." + ext && '.' !in ext && Lower(ext) in ALLOWED_EXTENSIONS {
      var stem, ext :| filename == stem + "." + ext && '.' !in ext && Lower(ext) in ALLOWED_EXTENSIONS;
      ExtensionOfJoin(stem, ext);
    }
  }

  /** Case does not matter: an upper-case allowed extension is accepted. */
  lemma UpperCaseExtensionAllowed()
    ensures AllowedFile("Photo.JPG")
  {
    ExtensionOfJoin("Photo", "JPG");
    assert Lower("JPG") == "jpg";
  }

  /** Only the text after the last dot counts. */
  lemma OnlyLastExtensionCounts()
    ensures !AllowedFile("archive.png.zip")
  {
    ExtensionOfJoin("archive.png", "zip");
    var e := Lower("zip");
    assert e[0] == 'z';
    assert e !in ALLOWED_EXTENSIONS;
  }
}

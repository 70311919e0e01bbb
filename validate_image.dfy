// The upload check of utils/validateimage.go: a size limit, an extension whitelist and a
// Content-Type whitelist, in that order.
module ImageValidation {
  import opened Wrappers
  import opened Strings

  /** 20 << 20 bytes. */
  const MaxFileSize: int := 20 * 1048576

  /** The keys of ValidImageTypes. */
  const ValidImageTypes: set<string> := {"image/jpeg", "image/png", "image/gif"}

  /** The extensions of the switch. */
  const AllowedExtensions: set<string> := {".jpg", ".jpeg", ".png", ".gif"}

  datatype ImageError = FileTooLarge | InvalidFileType

  predicate HasSuffix(s: string, t: string) { |t| <= |s| && s[|s| - |t|..] == t }

  /** The scan of filepath.Ext, from index i - 1 down to the last '/'. */
  function ExtScan(path: string, i: int): (e: string)
    requires 0 <= i <= |path|
    requires forall k :: i <= k < |path| ==> path[k] != '.' && path[k] != '/'
    ensures e != [] ==> HasSuffix(path, e) && e[0] == '.' && '.' !in e[1..] && '/' !in e
    ensures e == [] ==> forall k :: 0 <= k < i && path[k] == '.' ==> '/' in path[k + 1..i]
    decreases i
  {
    if i == 0 then []
    else if path[i - 1] == '/' then []
    else if path[i - 1] == '.' then path[i - 1..]
    else ExtScan(path, i - 1)
  }

  /** filepath.Ext: the suffix from the final '.' of the last path element, or "". */
  function Ext(path: string): (e: string)
    ensures e != [] ==> HasSuffix(path, e) && e[0] == '.' && '.' !in e[1..] && '/' !in e
    ensures e == [] ==> forall k :: 0 <= k < |path| && path[k] == '.' ==> '/' in path[k + 1..]
  {
    ExtScan(path, |path|)
  }

  /** ValidateImage on the header's size, file name and Content-Type. */
  function ValidateImage(size: int, filename: string, contentType: string): (err: Option<ImageError>)
    ensures size > MaxFileSize ==> err == Some(FileTooLarge)
    ensures err == None <==>
      size <= MaxFileSize && Ext(filename) in AllowedExtensions && contentType in ValidImageTypes
    ensures size <= MaxFileSize && err != None ==> err == Some(InvalidFileType)
  {
    if size > MaxFileSize then Some(FileTooLarge)
    else
      var ext := Ext(filename);
      if ext == ".jpg" || ext == ".jpeg" || ext == ".png" || ext == ".gif" then
        if contentType !in ValidImageTypes then Some(InvalidFileType) else None
      else Some(InvalidFileType)
  }

  /** The extension of stem + "." + suffix, when suffix has no dot and no slash, is "." + suffix. */
  lemma {:induction false} ExtOfName(stem: string, suffix: string)
    requires '.' !in suffix && '/' !in suffix
    ensures Ext(stem + "." + suffix) == "." + suffix
  {
    var p := stem + "." + suffix;
    ExtScanSkips(p, |stem| + 1, |p|);
    assert p[|stem|..] == "." + suffix;
  }

  lemma {:induction false} ExtScanSkips(path: string, lo: int, i: int)
    requires 0 < lo <= i <= |path| && path[lo - 1] == '.'
    requires forall k :: lo <= k < |path| ==> path[k] != '.' && path[k] != '/'
    ensures ExtScan(path, i) == path[lo - 1..]
    decreases i
  {
    if i > lo {
      ExtScanSkips(path, lo, i - 1);
    }
  }

  /** A file of exactly 20 << 20 bytes passes the size check; one byte more never does. */
  lemma SizeBoundary(filename: string, contentType: string)
    ensures ValidateImage(MaxFileSize, "photo.png", "image/png") == None
    ensures ValidateImage(MaxFileSize + 1, filename, contentType) == Some(FileTooLarge)
  {
    ExtOfName("photo", "png");
    assert "photo" + "." + "png" == "photo.png";
  }

  /** The extension comparison is case-sensitive. */
  lemma UpperCaseExtensionRefused()
    ensures ValidateImage(100, "photo.PNG", "image/png") == Some(InvalidFileType)
  {
    ExtOfName("photo", "PNG");
    assert "photo" + "." + "PNG" == "photo.PNG";
  }

  /** Only the text after the final dot is the extension. */
  lemma FinalDotOnly()
    ensures ValidateImage(100, "a.png.exe", "image/png") == Some(InvalidFileType)
  {
    ExtOfName("a.png", "exe");
    assert "a.png" + "." + "exe" == "a.png.exe";
  }

  /** A good extension does not excuse a content type outside the list. */
  lemma ContentTypeChecked()
    ensures ValidateImage(100, "photo.gif", "text/html") == Some(InvalidFileType)
  {
    ExtOfName("photo", "gif");
    assert "photo" + "." + "gif" == "photo.gif";
  }
}

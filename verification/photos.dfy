/**
 * The path logic of the legacy photo route `get_photo_legacy` (api/main.py): normalise the
 * separators, insist on the `static/photos/` prefix, cut the directory out and join the
 * name back onto it. The file lookup and response are left to the caller.
 */
module Photos {

  import opened Wrappers
  import opened Text

  /** The request is rejected with status 400. */
  datatype PhotoError = BadRequest

  /** The prefix every accepted path starts with, and the directory photos live in. */
  const PhotoPrefix: string := "static/photos/"

  /** `full_path.replace("\\", "/")`. */
  function Normalise(path: string): (r: string)
    ensures |r| == |path|
    ensures '\\' !in r
    ensures forall i :: 0 <= i < |path| ==> r[i] == if path[i] == '\\' then '/' else path[i]
  {
    ReplaceCharLength(path, '\\', '/');
    ReplaceCharRemoves(path, '\\', '/');
    ReplaceAll(path, "\\", "/")
  }

  /**
   * `os.path.join("static", "photos", name)` on a POSIX system: an absolute `name` replaces
   * the directory, any other is appended after a separator.
   */
  function JoinPhotoDir(name: string): (r: string)
    ensures |name| > 0 && name[0] == '/' ==> r == name
    ensures !(|name| > 0 && name[0] == '/') ==> r == PhotoPrefix + name
  {
    if |name| > 0 && name[0] == '/' then name else PhotoPrefix + name
  }

  /**
   * `get_photo_legacy` as written: after normalising, a path not starting with
   * `static/photos/` is a bad request; otherwise EVERY occurrence of `static/photos/` is
   * removed and the remainder joined onto the photo directory.
   */
  function LegacyPhotoPath(fullPath: string): (r: Result<string, PhotoError>)
    ensures r.Failure? <==> !StartsWith(Normalise(fullPath), PhotoPrefix)
    ensures r.Success? ==> r.value == JoinPhotoDir(ReplaceAll(Normalise(fullPath), PhotoPrefix, ""))
  {
    var normalised := Normalise(fullPath);
    if !StartsWith(normalised, PhotoPrefix) then Failure(BadRequest)
    else Success(JoinPhotoDir(ReplaceAll(normalised, PhotoPrefix, "")))
  }

  /** Removing the prefix from the prefix followed by a name free of it leaves the name. */
  lemma RemovePrefix(name: string)
    requires forall i :: !OccursAt(name, PhotoPrefix, i)
    ensures ReplaceAll(PhotoPrefix + name, PhotoPrefix, "") == name
  {
    var s := PhotoPrefix + name;
    assert s[..|PhotoPrefix|] == PhotoPrefix;
    assert s[|PhotoPrefix|..] == name;
  }

  /** A name without a `/` cannot contain the prefix, which has one. */
  lemma NoPrefixWithoutSlash(name: string)
    requires '/' !in name
    ensures forall i :: !OccursAt(name, PhotoPrefix, i)
  {
    forall i ensures !OccursAt(name, PhotoPrefix, i) {
      if 0 <= i && i + |PhotoPrefix| <= |name| {
        var c := name[i + 6];
        assert c in name;
        assert name[i..i + |PhotoPrefix|][6] == c;
        assert OccursAt(name, PhotoPrefix, i) ==> c == '/';
      }
    }
  }

  /** A path that leaves the photo directory: absolute, or with a `..` segment. */
  predicate Escapes(path: string) {
    || (|path| > 0 && path[0] == '/')
    || StartsWith(path, "../")
    || (exists i :: 0 <= i < |path| && OccursAt(path, "/../", i))
  }

  /** A request with `..` segments is served from outside the photo directory. */
  lemma LegacyFollowsParentSegments()
    ensures LegacyPhotoPath("static/photos/../../.env") == Success("static/photos/../../.env")
    ensures Escapes("static/photos/../../.env")
  {
    var name := "../../.env";
    assert "static/photos/../../.env" == PhotoPrefix + name;
    assert '\\' !in PhotoPrefix + name;
    assert Normalise(PhotoPrefix + name) == PhotoPrefix + name;
    RemovePrefix(name);
    assert OccursAt(PhotoPrefix + name, "/../", 13);
  }

  /** A doubled slash after the prefix turns the rest into an absolute path. */
  lemma LegacyServesAbsolutePath()
    ensures LegacyPhotoPath("static/photos//etc/passwd") == Success("/etc/passwd")
    ensures Escapes("/etc/passwd")
  {
    var name := "/etc/passwd";
    assert "static/photos//etc/passwd" == PhotoPrefix + name;
    assert '\\' !in PhotoPrefix + name;
    assert Normalise(PhotoPrefix + name) == PhotoPrefix + name;
    RemovePrefix(name);
  }

  /** A single file name in the photo directory: non-empty, no separator, not `.` or `..`. */
  predicate PlainFileName(name: string) {
    name != "" && '/' !in name && name != "." && name != ".."
  }

  /**
   * The route as intended: only the leading `static/photos/` is cut off, and what remains
   * must be a plain file name, so the served path always names a file directly inside the
   * photo directory.
   */
  function ConfinedPhotoPath(fullPath: string): (r: Result<string, PhotoError>)
    ensures r.Success? ==>
      && StartsWith(r.value, PhotoPrefix)
      && PlainFileName(r.value[|PhotoPrefix|..])
      && !Escapes(r.value)
    ensures r.Success? <==>
      StartsWith(Normalise(fullPath), PhotoPrefix) && PlainFileName(Normalise(fullPath)[|PhotoPrefix|..])
  {
    var normalised := Normalise(fullPath);
    if !StartsWith(normalised, PhotoPrefix) then Failure(BadRequest)
    else
      var name := normalised[|PhotoPrefix|..];
      if !PlainFileName(name) then Failure(BadRequest)
      else
        var path := PhotoPrefix + name;
        assert path[|PhotoPrefix|..] == name;
        assert !Escapes(path) by {
          forall i | 0 <= i < |path| ensures !OccursAt(path, "/../", i) {
            if i + 4 <= |path| {
              var dot, slash := path[i + 1], path[i + 3];
              assert path[i..i + 4][1] == dot && path[i..i + 4][3] == slash;
              assert OccursAt(path, "/../", i) ==> dot == '.' && slash == '/';
              if i + 1 < |PhotoPrefix| {
                assert dot == PhotoPrefix[i + 1];
              } else {
                assert slash == name[i + 3 - |PhotoPrefix|] && slash in name;
              }
            }
          }
        }
        Success(path)
  }

  /** Wherever the corrected route serves a file, the legacy route serves the same one. */
  lemma ConfinedAgreesWithLegacy(fullPath: string)
    requires ConfinedPhotoPath(fullPath).Success?
    ensures LegacyPhotoPath(fullPath) == ConfinedPhotoPath(fullPath)
  {
    var normalised := Normalise(fullPath);
    var name := normalised[|PhotoPrefix|..];
    assert normalised == PhotoPrefix + name;
    NoPrefixWithoutSlash(name);
    RemovePrefix(name);
  }
}

/**
 * Resolution of a person's photo file. The photo column is stripped of
 * surrounding whitespace, `.jpg` is appended, and the result is looked up
 * in the photo directory; when no such file exists the fixed fallback photo
 * of that directory is used instead.
 *
 * The file-system test is the parameter `isFile`, true of the paths that
 * name an existing regular file.
 */
module Assets {
  import opened Wrappers
  import opened Text

  const PhotosDir := "./photos/"
  const FallbackPhoto := "sb.jpg"
  const PhotoExtension := ".jpg"

  /** `os.path.join(dir, name)` for two components on a POSIX system: an
      absolute `name` replaces `dir`; otherwise a separator is added unless
      `dir` is empty or already ends in one. */
  function PathJoin(dir: string, name: string): (p: string)
    ensures |name| <= |p| && p[|p| - |name|..] == name
    ensures name != [] && name[0] == '/' ==> p == name
    ensures (name == [] || name[0] != '/') ==> |dir| <= |p| && p[..|dir|] == dir
    ensures (name == [] || name[0] != '/') && (dir == [] || dir[|dir| - 1] == '/') ==> p == dir + name
  {
    if name != [] && name[0] == '/' then name
    else if dir == [] || dir[|dir| - 1] == '/' then dir + name
    else dir + "/" + name
  }

  /** The photo identifier of a roster row: the photo column, or the empty
      string when the row has none, without surrounding whitespace. */
  function PhotoId(photo: Option<string>): (id: string)
    ensures id == [] || (!IsSpace(id[0]) && !IsSpace(id[|id| - 1]))
    ensures photo.None? ==> id == []
    ensures photo.Some? ==> var v := photo.value;
              LeadingSpaces(v) + |id| <= |v|
              && id == v[LeadingSpaces(v)..LeadingSpaces(v) + |id|]
              && AllSpace(v[LeadingSpaces(v) + |id|..])
  {
    match photo
    case None => ""
    case Some(v) => Strip(v)
  }

  /** The file looked up first for identifier `id`: `id` with `.jpg`
      appended, inside `dir` unless `id` is an absolute path. */
  function PhotoCandidate(dir: string, id: string): (p: string)
    ensures |p| >= |PhotoExtension| && p[|p| - |PhotoExtension|..] == PhotoExtension
    ensures (id == [] || id[0] != '/') && dir != [] && dir[|dir| - 1] == '/'
            ==> p == dir + id + PhotoExtension
  {
    var name := id + PhotoExtension;
    var p := PathJoin(dir, name);
    assert p[|p| - |PhotoExtension|..] == name[|name| - |PhotoExtension|..];
    assert id != [] ==> name[0] == id[0];
    p
  }

  /** The photo path a card is drawn with: the candidate for the row's photo
      identifier when that file exists, the fallback photo otherwise. */
  function ResolvePhoto(dir: string, fallback: string, photo: Option<string>,
                        isFile: string -> bool): (path: string)
    ensures var candidate := PhotoCandidate(dir, PhotoId(photo));
            (path == candidate <==> isFile(candidate) || candidate == PathJoin(dir, fallback))
            && (path == candidate || path == PathJoin(dir, fallback))
    ensures isFile(path) || path == PathJoin(dir, fallback)
  {
    var candidate := PhotoCandidate(dir, PhotoId(photo));
    if isFile(candidate) then candidate else PathJoin(dir, fallback)
  }

  /** A missing or blank photo column gives the empty identifier. */
  lemma BlankPhotoId(photo: Option<string>)
    requires photo.None? || AllSpace(photo.value)
    ensures PhotoId(photo) == []
  {
    StripAllSpace(photo.GetOr(""));
  }

  /** A missing or blank photo column still looks up the file named `.jpg`
      first; the fallback is used only when that file does not exist. */
  lemma BlankPhotoLooksUpDotJpg(dir: string, fallback: string, photo: Option<string>,
                                isFile: string -> bool)
    requires photo.None? || AllSpace(photo.value)
    ensures isFile(PathJoin(dir, PhotoExtension)) ==> ResolvePhoto(dir, fallback, photo, isFile) == PathJoin(dir, PhotoExtension)
    ensures !isFile(PathJoin(dir, PhotoExtension)) ==> ResolvePhoto(dir, fallback, photo, isFile) == PathJoin(dir, fallback)
  {
    BlankPhotoId(photo);
    assert [] + PhotoExtension == PhotoExtension;
    assert PhotoCandidate(dir, []) == PathJoin(dir, PhotoExtension);
  }

  /** Whitespace around the identifier does not change the file chosen. */
  lemma PaddingIgnored(id: string)
    ensures PhotoId(Some(id)) == PhotoId(Some(Strip(id)))
  {
    StripIdempotent(id);
  }

  /** With the program's photo directory the fallback is `./photos/sb.jpg`. */
  lemma DefaultFallback()
    ensures PathJoin(PhotosDir, FallbackPhoto) == "./photos/sb.jpg"
  {
  }
}

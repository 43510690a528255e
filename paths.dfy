/**
 * Filesystem paths as `pathlib` sees them after parsing: an absolute flag and
 * the list of name segments. The public URL of a downloaded file is its path
 * re-rooted under the `/downloads/` static mount.
 */
module Paths {
  import opened Wrappers
  import opened Text
  import Config

  datatype Path = Path(absolute: bool, segments: seq<string>)

  /** A name segment as `pathlib` keeps it: not empty, not `.`, no separator. */
  predicate ValidSegment(s: string)
  {
    s != "" && s != "." && '/' !in s
  }

  predicate ValidPath(p: Path)
  {
    forall i :: 0 <= i < |p.segments| ==> ValidSegment(p.segments[i])
  }

  const DownloadsDir: Path := Path(false, Config.DownloadsDirSegments)

  /** The parts of a split path text that name something: empty parts and `.` are dropped, as `pathlib` drops them. */
  function NamedParts(parts: seq<string>): (r: seq<string>)
    ensures |r| <= |parts|
    ensures forall k :: 0 <= k < |r| ==> r[k] in parts && r[k] != "" && r[k] != "."
    ensures forall x :: x in parts && x != "" && x != "." ==> x in r
  {
    if parts == [] then []
    else (if parts[0] == "" || parts[0] == "." then [] else [parts[0]]) + NamedParts(parts[1..])
  }

  /** Dropping the unnamed parts commutes with concatenation, so the named parts keep their order. */
  lemma {:induction false} NamedPartsAppend(a: seq<string>, b: seq<string>)
    ensures NamedParts(a + b) == NamedParts(a) + NamedParts(b)
  {
    if a != [] {
      assert (a + b)[1..] == a[1..] + b;
      NamedPartsAppend(a[1..], b);
    } else {
      assert a + b == b;
    }
  }

  /** Parts that all name something are kept as they are. */
  lemma {:induction false} NamedPartsOfSegments(segs: seq<string>)
    requires forall i :: 0 <= i < |segs| ==> ValidSegment(segs[i])
    ensures NamedParts(segs) == segs
  {
    if segs != [] {
      NamedPartsOfSegments(segs[1..]);
    }
  }

  /** `PurePosixPath(s)`: absolute when the text starts with `/`, then its named parts. */
  function ParsePath(s: string): (p: Path)
    ensures ValidPath(p)
    ensures p.absolute <==> |s| > 0 && s[0] == '/'
  {
    var parts := Split(s, '/');
    var named := NamedParts(parts);
    assert forall k :: 0 <= k < |named| ==> '/' !in named[k] by {
      forall k | 0 <= k < |named| ensures '/' !in named[k] {
        var j :| 0 <= j < |parts| && parts[j] == named[k];
      }
    }
    Path(|s| > 0 && s[0] == '/', named)
  }

  /** `base / other`: an absolute right operand replaces the left one, a relative one extends it. */
  function JoinPath(base: Path, other: Path): (p: Path)
    ensures other.absolute ==> p == other
    ensures !other.absolute ==> p.absolute == base.absolute && p.segments == base.segments + other.segments
    ensures ValidPath(base) && ValidPath(other) ==> ValidPath(p)
  {
    if other.absolute then other else Path(base.absolute, base.segments + other.segments)
  }

  /** `PurePath.as_posix()`: segments joined by `/`, a leading `/` when absolute, `.` for the empty relative path. */
  function AsPosix(p: Path): string
  {
    if p.absolute then "/" + Join(p.segments, '/')
    else if p.segments == [] then "."
    else Join(p.segments, '/')
  }

  /** Parsing a path's text gives the path back: `PurePosixPath(p.as_posix()) == p`. */
  lemma ParseAsPosix(p: Path)
    requires ValidPath(p)
    ensures ParsePath(AsPosix(p)) == p
  {
    if p.segments == [] {
      if p.absolute {
        assert AsPosix(p) == "" + ['/'] + "";
        SplitCons("", '/', "");
        assert IndexOf("", '/') == 0;
        assert Split(AsPosix(p), '/') == ["", ""];
        assert NamedParts(["", ""]) == [] + NamedParts([""]);
        assert [""][1..] == [];
      } else {
        assert AsPosix(p) == ".";
        assert IndexOf(".", '/') == 1;
        assert Split(".", '/') == ["."];
        assert ["."][1..] == [];
      }
    } else {
      var j := Join(p.segments, '/');
      SplitJoin(p.segments, '/');
      NamedPartsOfSegments(p.segments);
      if p.absolute {
        assert AsPosix(p) == "" + ['/'] + j;
        SplitCons("", '/', j);
        assert Split(AsPosix(p), '/') == [""] + p.segments;
        assert ([""] + p.segments)[1..] == p.segments;
      } else {
        JoinStartsWithFirst(p.segments, '/');
        assert j[0] == p.segments[0][0];
      }
    }
  }

  /** `p.is_relative_to(base)`: same anchor, and `base`'s segments are a prefix of `p`'s. */
  predicate IsRelativeTo(p: Path, base: Path)
  {
    p.absolute == base.absolute && base.segments <= p.segments
  }

  /** `p.relative_to(base)`, with `None` standing for the `ValueError` it raises. */
  function RelativeTo(p: Path, base: Path): (r: Option<Path>)
    ensures r.Some? <==> IsRelativeTo(p, base)
    ensures r.Some? ==> !r.value.absolute && base.segments + r.value.segments == p.segments
  {
    if IsRelativeTo(p, base) then Some(Path(false, p.segments[|base.segments|..])) else None
  }

  /**
   * `_relative_download_path`: the path relative to the download root when it
   * lies under it, the path unchanged otherwise, behind `/downloads/`.
   */
  function RelativeDownloadPath(p: Path): (url: string)
    ensures |url| >= 11 && url[..11] == "/downloads/"
    ensures IsRelativeTo(p, DownloadsDir) ==>
              url == "/downloads/" + AsPosix(Path(false, p.segments[|DownloadsDir.segments|..]))
    ensures !IsRelativeTo(p, DownloadsDir) ==> url == "/downloads/" + AsPosix(p)
  {
    var rel := match RelativeTo(p, DownloadsDir)
      case Some(r) => r
      case None => p;
    "/downloads/" + AsPosix(rel)
  }

  /** Behind the mount prefix, splitting yields an empty part, `downloads`, then the parts of the rest. */
  lemma SplitMounted(j: string)
    ensures Split("/downloads/" + j, '/') == ["", "downloads"] + Split(j, '/')
  {
    assert "/downloads/" + j == "/" + "downloads" + "/" + j;
    SplitUnderName("downloads", j);
  }

  /** Behind `/a/`, splitting yields an empty part, `a`, then the parts of the rest. */
  lemma SplitUnderName(a: string, j: string)
    requires '/' !in a
    ensures Split("/" + a + "/" + j, '/') == ["", a] + Split(j, '/')
  {
    assert "/" + a + "/" + j == "" + ['/'] + (a + ['/'] + j);
    SplitCons(a, '/', j);
    SplitCons("", '/', a + ['/'] + j);
  }

  /** The `/`-separated parts of `"/downloads/" + Join(rest, '/')` for parts free of `/`. */
  lemma MountedParts(rest: seq<string>)
    requires |rest| >= 1
    requires forall i :: 0 <= i < |rest| ==> '/' !in rest[i]
    ensures Split("/downloads/" + Join(rest, '/'), '/') == ["", "downloads"] + rest
  {
    SplitMounted(Join(rest, '/'));
    SplitJoin(rest, '/');
  }

  /**
   * A file under the download root gets a URL whose parts after the mount
   * are exactly its segments below the root: the URL names that file.
   */
  lemma UrlOfFileUnderRoot(p: Path)
    requires ValidPath(p) && IsRelativeTo(p, DownloadsDir)
    requires |p.segments| > |DownloadsDir.segments|
    ensures Split(RelativeDownloadPath(p), '/') == ["", "downloads"] + p.segments[|DownloadsDir.segments|..]
  {
    var rel := p.segments[|DownloadsDir.segments|..];
    forall i | 0 <= i < |rel| ensures '/' !in rel[i] {
      assert rel[i] == p.segments[i + |DownloadsDir.segments|];
    }
    MountedParts(rel);
  }

  /** A relative path outside the download root is mounted whole. */
  lemma UrlOfRelativeOutsideRoot(p: Path)
    requires ValidPath(p) && !p.absolute && !IsRelativeTo(p, DownloadsDir)
    requires |p.segments| >= 1
    ensures Split(RelativeDownloadPath(p), '/') == ["", "downloads"] + p.segments
  {
    MountedParts(p.segments);
  }

  /**
   * An absolute path is never under the relative download root; it is
   * mounted whole, with an empty part where its root `/` follows the mount's.
   */
  lemma UrlOfAbsolutePath(p: Path)
    requires ValidPath(p) && p.absolute
    requires |p.segments| >= 1
    ensures !IsRelativeTo(p, DownloadsDir)
    ensures Split(RelativeDownloadPath(p), '/') == ["", "downloads", ""] + p.segments
  {
    var tail := AsPosix(p);
    SplitRooted(p.segments);
    assert RelativeDownloadPath(p) == "/downloads/" + tail;
    SplitMounted(tail);
  }

  /** An absolute path's text splits into an empty part for the root, then its segments. */
  lemma SplitRooted(segs: seq<string>)
    requires |segs| >= 1
    requires forall i :: 0 <= i < |segs| ==> '/' !in segs[i]
    ensures Split(AsPosix(Path(true, segs)), '/') == [""] + segs
  {
    var j := Join(segs, '/');
    assert AsPosix(Path(true, segs)) == "" + ['/'] + j;
    SplitCons("", '/', j);
    SplitJoin(segs, '/');
  }

  /** A path equal to the download root itself becomes `/downloads/.`. */
  lemma UrlOfRootItself()
    ensures RelativeDownloadPath(DownloadsDir) == "/downloads/."
  {
  }
}

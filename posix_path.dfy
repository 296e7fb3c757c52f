/**
 * POSIX paths as Python's `pathlib.PurePosixPath` parses them, and the small
 * filesystem the server consults: `resolve()`, `exists()` and `read_text()`.
 *
 * A path is its parsed form: an anchor (none, "/" or exactly "//", which
 * POSIX leaves implementation-defined and pathlib keeps) and the non-empty
 * components other than ".". Two paths are equal in Python exactly when
 * their parsed forms are, which is why the parsed form serves as map key.
 */
module PosixPath {
  import opened Wrappers
  import opened Strings

  datatype Root = Relative | Slash | DoubleSlash

  datatype Path = Path(root: Root, parts: seq<string>)

  /** A component pathlib keeps: non-empty, not ".", and without "/". */
  predicate ValidPart(s: string) {
    s != "" && s != "." && '/' !in s
  }

  /** Every component is one pathlib would keep. */
  predicate Valid(p: Path) {
    forall i :: 0 <= i < |p.parts| ==> ValidPart(p.parts[i])
  }

  /** The components of a split that pathlib keeps, in order. */
  function KeepParts(xs: seq<string>): (r: seq<string>)
    ensures forall i :: 0 <= i < |r| ==> ValidPart(r[i])
    ensures |r| <= |xs|
    decreases |xs|
  {
    if xs == [] then []
    else if ValidPart(xs[0]) then [xs[0]] + KeepParts(xs[1..])
    else KeepParts(xs[1..])
  }

  function RootOf(s: string): Root {
    if |s| >= 2 && s[0] == '/' && s[1] == '/' && (|s| == 2 || s[2] != '/') then DoubleSlash
    else if |s| >= 1 && s[0] == '/' then Slash
    else Relative
  }

  /** `PurePosixPath(s)`. */
  function Parse(s: string): (p: Path)
    ensures Valid(p)
  {
    Path(RootOf(s), KeepParts(Split(s, '/')))
  }

  /** `str(p)`: the anchor, then the components joined by "/", or "." when both are empty. */
  function ToString(p: Path): (s: string)
    ensures s != ""
  {
    var body := Join(p.parts, "/");
    match p.root
    case Relative => if body == "" then "." else body
    case Slash => "/" + body
    case DoubleSlash => "//" + body
  }

  predicate IsAbsolute(p: Path) {
    p.root != Relative
  }

  /** `p.name`: the last component, "" when there is none. */
  function Name(p: Path): string {
    if |p.parts| == 0 then "" else p.parts[|p.parts| - 1]
  }

  /** `p.parent`: the path without its last component; an anchor alone is its own parent. */
  function Parent(p: Path): (q: Path)
    ensures q.root == p.root
    ensures |p.parts| > 0 ==> q.parts == p.parts[..|p.parts| - 1]
    ensures |p.parts| == 0 ==> q == p
  {
    if |p.parts| == 0 then p else Path(p.root, p.parts[..|p.parts| - 1])
  }

  /**
   * `p.is_relative_to(base)`, i.e. `p.relative_to(base)` succeeds: same anchor
   * and `base`'s components are a prefix of `p`'s, compared whole.
   */
  predicate IsRelativeTo(p: Path, base: Path) {
    p.root == base.root && |base.parts| <= |p.parts| && p.parts[..|base.parts|] == base.parts
  }

  /** A file system as far as the server looks at it. */
  datatype FileSystem = FileSystem(
    resolve: Path -> Path,          // `Path.resolve()`: absolute, symlinks followed
    files: map<Path, string>,       // regular files and their UTF-8 text
    dirs: set<Path>)                // directories

  predicate Exists(fs: FileSystem, p: Path) {
    p in fs.files || p in fs.dirs
  }

  // ---------------------------------------------------------------------
  // Parsing inverts printing

  /** Keeping the valid components of valid components keeps them all. */
  lemma {:induction false} KeepAllValid(xs: seq<string>)
    requires forall i :: 0 <= i < |xs| ==> ValidPart(xs[i])
    ensures KeepParts(xs) == xs
    decreases |xs|
  {
    if xs != [] {
      KeepAllValid(xs[1..]);
      assert xs == [xs[0]] + xs[1..];
    }
  }

  /** The components pathlib reads out of the text of a valid path. */
  lemma BodyParts(p: Path)
    requires Valid(p)
    ensures KeepParts(Split(Join(p.parts, "/"), '/')) == p.parts
  {
    if |p.parts| == 0 {
      assert Split("", '/') == [""];
    } else {
      SplitJoin(p.parts, '/');
      KeepAllValid(p.parts);
    }
  }

  /** The text of a valid path with no anchor begins with a component, or is "". */
  lemma BodyStart(p: Path)
    requires Valid(p)
    ensures var body := Join(p.parts, "/"); body == "" <==> |p.parts| == 0
    ensures var body := Join(p.parts, "/"); body != "" ==> body[0] != '/'
  {
    var body := Join(p.parts, "/");
    if |p.parts| == 1 {
      assert body == p.parts[0];
      assert body[0] in p.parts[0];
    } else if |p.parts| > 1 {
      assert body == p.parts[0] + "/" + Join(p.parts[1..], "/");
      assert body[0] == p.parts[0][0];
      assert body[0] in p.parts[0];
    }
  }

  /** A leading "/" adds one empty field in front of the split. */
  lemma SplitSlash(body: string)
    ensures Split("/" + body, '/') == [""] + Split(body, '/')
  {
    var s := "/" + body;
    assert s[0] == '/';
    assert IndexOf(s, '/') == 0;
    assert s[1..] == body;
  }

  /** `PurePosixPath(str(p)) == p` for every valid path. */
  lemma ParseToString(p: Path)
    requires Valid(p)
    ensures Parse(ToString(p)) == p
  {
    var body := Join(p.parts, "/");
    BodyStart(p);
    BodyParts(p);
    match p.root
    case Relative =>
      if body == "" {
        assert Split(".", '/') == ["."];
      }
    case Slash =>
      SplitSlash(body);
    case DoubleSlash =>
      var s := "//" + body;
      assert s == "/" + ("/" + body);
      SplitSlash(body);
      SplitSlash("/" + body);
      var xs := Split(body, '/');
      assert Split(s, '/') == [""] + ([""] + xs);
      assert KeepParts([""] + ([""] + xs)) == KeepParts([""] + xs);
      assert KeepParts([""] + xs) == KeepParts(xs);
      assert RootOf(s) == DoubleSlash;
  }

  /** Every path is relative to itself and to each of its ancestors. */
  lemma RelativeToParent(p: Path)
    ensures IsRelativeTo(p, p)
    ensures IsRelativeTo(p, Parent(p))
  {
  }

  /** Being relative to is a matter of whole components, not of text prefixes. */
  lemma NotATextPrefix()
    ensures !IsRelativeTo(Path(Slash, ["ab"]), Path(Slash, ["a"]))
    ensures IsRelativeTo(Path(Slash, ["a", "b"]), Path(Slash, ["a"]))
  {
    assert Path(Slash, ["ab"]).parts[..1] == ["ab"];
  }
}

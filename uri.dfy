/**
 * `file://` URIs for filesystem paths (`utils/uri.py`, POSIX branch), as
 * RFC 8089 describes them: the path percent-encoded as in section 2.1 of
 * RFC 3986, with the unreserved characters of its section 2.3 and "/" left
 * literal. Decoding goes through Python's `urlparse` and `unquote`, whose
 * behaviour on the path component is modelled here.
 */
module Uri {
  import opened Wrappers
  import opened Strings
  import opened Utf8
  import opened PosixPath

  // ---------------------------------------------------------------------
  // Percent-encoding: quote(s, safe="/")

  predicate IsAsciiLetter(c: char) {
    'a' <= c <= 'z' || 'A' <= c <= 'Z'
  }

  /** A character `quote(..., safe="/")` leaves as it is. */
  predicate IsSafeChar(c: char) {
    IsAsciiLetter(c) || IsDigit(c) || c == '_' || c == '.' || c == '-' || c == '~' || c == '/'
  }

  const HexUpper: string := "0123456789ABCDEF"

  /** The value of one hexadecimal digit, in either case. */
  function HexValue(c: char): (r: Option<nat>)
    ensures r.Some? ==> r.value < 16
    ensures c == '%' ==> r.None?
  {
    if '0' <= c <= '9' then Some(c as int - '0' as int)
    else if 'A' <= c <= 'F' then Some(c as int - 'A' as int + 10)
    else if 'a' <= c <= 'f' then Some(c as int - 'a' as int + 10)
    else None
  }

  /** A character that can appear in the output of `quote`. */
  predicate IsQuotedChar(c: char) {
    IsSafeChar(c) || c == '%' || c in HexUpper
  }

  /** One byte as `quote` writes it: literal when safe, else "%XX" in upper case. */
  function QuoteByte(b: byte): (r: string)
    ensures IsSafeChar(b as char) ==> r == [b as char]
    ensures !IsSafeChar(b as char) ==>
      |r| == 3 && r[0] == '%' && HexValue(r[1]) == Some(b / 16) && HexValue(r[2]) == Some(b % 16)
    ensures forall i :: 0 <= i < |r| ==> IsQuotedChar(r[i])
  {
    if IsSafeChar(b as char) then [b as char] else ['%', HexUpper[b / 16], HexUpper[b % 16]]
  }

  /** `urllib.parse.quote_from_bytes(bs, safe="/")`. */
  function QuoteBytes(bs: seq<byte>): (r: string)
    ensures forall i :: 0 <= i < |r| ==> IsQuotedChar(r[i])
    decreases |bs|
  {
    if bs == [] then [] else QuoteByte(bs[0]) + QuoteBytes(bs[1..])
  }

  /** `urllib.parse.quote(s, safe="/")`: the UTF-8 bytes of `s`, percent-encoded. */
  function Quote(s: string): string {
    QuoteBytes(Encode(s))
  }

  // ---------------------------------------------------------------------
  // Percent-decoding: unquote(s)

  /**
   * `urllib.parse.unquote_to_bytes` on a run of ASCII text: "%" and two hex
   * digits (either case) become that byte, anything else stands for itself.
   */
  function UnquoteToBytes(t: string): (bs: seq<byte>)
    requires AllAscii(t)
    decreases |t|
  {
    if t == [] then []
    else if t[0] == '%' && |t| >= 3 && HexValue(t[1]).Some? && HexValue(t[2]).Some? then
      [HexValue(t[1]).value * 16 + HexValue(t[2]).value] + UnquoteToBytes(t[3..])
    else [t[0] as int] + UnquoteToBytes(t[1..])
  }

  /** Length of the longest ASCII prefix of `s`. */
  function AsciiPrefixLen(s: string): (k: nat)
    ensures k <= |s| && AllAscii(s[..k])
    ensures k < |s| ==> !IsAscii(s[k])
    ensures s != [] && IsAscii(s[0]) ==> k >= 1
    decreases |s|
  {
    if s == [] || !IsAscii(s[0]) then 0
    else
      var k := AsciiPrefixLen(s[1..]);
      assert s[..k + 1] == [s[0]] + s[1..][..k];
      k + 1
  }

  /** Each ASCII run is decoded as UTF-8 with replacement; other characters pass through. */
  function UnquoteRuns(s: string): string
    decreases |s|
  {
    if s == [] then []
    else if IsAscii(s[0]) then
      var k := AsciiPrefixLen(s);
      DecodeReplace(UnquoteToBytes(s[..k])) + UnquoteRuns(s[k..])
    else [s[0]] + UnquoteRuns(s[1..])
  }

  /** `urllib.parse.unquote(s)` (UTF-8, errors="replace"); text without "%" is returned as is. */
  function Unquote(s: string): string {
    if '%' !in s then s else UnquoteRuns(s)
  }

  // ---------------------------------------------------------------------
  // urlparse, as far as `uri_to_path` reads it

  datatype SplitResult = SplitResult(scheme: string, netloc: string, path: string, query: string, fragment: string)

  /** Why `uri_to_path` raises ValueError. */
  datatype UriError = NotAFileUri(uri: string) | InvalidIpv6

  /** The C0 controls and space, which `urlsplit` strips from the front. */
  predicate IsC0OrSpace(c: char) {
    c as int <= 0x20
  }

  function LStripC0(s: string): (r: string)
    ensures |r| <= |s| && r == s[|s| - |r|..]
    ensures r == [] || !IsC0OrSpace(r[0])
    ensures s != [] && !IsC0OrSpace(s[0]) ==> r == s
    decreases |s|
  {
    if s != [] && IsC0OrSpace(s[0]) then LStripC0(s[1..]) else s
  }

  /** Tab, CR and LF, which `urlsplit` deletes wherever they are. */
  predicate IsUnsafeUrlChar(c: char) {
    c == '\t' || c == '\r' || c == '\n'
  }

  function RemoveUnsafe(s: string): (r: string)
    ensures forall i :: 0 <= i < |r| ==> !IsUnsafeUrlChar(r[i])
    ensures (forall i :: 0 <= i < |s| ==> !IsUnsafeUrlChar(s[i])) ==> r == s
    decreases |s|
  {
    if s == [] then []
    else if IsUnsafeUrlChar(s[0]) then RemoveUnsafe(s[1..])
    else [s[0]] + RemoveUnsafe(s[1..])
  }

  predicate IsSchemeChar(c: char) {
    IsAsciiLetter(c) || IsDigit(c) || c == '+' || c == '-' || c == '.'
  }

  predicate AllSchemeChars(s: string) {
    forall i :: 0 <= i < |s| ==> IsSchemeChar(s[i])
  }

  /**
   * The scheme `urlsplit` recognises, lower-cased, and the rest: the text
   * before the first ":" when it starts with an ASCII letter and is made of
   * scheme characters only; otherwise no scheme.
   */
  function SplitScheme(url: string): (r: (string, string))
    ensures r.0 != "" ==> ':' in url && r.1 == url[IndexOf(url, ':') + 1..]
    ensures r.0 == "" ==> r.1 == url
  {
    if ':' in url then
      var i := IndexOf(url, ':');
      if i > 0 && IsAsciiLetter(url[0]) && AllSchemeChars(url[..i]) then (Lower(url[..i]), url[i + 1..])
      else ("", url)
    else ("", url)
  }

  predicate IsAuthorityEnd(c: char) {
    c == '/' || c == '?' || c == '#'
  }

  /** The first index at or after `i` holding "/", "?" or "#", or the length. */
  function AuthorityEnd(url: string, i: nat): (d: nat)
    requires i <= |url|
    ensures i <= d <= |url|
    ensures forall j :: i <= j < d ==> !IsAuthorityEnd(url[j])
    ensures d < |url| ==> IsAuthorityEnd(url[d])
    decreases |url| - i
  {
    if i == |url| || IsAuthorityEnd(url[i]) then i else AuthorityEnd(url, i + 1)
  }

  /** `s.split(c, 1)` into the text before the first `c` and after it; `(s, "")` when `c` is absent. */
  function SplitOnce(s: string, c: char): (r: (string, string))
    ensures c !in s ==> r == (s, "")
    ensures c !in r.0
  {
    if c in s then (s[..IndexOf(s, c)], s[IndexOf(s, c) + 1..]) else (s, "")
  }

  /** `urllib.parse.urlsplit(uri)`. */
  function UrlSplit(uri: string): (r: Result<SplitResult, UriError>)
    ensures r.Ok? ==> '#' !in r.value.path && '?' !in r.value.path
  {
    var (scheme, rest) := SplitScheme(RemoveUnsafe(LStripC0(uri)));
    SplitAuthority(scheme, rest)
  }

  /**
   * What `urlsplit` does after the scheme: the authority after a leading
   * "//" (with unbalanced brackets refused), then fragment, then query.
   */
  function SplitAuthority(scheme: string, url: string): (r: Result<SplitResult, UriError>)
    ensures r.Ok? ==> r.value.scheme == scheme && '#' !in r.value.path && '?' !in r.value.path
  {
    var hasNetloc := |url| >= 2 && url[..2] == "//";
    var d := if hasNetloc then AuthorityEnd(url, 2) else 0;
    var netloc := if hasNetloc then url[2..d] else "";
    if ('[' in netloc && ']' !in netloc) || (']' in netloc && '[' !in netloc) then Err(InvalidIpv6)
    else
      var (beforeFragment, fragment) := SplitOnce(url[d..], '#');
      var (path, query) := SplitOnce(beforeFragment, '?');
      assert '#' !in path by {
        if '?' in beforeFragment { assert path == beforeFragment[..IndexOf(beforeFragment, '?')]; }
      }
      Ok(SplitResult(scheme, netloc, path, query, fragment))
  }

  // ---------------------------------------------------------------------
  // The two conversions

  /** `path_to_uri(path)` on POSIX: "file://" and the percent-encoded resolved path. */
  function PathToUri(fs: FileSystem, p: Path): (uri: string)
    ensures |uri| >= 7 && uri[..7] == "file://"
    ensures ' ' !in uri
    ensures forall i :: 7 <= i < |uri| ==> IsQuotedChar(uri[i])
  {
    var q := Quote(ToString(fs.resolve(p)));
    FileUriShape(q, "file://" + q);
    "file://" + q
  }

  /** "file://" followed by encoded text has no space, and only encoded characters after the prefix. */
  lemma FileUriShape(q: string, uri: string)
    requires uri == "file://" + q
    requires forall i :: 0 <= i < |q| ==> IsQuotedChar(q[i])
    ensures |uri| >= 7 && uri[..7] == "file://"
    ensures ' ' !in uri
    ensures forall i :: 7 <= i < |uri| ==> IsQuotedChar(uri[i])
  {
    forall i | 7 <= i < |uri| ensures IsQuotedChar(uri[i]) && uri[i] != ' ' {
      assert uri[i] == q[i - 7];
    }
    forall i | 0 <= i < 7 ensures uri[i] != ' ' {
      assert uri[i] == "file://"[i];
    }
  }

  /**
   * `uri_to_path(uri)` on POSIX: the percent-decoded path component, when
   * the scheme is "file"; ValueError otherwise.
   */
  function UriToPath(uri: string): (r: Result<Path, UriError>)
    ensures r.Ok? <==> UrlSplit(uri).Ok? && UrlSplit(uri).value.scheme == "file"
    ensures UrlSplit(uri).Ok? && UrlSplit(uri).value.scheme != "file" ==> r == Err(NotAFileUri(uri))
  {
    match UrlSplit(uri)
    case Err(e) => Err(e)
    case Ok(parts) =>
      if parts.scheme != "file" then Err(NotAFileUri(uri))
      else Ok(Parse(Unquote(parts.path)))
  }

  /** `normalize_path(path)`: the path, resolved. */
  function NormalizePath(fs: FileSystem, s: string): (p: Path)
    ensures p == fs.resolve(Parse(s))
  {
    fs.resolve(Parse(s))
  }

  /** Normalizing the text of a path resolves that very path: `normalize_path(str(p)) == p.resolve()`. */
  lemma NormalizeToString(fs: FileSystem, p: Path)
    requires Valid(p)
    ensures NormalizePath(fs, ToString(p)) == fs.resolve(p)
  {
    ParseToString(p);
  }

  // ---------------------------------------------------------------------
  // Decoding inverts encoding

  /** Decoding the bytes of an encoded byte string gives the bytes back. */
  lemma {:induction false} UnquoteQuoteBytes(bs: seq<byte>)
    ensures AllAscii(QuoteBytes(bs))
    ensures UnquoteToBytes(QuoteBytes(bs)) == bs
    decreases |bs|
  {
    QuotedAscii(QuoteBytes(bs));
    if bs != [] {
      var tail := QuoteBytes(bs[1..]);
      UnquoteQuoteBytes(bs[1..]);
      UnquoteStep(bs[0], tail);
      assert QuoteBytes(bs) == QuoteByte(bs[0]) + tail;
      assert bs == [bs[0]] + bs[1..];
    }
  }

  /** The output of `quote` is ASCII. */
  lemma QuotedAscii(q: string)
    requires forall i :: 0 <= i < |q| ==> IsQuotedChar(q[i])
    ensures AllAscii(q)
  {
    forall i | 0 <= i < |q| ensures IsAscii(q[i]) {
      assert IsQuotedChar(q[i]);
    }
  }

  /** Decoding reads one quoted byte off the front and goes on with the rest. */
  lemma UnquoteStep(b: byte, tail: string)
    requires AllAscii(tail)
    ensures AllAscii(QuoteByte(b) + tail)
    ensures UnquoteToBytes(QuoteByte(b) + tail) == [b] + UnquoteToBytes(tail)
  {
    var head := QuoteByte(b);
    var q := head + tail;
    QuotedAscii(head);
    assert AllAscii(q) by {
      forall i | 0 <= i < |q| ensures IsAscii(q[i]) {
        if i < |head| { assert q[i] == head[i]; } else { assert q[i] == tail[i - |head|]; }
      }
    }
    if IsSafeChar(b as char) {
      UnquoteSafe(b, tail, q);
    } else {
      UnquoteEscaped(b, tail, q);
    }
  }

  lemma UnquoteSafe(b: byte, tail: string, q: string)
    requires IsSafeChar(b as char) && q == QuoteByte(b) + tail && AllAscii(q) && AllAscii(tail)
    ensures UnquoteToBytes(q) == [b] + UnquoteToBytes(tail)
  {
    assert q[0] == b as char && q[1..] == tail;
    assert q[0] != '%';
  }

  lemma UnquoteEscaped(b: byte, tail: string, q: string)
    requires !IsSafeChar(b as char) && q == QuoteByte(b) + tail && AllAscii(q) && AllAscii(tail)
    ensures UnquoteToBytes(q) == [b] + UnquoteToBytes(tail)
  {
    var head := QuoteByte(b);
    var x, y := head[1], head[2];
    assert q == ['%', x, y] + tail by {
      assert head == ['%', x, y];
    }
    PercentValue(b, x, y);
    UnquotePercent(q, x, y, tail, b);
  }

  /** The two hexadecimal digits of a byte give the byte back. */
  lemma PercentValue(b: byte, x: char, y: char)
    requires HexValue(x) == Some(b / 16) && HexValue(y) == Some(b % 16)
    ensures HexValue(x).value * 16 + HexValue(y).value == b
  {
  }

  /** An escape "%XY" at the front decodes to the byte 16·X + Y. */
  lemma UnquotePercent(t: string, x: char, y: char, rest: string, v: byte)
    requires t == ['%', x, y] + rest && AllAscii(t) && AllAscii(rest)
    requires HexValue(x).Some? && HexValue(y).Some? && v == HexValue(x).value * 16 + HexValue(y).value
    ensures UnquoteToBytes(t) == [v] + UnquoteToBytes(rest)
  {
    assert t[0] == '%' && t[1] == x && t[2] == y && t[3..] == rest;
  }

  /** Without "%", decoding to bytes reads each character as its code. */
  lemma {:induction false} UnquoteNoPercent(t: string)
    requires AllAscii(t) && '%' !in t
    ensures UnquoteToBytes(t) == Encode(t)
    decreases |t|
  {
    if t != [] {
      UnquoteNoPercent(t[1..]);
      var r := UnquoteToBytes(t);
      var e := Encode(t);
      assert r == [t[0] as int] + UnquoteToBytes(t[1..]);
      assert |r| == |t| == |e|;
      forall i | 0 <= i < |t| ensures r[i] == e[i] {
        if i > 0 {
          assert r[i] == Encode(t[1..])[i - 1];
        }
      }
    }
  }

  /** On ASCII text `unquote` is the byte-level decoding followed by UTF-8 decoding. */
  lemma UnquoteAscii(t: string)
    requires AllAscii(t)
    ensures Unquote(t) == DecodeReplace(UnquoteToBytes(t))
  {
    if '%' !in t {
      UnquoteNoPercent(t);
      DecodeReplaceEncode(t);
    } else {
      var k := AsciiPrefixLen(t);
      assert k == |t|;
      assert t[..k] == t && t[k..] == [];
      assert Unquote(t) == UnquoteRuns(t);
      assert UnquoteRuns(t) == DecodeReplace(UnquoteToBytes(t[..k])) + UnquoteRuns(t[k..]);
    }
  }

  /** `unquote(quote(s)) == s` for every string. */
  lemma UnquoteQuote(s: string)
    ensures Unquote(Quote(s)) == s
  {
    UnquoteQuoteBytes(Encode(s));
    UnquoteAscii(Quote(s));
    DecodeReplaceEncode(s);
  }

  /** A space is written "%20", and "%20" is read back as a space. */
  lemma SpaceEscape()
    ensures Quote(" ") == "%20"
    ensures Unquote("%20") == " "
  {
    assert Quote(" ") == "%20" by {
      assert Encode(" ") == [32];
      assert QuoteBytes([32]) == QuoteByte(32) + QuoteBytes([]);
    }
    var t := "%20";
    assert UnquoteToBytes(t) == [32] by {
      assert t == ['%', '2', '0'] + [];
      UnquotePercent(t, '2', '0', [], 32);
    }
    assert DecodeReplace([32]) == " " by {
      assert DecodeReplace([32]) == [' '] + DecodeReplace([32][1..]);
    }
    UnquoteAscii(t);
  }

  // ---------------------------------------------------------------------
  // The round trip through a URI

  /** The encoded text of an absolute path starts with "/". */
  lemma QuoteAbsolute(p: Path)
    requires IsAbsolute(p)
    ensures var q := Quote(ToString(p)); q != [] && q[0] == '/'
  {
    var s := ToString(p);
    assert s[0] == '/';
    var e := Encode(s);
    assert e == EncodeChar('/') + Encode(s[1..]);
    assert Quote(s) == QuoteByte(e[0]) + QuoteBytes(e[1..]);
  }

  lemma LowerFile(s: string)
    requires s == "file"
    ensures Lower(s) == "file"
  {
    var l := Lower(s);
    assert l[0] == 'f' && l[1] == 'i' && l[2] == 'l' && l[3] == 'e';
  }

  /** How `urlsplit` reads "file://" followed by an encoded absolute path. */
  lemma UrlSplitFileUri(q: string, uri: string)
    requires uri == "file://" + q
    requires q != [] && q[0] == '/'
    requires forall i :: 0 <= i < |q| ==> IsQuotedChar(q[i])
    ensures UrlSplit(uri) == Ok(SplitResult("file", "", q, "", ""))
  {
    FileUriScheme(q, uri);
    AuthorityOfEncodedPath(q, "//" + q);
  }

  /** The scheme of "file://" followed by encoded text is "file"; nothing is stripped or removed. */
  lemma FileUriScheme(q: string, uri: string)
    requires uri == "file://" + q
    requires forall i :: 0 <= i < |q| ==> IsQuotedChar(q[i])
    ensures SplitScheme(RemoveUnsafe(LStripC0(uri))) == ("file", "//" + q)
  {
    NothingStripped(q, uri);
    FileScheme(q, uri);
  }

  lemma NothingStripped(q: string, uri: string)
    requires uri == "file://" + q
    requires forall i :: 0 <= i < |q| ==> IsQuotedChar(q[i])
    ensures RemoveUnsafe(LStripC0(uri)) == uri
  {
    assert LStripC0(uri) == uri by { assert uri[0] == 'f'; }
    forall i | 0 <= i < |uri| ensures !IsUnsafeUrlChar(uri[i]) {
      if i >= 7 { assert uri[i] == q[i - 7]; assert IsQuotedChar(q[i - 7]); }
    }
  }

  lemma FileScheme(q: string, uri: string)
    requires uri == "file://" + q
    ensures SplitScheme(uri) == ("file", "//" + q)
  {
    var rest := "//" + q;
    assert uri == "file:" + rest;
    SplitAt("file:", rest, uri);
    assert uri[4] == ':' && uri[..4] == "file" by {
      assert uri[..4] == uri[..5][..4];
    }
    assert IndexOf(uri, ':') == 4;
    assert AllSchemeChars(uri[..4]);
    LowerFile(uri[..4]);
  }

  /** The two halves of a concatenation are its slices at the seam. */
  lemma SplitAt(a: string, b: string, s: string)
    requires s == a + b
    ensures s[..|a|] == a && s[|a|..] == b
  {
  }

  /** After "//", an encoded absolute path has an empty authority and is the whole path. */
  lemma AuthorityOfEncodedPath(q: string, url: string)
    requires url == "//" + q
    requires q != [] && q[0] == '/'
    requires forall i :: 0 <= i < |q| ==> IsQuotedChar(q[i])
    ensures SplitAuthority("file", url) == Ok(SplitResult("file", "", q, "", ""))
  {
    assert url[..2] == "//";
    assert url[2] == '/';
    assert AuthorityEnd(url, 2) == 2;
    assert url[2..2] == "";
    assert url[2..] == q;
    assert '#' !in q && '?' !in q by {
      forall i | 0 <= i < |q| ensures q[i] != '#' && q[i] != '?' {
        assert IsQuotedChar(q[i]);
      }
    }
  }

  /**
   * `uri_to_path(path_to_uri(p))` is `p` resolved, for every path whose
   * resolution is absolute and in parsed form; on a canonical path, which
   * `resolve` leaves as it is, it is `p` itself.
   */
  lemma UriRoundTrip(fs: FileSystem, p: Path)
    requires IsAbsolute(fs.resolve(p)) && Valid(fs.resolve(p))
    ensures UriToPath(PathToUri(fs, p)) == Ok(fs.resolve(p))
  {
    var r := fs.resolve(p);
    var q := Quote(ToString(r));
    QuoteAbsolute(r);
    UrlSplitFileUri(q, PathToUri(fs, p));
    UnquoteQuote(ToString(r));
    ParseToString(r);
  }

  /**
   * `uri_to_path` on "file://" and encoded text reads the percent-decoded
   * text as the path.
   */
  lemma UriToPathDecodes(q: string, uri: string)
    requires uri == "file://" + q
    requires q != [] && q[0] == '/'
    requires forall i :: 0 <= i < |q| ==> IsQuotedChar(q[i])
    ensures UriToPath(uri) == Ok(Parse(Unquote(q)))
  {
    UrlSplitFileUri(q, uri);
  }
}

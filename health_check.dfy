/**
 * The version check of the `health_check` tool
 * (`tools/health_check.py`): reading the version token out of the output of
 * `pyright --version`, parsing "major.minor.patch" with an optional
 * pre-release suffix, and comparing it with the minimum supported release.
 * Running the executable is not part of the model: its output, exit code and
 * error stream are parameters.
 */
module HealthCheck {
  import opened Wrappers
  import opened Strings

  /** The oldest supported Pyright release. */
  const MinimumVersion := "1.1.350"

  datatype Version = Version(major: int, minor: int, patch: int)

  /** Python's tuple comparison `(major, minor, patch) >= (major', minor', patch')`. */
  predicate AtLeast(v: Version, w: Version) {
    v.major > w.major
    || (v.major == w.major && (v.minor > w.minor || (v.minor == w.minor && v.patch >= w.patch)))
  }

  /**
   * `_parse_version`: everything from the first "-" on is dropped, the rest
   * is split on "."; fewer than three fields, or a first three fields that
   * `int()` rejects, give `None`; fields after the third are ignored.
   */
  function ParseVersion(s: string): (r: Option<Version>) {
    var versionOnly := Split(s, '-')[0];
    var parts := Split(versionOnly, '.');
    if |parts| < 3 then None
    else
      var major, minor, patch := PyInt(parts[0]), PyInt(parts[1]), PyInt(parts[2]);
      if major.None? || minor.None? || patch.None? then None
      else Some(Version(major.value, minor.value, patch.value))
  }

  /**
   * `_is_version_compatible`: `None` and "" are not compatible, nor is a
   * string that does not parse; otherwise the parsed version is compared
   * with the minimum.
   */
  function IsVersionCompatible(version: Option<string>): (b: bool)
    ensures b ==> version.Some? && version.value != "" && ParseVersion(version.value).Some?
  {
    if version.None? || version.value == "" then false
    else
      var v, least := ParseVersion(version.value), ParseVersion(MinimumVersion);
      if v.None? || least.None? then false
      else AtLeast(v.value, least.value)
  }

  /** `s.startswith(prefix)`. */
  predicate StartsWith(s: string, prefix: string) {
    |prefix| <= |s| && s[..|prefix|] == prefix
  }

  /**
   * The version token of a successful `pyright --version`: the output is
   * stripped; if it starts with "pyright" and splits into at least two
   * whitespace-separated words, the second word, otherwise the whole
   * stripped output.
   */
  function VersionToken(stdout: string): (v: string)
    ensures var out := Strip(stdout);
      v == out || (StartsWith(out, "pyright") && |SplitWs(out)| > 1 && v == SplitWs(out)[1])
  {
    var out := Strip(stdout);
    if StartsWith(out, "pyright") then
      var words := SplitWs(out);
      if |words| > 1 then words[1] else out
    else out
  }

  /** What `_get_pyright_version` makes of a finished run: a version, or `execution_error` with a message. */
  datatype VersionProbe = Found(version: string) | ExecutionError(message: string)

  /** A zero exit code gives the version token; any other, the stripped error stream, or the output if that is empty. */
  function ProbeVersion(stdout: string, stderr: string, returnCode: int): (r: VersionProbe)
    ensures returnCode == 0 <==> r.Found?
    ensures r.Found? ==> r.version == VersionToken(stdout)
    ensures r.ExecutionError? ==> r.message == (if Strip(stderr) != "" then Strip(stderr) else Strip(stdout))
  {
    if returnCode == 0 then Found(VersionToken(stdout))
    else
      var err := Strip(stderr);
      ExecutionError(if err != "" then err else Strip(stdout))
  }

  // ---------------------------------------------------------------------
  // Properties

  /** "major.minor.patch" written with `str` of three naturals. */
  function Render(a: nat, b: nat, c: nat): string {
    NatToString(a) + "." + NatToString(b) + "." + NatToString(c)
  }

  /** A string of digits contains neither separator. */
  lemma DigitsHaveNoSeparator(s: string)
    requires AllDigits(s)
    ensures '.' !in s && '-' !in s
  {
  }

  /** A character in none of three fields, and not ".", is not in their dotted join. */
  lemma NotInDotted(x: string, y: string, z: string, ch: char)
    requires ch !in x && ch !in y && ch !in z && ch != '.'
    ensures ch !in x + "." + y + "." + z
  {
    assert x + "." + y + "." + z == x + ("." + (y + ("." + z)));
  }

  /** Three dot-free fields split into exactly those fields. */
  lemma SplitThree(x: string, y: string, z: string)
    requires '.' !in x && '.' !in y && '.' !in z
    ensures Split(x + "." + y + "." + z, '.') == [x, y, z]
  {
    var yz := y + "." + z;
    assert x + "." + y + "." + z == x + "." + yz;
    SplitDot(y, z);
    SplitDot(x, yz);
    SplitHead(z, '.');
  }

  /** A dot-free field, a dot and more: `split(".")` yields the field first. */
  lemma SplitDot(x: string, rest: string)
    requires '.' !in x
    ensures Split(x + "." + rest, '.') == [x] + Split(rest, '.')
  {
    assert x + "." + rest == x + ['.'] + rest;
    SplitCons(x, '.', rest);
  }

  /** Regrouping a dotted concatenation to the right. */
  lemma DottedRight(x: string, y: string, z: string, rest: string)
    ensures x + "." + y + "." + z + "." + rest == x + "." + (y + "." + (z + "." + rest))
  {
  }

  /** Three dot-free fields and a tail: the first three fields come first. */
  lemma SplitFour(x: string, y: string, z: string, rest: string)
    requires '.' !in x && '.' !in y && '.' !in z
    ensures var parts := Split(x + "." + y + "." + z + "." + rest, '.');
      |parts| >= 3 && parts[0] == x && parts[1] == y && parts[2] == z
  {
    var zr := z + "." + rest;
    var yzr := y + "." + zr;
    var whole := x + "." + y + "." + z + "." + rest;
    assert whole == x + "." + yzr by {
      DottedRight(x, y, z, rest);
    }
    var tail := Split(rest, '.');
    assert Split(zr, '.') == [z] + tail by {
      SplitDot(z, rest);
    }
    assert Split(yzr, '.') == [y] + ([z] + tail) by {
      SplitDot(y, zr);
    }
    assert Split(whole, '.') == [x] + ([y] + ([z] + tail)) by {
      SplitDot(x, yzr);
    }
  }

  /** With no "-" in the string, the pre-release cut keeps all of it. */
  lemma NoDashKeepsAll(s: string)
    requires '-' !in s
    ensures Split(s, '-')[0] == s
  {
    SplitHead(s, '-');
  }

  /** Parsing the rendering of three naturals gives them back. */
  lemma ParseRender(a: nat, b: nat, c: nat)
    ensures ParseVersion(Render(a, b, c)) == Some(Version(a, b, c))
  {
    var x, y, z := NatToString(a), NatToString(b), NatToString(c);
    DigitsHaveNoSeparator(x);
    DigitsHaveNoSeparator(y);
    DigitsHaveNoSeparator(z);
    NotInDotted(x, y, z, '-');
    NoDashKeepsAll(Render(a, b, c));
    SplitThree(x, y, z);
    PyIntOfNatToString(a);
    PyIntOfNatToString(b);
    PyIntOfNatToString(c);
  }

  /** Everything from the first "-" on is ignored. */
  lemma {:induction false} SuffixIgnored(s: string, suffix: string)
    requires '-' !in s
    ensures ParseVersion(s + "-" + suffix) == ParseVersion(s)
  {
    SplitCons(s, '-', suffix);
    assert s + "-" + suffix == s + ['-'] + suffix;
    NoDashKeepsAll(s);
  }

  /**
   * Three fields parse exactly when each is an integer to `int()`, giving
   * those integers; a non-integer field gives `None`.
   */
  lemma ThreeFields(x: string, y: string, z: string)
    requires '.' !in x && '.' !in y && '.' !in z
    requires '-' !in x && '-' !in y && '-' !in z
    ensures ParseVersion(x + "." + y + "." + z).Some? <==> PyInt(x).Some? && PyInt(y).Some? && PyInt(z).Some?
    ensures ParseVersion(x + "." + y + "." + z).Some? ==>
      ParseVersion(x + "." + y + "." + z).value == Version(PyInt(x).value, PyInt(y).value, PyInt(z).value)
  {
    NotInDotted(x, y, z, '-');
    NoDashKeepsAll(x + "." + y + "." + z);
    SplitThree(x, y, z);
  }

  /** Fields after the third do not change the result. */
  lemma ExtraFieldsIgnored(x: string, y: string, z: string, rest: string)
    requires '.' !in x && '.' !in y && '.' !in z
    requires '-' !in x && '-' !in y && '-' !in z && '-' !in rest
    ensures ParseVersion(x + "." + y + "." + z + "." + rest) == ParseVersion(x + "." + y + "." + z)
  {
    var s := x + "." + y + "." + z;
    NotInDotted(x, y, z, '-');
    assert '-' !in s + "." + rest by {
      assert s + "." + rest == s + ("." + rest);
    }
    NoDashKeepsAll(s);
    NoDashKeepsAll(s + "." + rest);
    SplitThree(x, y, z);
    SplitFour(x, y, z, rest);
  }

  /** Two fields are too few. */
  lemma TwoFieldsRejected(x: string, y: string)
    requires '.' !in x && '.' !in y && '-' !in x && '-' !in y
    ensures ParseVersion(x + "." + y) == None
  {
    var s := x + "." + y;
    assert '-' !in s by {
      assert forall ch :: ch in s ==> ch in x || ch in y || ch == '.';
    }
    NoDashKeepsAll(s);
    SplitCons(x, '.', y);
    assert s == x + ['.'] + y;
    SplitHead(y, '.');
  }

  /**
   * Fewer than three fields never parse: a version whose text before the
   * first "-" holds fewer than two dots gives `None`, whatever its fields.
   */
  lemma FewerThanThreeFieldsRejected(s: string)
    requires Occurrences(Split(s, '-')[0], '.') < 2
    ensures ParseVersion(s) == None
  {
    SplitCountsFields(Split(s, '-')[0], '.');
  }

  /** The minimum is release 1.1.350. */
  lemma MinimumParses()
    ensures ParseVersion(MinimumVersion) == Some(Version(1, 1, 350))
  {
    assert NatToString(1) == "1";
    assert NatToString(350) == "350" by {
      assert NatToString(35) == "35" by {
        assert NatToString(3) == "3";
      }
    }
    assert Render(1, 1, 350) == MinimumVersion;
    ParseRender(1, 1, 350);
  }

  /** Compatibility is the tuple comparison with (1, 1, 350) on what parses, and false on anything else. */
  lemma CompatibleIff(version: Option<string>)
    ensures IsVersionCompatible(version) <==>
      version.Some? && ParseVersion(version.value).Some? && AtLeast(ParseVersion(version.value).value, Version(1, 1, 350))
  {
    MinimumParses();
    if version.Some? && version.value == "" {
      TwoOrFewerEmpty();
    }
  }

  /** The empty string has a single, empty field and so does not parse. */
  lemma TwoOrFewerEmpty()
    ensures ParseVersion("") == None
  {
    SplitHead("", '-');
    SplitHead("", '.');
  }

  /** A rendered release is compatible exactly when it is 1.1.350 or later. */
  lemma RenderedCompatible(a: nat, b: nat, c: nat)
    ensures IsVersionCompatible(Some(Render(a, b, c))) <==> AtLeast(Version(a, b, c), Version(1, 1, 350))
  {
    ParseRender(a, b, c);
    CompatibleIff(Some(Render(a, b, c)));
  }

  /** An output that is already stripped and starts with "pyright": its second word, if it has one. */
  lemma TokenOfStripped(out: string, words: seq<string>)
    requires Strip(out) == out && StartsWith(out, "pyright") && SplitWs(out) == words && |words| > 1
    ensures VersionToken(out) == words[1]
  {
  }

  /** The program name is a single word. */
  lemma NameIsWord()
    ensures "pyright" != "" && NoSpace("pyright")
  {
    var name := "pyright";
    forall i | 0 <= i < |name| ensures !IsSpace(name[i]) {
      assert name[i] in "pyright";
    }
  }

  /** Two words joined by a space. */
  lemma JoinPair(a: string, b: string)
    ensures Join([a, b], " ") == a + " " + b
  {
    assert [a, b][1..] == [b];
  }

  /** Two words make a list of words. */
  lemma WordsPair(a: string, b: string)
    requires a != "" && NoSpace(a) && b != "" && NoSpace(b)
    ensures Words([a, b])
  {
  }

  /** "pyright" and one more word split into those two words. */
  lemma SplitNameAndWord(v: string)
    requires v != "" && NoSpace(v)
    ensures SplitWs("pyright " + v) == ["pyright", v]
  {
    NameIsWord();
    WordsPair("pyright", v);
    SplitWsJoin(["pyright", v]);
    assert Join(["pyright", v], " ") == "pyright " + v by {
      JoinPair("pyright", v);
      assert "pyright" + " " == "pyright ";
    }
  }

  /** "pyright" and a word is its own strip. */
  lemma StripNameAndWord(v: string)
    requires v != "" && NoSpace(v)
    ensures Strip("pyright " + v) == "pyright " + v
  {
    var out := "pyright " + v;
    assert !IsSpace(out[0]) && out[|out| - 1] == v[|v| - 1];
    assert LStrip(out) == out;
  }

  /** "pyright " and a word: the word is the version token. */
  lemma TokenAfterName(v: string)
    requires v != "" && NoSpace(v)
    ensures VersionToken("pyright " + v) == v
  {
    var out := "pyright " + v;
    SplitNameAndWord(v);
    StripNameAndWord(v);
    assert StartsWith(out, "pyright");
    TokenOfStripped(out, ["pyright", v]);
  }

  /** The output "pyright a.b.c" passes the check exactly when a.b.c is 1.1.350 or later. */
  lemma ReportedVersionCompatible(a: nat, b: nat, c: nat)
    ensures IsVersionCompatible(Some(VersionToken("pyright " + Render(a, b, c))))
      <==> AtLeast(Version(a, b, c), Version(1, 1, 350))
  {
    var v := Render(a, b, c);
    assert NoSpace(v) by {
      var x, y, z := NatToString(a), NatToString(b), NatToString(c);
      assert v == x + "." + y + "." + z;
      forall i | 0 <= i < |v| ensures !IsSpace(v[i]) {
        assert v[i] in x || v[i] in y || v[i] in z || v[i] == '.';
        if v[i] in x { var k :| 0 <= k < |x| && x[k] == v[i]; assert IsDigit(x[k]); }
        if v[i] in y { var k :| 0 <= k < |y| && y[k] == v[i]; assert IsDigit(y[k]); }
        if v[i] in z { var k :| 0 <= k < |z| && z[k] == v[i]; assert IsDigit(z[k]); }
      }
    }
    TokenAfterName(v);
    RenderedCompatible(a, b, c);
  }
}

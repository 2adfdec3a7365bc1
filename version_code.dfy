/** The release version code derived from the version name in app/build.gradle.kts:
    the name before its first "-" is split on "." and the first three parts become
    major * 1 000 000 + minor * 1 000 + patch, in Kotlin's 32-bit `Int` arithmetic. */
module VersionCode {
  import opened Wrappers
  import opened Strings
  import opened Decimal

  const DEFAULT_VERSION_NAME: string := "1.0.0"

  /** The exceptions the expression can throw while the build script is evaluated. */
  datatype BuildError =
    | NumberFormat(input: string)
    | IndexOutOfBounds(index: nat)

  const TWO_TO_32: int := 0x1_0000_0000

  /** Kotlin `Int` wrap-around. */
  function Wrap32(x: int): (r: int)
    ensures IsInt32(r)
    ensures (r - x) % TWO_TO_32 == 0
    ensures IsInt32(x) ==> r == x
  {
    (x - INT_MIN) % TWO_TO_32 + INT_MIN
  }

  /** `major * 1_000_000 + minor * 1_000 + patch`, one wrapped `Int` operation at a time. */
  function Encode(major: int, minor: int, patch: int): (r: int)
    ensures IsInt32(r)
  {
    Wrap32(Wrap32(Wrap32(major * 1_000_000) + Wrap32(minor * 1_000)) + patch)
  }

  /** `it[i].toInt()` for the split parts. */
  function Part(parts: seq<string>, i: nat): (r: Result<int, BuildError>)
    ensures i >= |parts| ==> r == Failure(IndexOutOfBounds(i))
    ensures i < |parts| && ParseInt(parts[i]).None? ==> r == Failure(NumberFormat(parts[i]))
    ensures i < |parts| && ParseInt(parts[i]).Some? ==> r == Success(ParseInt(parts[i]).value)
  {
    if i >= |parts| then Failure(IndexOutOfBounds(i))
    else match ParseInt(parts[i])
      case None => Failure(NumberFormat(parts[i]))
      case Some(v) => Success(v)
  }

  /** The dot-separated parts of the name's release part. */
  function Parts(versionName: Option<string>): seq<string> {
    SplitOn(SubstringBefore(versionName.GetOr(DEFAULT_VERSION_NAME), "-"), '.')
  }

  /** `versionCode`, with Kotlin's left-to-right evaluation: the first failing index
      or conversion is the error. */
  function VersionCode(versionName: Option<string>): (r: Result<int, BuildError>)
    ensures r.Success? ==> IsInt32(r.value)
  {
    var parts := Parts(versionName);
    match Part(parts, 0)
    case Failure(e) => Failure(e)
    case Success(major) =>
      match Part(parts, 1)
      case Failure(e) => Failure(e)
      case Success(minor) =>
        match Part(parts, 2)
        case Failure(e) => Failure(e)
        case Success(patch) => Success(Encode(major, minor, patch))
  }

  /** The version code is defined exactly when the release part has at least three
      parts and the first three are integers; it is then their encoding. */
  lemma VersionCodeDefined(versionName: Option<string>)
    ensures var parts := Parts(versionName);
      VersionCode(versionName).Success? <==>
        |parts| >= 3 && ParseInt(parts[0]).Some? && ParseInt(parts[1]).Some? && ParseInt(parts[2]).Some?
    ensures var parts := Parts(versionName);
      VersionCode(versionName).Success? ==>
        VersionCode(versionName).value ==
          Encode(ParseInt(parts[0]).value, ParseInt(parts[1]).value, ParseInt(parts[2]).value)
  {
  }

  /** Too few parts fails on the first missing index; a bad leading part fails before it. */
  lemma MissingPart(versionName: Option<string>)
    requires |Parts(versionName)| < 3
    ensures var parts := Parts(versionName);
      VersionCode(versionName) ==
        if ParseInt(parts[0]).None? then Failure(NumberFormat(parts[0]))
        else if |parts| < 2 then Failure(IndexOutOfBounds(1))
        else if ParseInt(parts[1]).None? then Failure(NumberFormat(parts[1]))
        else Failure(IndexOutOfBounds(2))
  {
  }

  /** The rendered name of a version triple. */
  function Render(major: nat, minor: nat, patch: nat): string {
    DecimalString(major) + "." + DecimalString(minor) + "." + DecimalString(patch)
  }

  /** Three separator-free pieces joined by dots split back into those pieces. */
  lemma SplitThree(a: string, b: string, c: string)
    requires '.' !in a && '.' !in b && '.' !in c
    ensures SplitOn(a + "." + b + "." + c, '.') == [a, b, c]
  {
    assert a + "." + b + "." + c == a + ['.'] + (b + ['.'] + c);
    SplitOnCons(a, '.', b + ['.'] + c);
    SplitOnCons(b, '.', c);
    SplitOnNone(c, '.');
  }

  /** The release part of a name is everything before its first "-". */
  lemma ReleasePart(core: string, suffix: Option<string>)
    requires '-' !in core
    ensures SubstringBefore(if suffix.Some? then core + "-" + suffix.value else core, "-") == core
  {
    if suffix.Some? {
      BeforeDelimiter(core, '-', suffix.value);
      assert core + "-" + suffix.value == core + ['-'] + suffix.value;
    } else {
      BeforeDelimiter(core, '-', "");
    }
  }

  lemma RenderHasNoDash(major: nat, minor: nat, patch: nat)
    ensures '-' !in Render(major, minor, patch)
  {
    var a, b, c := DecimalString(major), DecimalString(minor), DecimalString(patch);
    NotInDigits(a, '-');
    NotInDigits(b, '-');
    NotInDigits(c, '-');
    var r := Render(major, minor, patch);
    forall i | 0 <= i < |r| ensures r[i] != '-' {
      if i < |a| {
        assert r[i] == a[i];
      } else if i == |a| || i == |a| + 1 + |b| {
        assert r[i] == '.';
      } else if i < |a| + 1 + |b| {
        assert r[i] == b[i - |a| - 1];
      } else {
        assert r[i] == c[i - |a| - |b| - 2];
      }
    }
  }

  lemma RenderParts(major: nat, minor: nat, patch: nat, suffix: Option<string>)
    ensures var name := if suffix.Some? then Render(major, minor, patch) + "-" + suffix.value
                        else Render(major, minor, patch);
      Parts(Some(name)) == [DecimalString(major), DecimalString(minor), DecimalString(patch)]
  {
    var a, b, c := DecimalString(major), DecimalString(minor), DecimalString(patch);
    RenderHasNoDash(major, minor, patch);
    ReleasePart(Render(major, minor, patch), suffix);
    NotInDigits(a, '.');
    NotInDigits(b, '.');
    NotInDigits(c, '.');
    SplitThree(a, b, c);
  }

  /** Encoding stays in `Int` range, without wrapping, for majors up to 2146 and
      minor and patch up to 999. */
  lemma EncodeExact(major: int, minor: int, patch: int)
    requires 0 <= major <= 2146 && 0 <= minor <= 999 && 0 <= patch <= 999
    ensures Encode(major, minor, patch) == major * 1_000_000 + minor * 1_000 + patch
  {
    assert IsInt32(major * 1_000_000);
    assert IsInt32(minor * 1_000);
    assert IsInt32(major * 1_000_000 + minor * 1_000);
  }

  /** A rendered version, with or without a pre-release suffix, encodes to
      major * 1 000 000 + minor * 1 000 + patch. */
  lemma VersionCodeOfRender(major: nat, minor: nat, patch: nat, suffix: Option<string>)
    requires major <= 2146 && minor <= 999 && patch <= 999
    ensures var name := if suffix.Some? then Render(major, minor, patch) + "-" + suffix.value
                        else Render(major, minor, patch);
      VersionCode(Some(name)) == Success(major * 1_000_000 + minor * 1_000 + patch)
  {
    RenderParts(major, minor, patch, suffix);
    ParseIntOfDecimal(major);
    ParseIntOfDecimal(minor);
    ParseIntOfDecimal(patch);
    EncodeExact(major, minor, patch);
  }

  /** A pre-release suffix never changes the version code. */
  lemma PreReleaseIgnored(core: string, suffix: string)
    requires '-' !in core
    ensures VersionCode(Some(core + "-" + suffix)) == VersionCode(Some(core))
  {
    ReleasePart(core, Some(suffix));
    ReleasePart(core, None);
  }

  /** Parts after the third are ignored. */
  lemma ExtraPartsIgnored(name: string, extra: string)
    requires '-' !in name && '-' !in extra
    requires |Parts(Some(name))| >= 3
    ensures VersionCode(Some(name + "." + extra)) == VersionCode(Some(name))
  {
    ReleasePart(name, None);
    var joined := name + "." + extra;
    assert joined == name + ['.'] + extra;
    assert '-' !in joined;
    ReleasePart(joined, None);
    SplitOnJoin(name, '.', extra);
    var p := Parts(Some(name));
    var q := Parts(Some(joined));
    assert q == p + SplitOn(extra, '.');
    forall i | 0 <= i < 3 ensures Part(q, i) == Part(p, i) {
      assert q[i] == p[i];
    }
  }

  /** On the range where nothing wraps, the encoding is one-to-one and orders
      versions lexicographically. */
  lemma EncodeOrder(a1: int, b1: int, c1: int, a2: int, b2: int, c2: int)
    requires 0 <= a1 <= 2146 && 0 <= b1 <= 999 && 0 <= c1 <= 999
    requires 0 <= a2 <= 2146 && 0 <= b2 <= 999 && 0 <= c2 <= 999
    ensures Encode(a1, b1, c1) == Encode(a2, b2, c2) <==> a1 == a2 && b1 == b2 && c1 == c2
    ensures Encode(a1, b1, c1) < Encode(a2, b2, c2) <==>
      a1 < a2 || (a1 == a2 && (b1 < b2 || (b1 == b2 && c1 < c2)))
  {
    EncodeExact(a1, b1, c1);
    EncodeExact(a2, b2, c2);
    var x := b1 * 1_000 + c1;
    var y := b2 * 1_000 + c2;
    assert 0 <= x < 1_000_000 && 0 <= y < 1_000_000;
    if a1 < a2 {
      assert a1 * 1_000_000 + 1_000_000 <= a2 * 1_000_000;
    } else if a2 < a1 {
      assert a2 * 1_000_000 + 1_000_000 <= a1 * 1_000_000;
    }
  }

  lemma RenderDefault()
    ensures Render(1, 0, 0) == DEFAULT_VERSION_NAME
  {
    assert DecimalString(1) == "1";
    assert DecimalString(0) == "0";
  }

  /** Without a name the default "1.0.0" gives 1 000 000. */
  lemma DefaultVersionCode()
    ensures VersionCode(None) == Success(1_000_000)
  {
    RenderDefault();
    VersionCodeOfRender(1, 0, 0, None);
  }

  /** Past major 2147 the code wraps: "2148.0.0" gives a negative version code. */
  lemma LargeMajorWraps()
    ensures Encode(2148, 0, 0) == 2_148_000_000 - TWO_TO_32
    ensures VersionCode(Some("2148.0.0")) == Success(2_148_000_000 - TWO_TO_32)
  {
    EncodeLargeMajor();
    RenderLargeMajor();
    RenderedCode(2148, 0, 0);
  }

  lemma EncodeLargeMajor()
    ensures Encode(2148, 0, 0) == 2_148_000_000 - TWO_TO_32
  {
  }

  lemma RenderLargeMajor()
    ensures Render(2148, 0, 0) == "2148.0.0"
  {
    DecimalLargeMajor();
    assert DecimalString(0) == [DigitChar(0)];
  }

  lemma DecimalLargeMajor()
    ensures DecimalString(2148) == "2148"
  {
    DecimalStep(2148);
    DecimalStep(214);
    DecimalStep(21);
    assert DecimalString(2) == [DigitChar(2)];
  }

  /** Any rendered triple of `Int` parts reads back to its wrapped encoding. */
  lemma RenderedCode(major: nat, minor: nat, patch: nat)
    requires major <= INT_MAX && minor <= INT_MAX && patch <= INT_MAX
    ensures VersionCode(Some(Render(major, minor, patch))) == Success(Encode(major, minor, patch))
  {
    RenderParts(major, minor, patch, None);
    ParseIntOfDecimal(major);
    ParseIntOfDecimal(minor);
    ParseIntOfDecimal(patch);
  }
}

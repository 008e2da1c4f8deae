/**
 * The service's records (leagues, skill gems, ROI results) and the gem
 * classification helpers: colour names, the colour encoded in a gem's icon
 * URL, and the transfigured-gem test.
 */
module Models {
  import opened Common
  import opened Text

  /** A league as the service reports it. */
  datatype League = League(name: string, displayName: Option<string>, hardcore: bool, indexed: bool)

  /** A rule attached to a league by the official API. */
  datatype LeagueRule = LeagueRule(id: string, name: Option<string>)

  /** A league as the official API reports it. */
  datatype OfficialLeague = OfficialLeague(
    id: string,
    realm: Option<string>,
    endAt: Option<string>,
    rules: Option<seq<LeagueRule>>)

  /**
   * The fields of a market line the ROI calculation reads. `tradeFilter`
   * holds the raw JSON of the field when present; chaos values are reals.
   */
  datatype SkillGem = SkillGem(
    name: string,
    chaosValue: Option<real>,
    tradeFilter: Option<string>,
    corrupted: Option<bool>,
    gemLevel: Option<nat>,
    gemQuality: Option<nat>,
    icon: Option<string>)

  /** One gem of a colour bucket with the probability attached to its rank. */
  datatype GemValue = GemValue(name: string, chaosValue: real, probability: real)

  datatype CalculationResponse = CalculationResponse(
    redRoi: real, greenRoi: real, blueRoi: real,
    redGems: seq<GemValue>, greenGems: seq<GemValue>, blueGems: seq<GemValue>)

  datatype GemColor = Red | Green | Blue

  /** `GemColor::as_str`. */
  function AsStr(c: GemColor): string {
    match c
    case Red => "red"
    case Green => "green"
    case Blue => "blue"
  }

  /** Distinct colours have distinct names. */
  lemma AsStrInjective(a: GemColor, b: GemColor)
    ensures AsStr(a) == AsStr(b) <==> a == b
    ensures AsStr(a) in {"red", "green", "blue"}
  {
  }

  /** The `gd` codes of each colour's icons. */
  function GdCodes(c: GemColor): set<nat> {
    match c
    case Red => {5, 6}
    case Green => {9, 10}
    case Blue => {13, 14}
  }

  /** The colour a `gd` (gem display) code stands for. */
  function GdColor(gd: nat): (r: Option<GemColor>)
    ensures r.Some? ==> gd in GdCodes(r.value)
    ensures r.None? ==> forall c: GemColor :: gd !in GdCodes(c)
  {
    if gd == 5 || gd == 6 then Some(Red)
    else if gd == 9 || gd == 10 then Some(Green)
    else if gd == 13 || gd == 14 then Some(Blue)
    else None
  }

  /** The code table, read both ways: `gd` maps to `c` exactly when it is one of `c`'s codes. */
  lemma GdColorMatchesCodes(gd: nat, c: GemColor)
    ensures GdColor(gd) == Some(c) <==> gd in GdCodes(c)
  {
  }

  const GdKey: string := "\"gd\":"

  /**
   * The `gd` value in the icon's decoded JSON: the digits after the first
   * `"gd":`, read up to the next occurrence of the key, as a `u32`.
   */
  function GdValue(json: string): Option<nat> {
    match SplitSecond(json, GdKey)
    case None => None
    case Some(piece) => ParseU32(TakeDigits(piece))
  }

  /** A prefix of `s` that stops at a non-digit has the same leading digits as `s`. */
  lemma {:induction false} TakeDigitsOfPrefix(s: string, p: string)
    requires p <= s
    requires |p| == |s| || !IsAsciiDigit(s[|p|])
    ensures TakeDigits(p) == TakeDigits(s)
  {
    if p != [] && IsAsciiDigit(p[0]) {
      assert s[0] == p[0];
      TakeDigitsOfPrefix(s[1..], p[1..]);
    } else if p == [] && s != [] {
      assert !IsAsciiDigit(s[0]);
    }
  }

  /**
   * The `gd` value is the maximal run of ASCII digits right after the first
   * `"gd":`; no key, an empty run or a run above `u32::MAX` gives nothing.
   */
  lemma GdValueIsDigitRunAfterKey(json: string)
    ensures GdValue(json) == match AfterFirst(json, GdKey)
                             case None => None
                             case Some(rest) => ParseU32(TakeDigits(rest))
  {
    match AfterFirst(json, GdKey)
    case None =>
    case Some(rest) =>
      var piece := UpTo(rest, GdKey);
      if Contains(rest, GdKey) {
        assert rest[|piece|] == '"';
      }
      TakeDigitsOfPrefix(rest, piece);
  }

  /** The colour the `gd` value in an icon's decoded JSON stands for. */
  function ColorOfJson(json: string): (r: Option<GemColor>)
    ensures forall c: GemColor :: r == Some(c) <==> GdValue(json).Some? && GdValue(json).value in GdCodes(c)
  {
    match GdValue(json)
    case None => None
    case Some(gd) => GdColor(gd)
  }

  const ImageDir: string := "/image/"

  /**
   * The path segment holding the encoded JSON: the piece after the first
   * `/image/` (up to any second one), cut at its first `/`. That is the
   * longest run free of `/` right after the first `/image/`.
   */
  function IconSegment(url: string): (r: Option<string>)
    ensures r.None? <==> !Contains(url, ImageDir)
    ensures r.Some? ==> var rest := AfterFirst(url, ImageDir).value;
                        && r.value <= rest && '/' !in r.value
                        && (|r.value| == |rest| || rest[|r.value|] == '/')
  {
    match SplitSecond(url, ImageDir)
    case None => None
    case Some(piece) =>
      ImageCutIsSlashCut(AfterFirst(url, ImageDir).value);
      Some(UpTo(piece, "/"))
  }

  /** Cutting at a second `/image/` and then at the first `/` is cutting at the first `/`. */
  lemma ImageCutIsSlashCut(rest: string)
    ensures var seg := UpTo(UpTo(rest, ImageDir), "/");
            && seg <= rest && '/' !in seg
            && (|seg| == |rest| || rest[|seg|] == '/')
  {
    var piece := UpTo(rest, ImageDir);
    UpToChar(piece, '/');
    var seg := UpTo(piece, "/");
    if |seg| < |piece| {
      assert rest[|seg|] == piece[|seg|];
    } else if |piece| < |rest| {
      assert rest[|piece|..|piece| + 7][0] == rest[|piece|];
    }
  }

  /** `GemColor::from_icon_url`, with base64 and UTF-8 decoding abstracted as `decodeSegment`. */
  function FromIconUrl(url: string, decodeSegment: string -> Option<string>): (r: Option<GemColor>)
    ensures !Contains(url, ImageDir) ==> r == None
    ensures forall c: GemColor :: r == Some(c) <==>
              && IconSegment(url).Some?
              && decodeSegment(IconSegment(url).value).Some?
              && var gd := GdValue(decodeSegment(IconSegment(url).value).value);
              && gd.Some? && gd.value in GdCodes(c)
  {
    match IconSegment(url)
    case None => None
    case Some(segment) =>
      match decodeSegment(segment)
      case None => None
      case Some(json) => ColorOfJson(json)
  }

  /**
   * When `/image/` does not occur in `host` (nor straddle its end), the first
   * `/image/` of `host + "/image/" + b` is the one after `host`.
   */
  lemma AfterFirstImage(host: string, b: string)
    requires !Contains(host + "/", ImageDir)
    ensures AfterFirst(host + ImageDir + b, ImageDir) == Some(b)
  {
    var s := host + ImageDir + b;
    var h := host + "/";
    assert OccursAt(s, ImageDir, |host|);
    forall j: nat | j < |host| ensures !OccursAt(s, ImageDir, j) {
      if j + 7 <= |h| {
        assert s[j..j + 7] == h[j..j + 7];
        assert !OccursAt(h, ImageDir, j);
      } else {
        var d := |host| - j;
        assert s[j..j + 7][d] == s[|host|] == '/';
        assert ImageDir[d] != '/';
      }
    }
    assert s[|host| + 7..] == b;
  }

  /**
   * For an icon URL shaped `<host>/image/<segment>/<rest>`, the segment read
   * is exactly `<segment>`, whatever `<rest>` holds.
   */
  lemma IconSegmentOfShape(host: string, segment: string, rest: string)
    requires !Contains(host + "/", ImageDir) && '/' !in segment
    ensures IconSegment(host + ImageDir + segment + "/" + rest) == Some(segment)
  {
    var b := segment + "/" + rest;
    assert host + ImageDir + segment + "/" + rest == host + ImageDir + b;
    AfterFirstImage(host, b);
    SegmentEndsAtSlash(segment, rest);
  }

  /** Whether or not `/image/` occurs again, the piece is cut at the first `/`. */
  lemma SegmentEndsAtSlash(segment: string, rest: string)
    requires '/' !in segment
    ensures UpTo(UpTo(segment + "/" + rest, ImageDir), "/") == segment
  {
    var b := segment + "/" + rest;
    var piece := UpTo(b, ImageDir);
    if Contains(b, ImageDir) {
      var k := |piece|;
      assert b[k..k + 7][0] == b[k];
      forall j | 0 <= j < |segment| ensures b[j] != '/' {
        assert b[j] == segment[j];
      }
      if k == |segment| {
        assert piece == segment;
        UpToCharFree(segment, '/', []);
      } else {
        assert piece == segment + "/" + b[|segment| + 1..k];
        UpToCharFree(segment, '/', b[|segment| + 1..k]);
      }
    } else {
      UpToCharFree(segment, '/', rest);
    }
  }

  /** The colour of such a URL is the colour of the JSON its segment decodes to. */
  lemma FromIconUrlOfShape(host: string, segment: string, rest: string, decodeSegment: string -> Option<string>)
    requires !Contains(host + "/", ImageDir) && '/' !in segment
    ensures FromIconUrl(host + ImageDir + segment + "/" + rest, decodeSegment) ==
              match decodeSegment(segment)
              case None => None
              case Some(json) => ColorOfJson(json)
  {
    IconSegmentOfShape(host, segment, rest);
  }

  /**
   * With no `g` before the key, the `gd` value is the number written right
   * after `"gd":`.
   */
  lemma GdAfterKeyFreePrefix(a: string, digits: string, tail: string)
    requires 'g' !in a
    requires AllDigits(digits) && (tail == [] || !IsAsciiDigit(tail[0]))
    ensures GdValue(a + GdKey + digits + tail) == ParseU32(digits)
  {
    assert a + GdKey + digits + tail == a + GdKey + (digits + tail);
    AfterFirstPastPrefix(a, GdKey, digits + tail);
    GdValueIsDigitRunAfterKey(a + GdKey + (digits + tail));
    TakeDigitsOfPrefix(digits + tail, digits);
    TakeDigitsOfDigits(digits);
  }

  // The decoded icon JSON of the gems in the module's tests, split where the
  // proofs below need it.
  const IconOpen: string := "[30,14,{\"f\":\""
  const GemsDir: string := "2DItems/Gems/"
  const MoltenStrikeHead: string := IconOpen + GemsDir + "MoltenStrike\""
  const ViperStrikeHead: string := IconOpen + GemsDir + "ViperStrike\""
  const SparkHead: string := IconOpen + GemsDir + "Spark\""
  const IconSize: string := ",\"w\":1,\"h\":1,\"scale\":1,"
  const MoltenStrikeJson: string := MoltenStrikeHead + IconSize + GdKey + "5" + "}]"
  const ViperStrikeJson: string := ViperStrikeHead + IconSize + GdKey + "9" + "}]"
  const SparkJson: string := SparkHead + IconSize + GdKey + "14" + "}]"
  const SupportOpen: string := "[25,14,{\"f\":\""
  const SupportDir: string := "Support/SupportPlus/"
  const SupportSize: string := ",\"w\":1,\"h\":1,\"scale\":1}]"
  const IncreasedAoePlusJson: string := SupportOpen + GemsDir + SupportDir + "IncreasedAOEPlus\"" + SupportSize

  /** The icon framing around the gem names holds no `g`. */
  lemma FramingLacksG()
    ensures 'g' !in IconOpen && 'g' !in GemsDir && 'g' !in IconSize
    ensures 'g' !in SupportOpen && 'g' !in SupportDir && 'g' !in SupportSize
  {
  }

  /** Molten Strike (`gd` 5) is red. */
  lemma MoltenStrikeIsRed()
    ensures ColorOfJson(MoltenStrikeJson) == Some(Red)
  {
    FramingLacksG();
    assert 'g' !in "MoltenStrike\"";
    assert 'g' !in MoltenStrikeHead + IconSize;
    GdAfterKeyFreePrefix(MoltenStrikeHead + IconSize, "5", "}]");
    assert DigitsValue("5") == 5;
  }

  /** Viper Strike (`gd` 9) is green. */
  lemma ViperStrikeIsGreen()
    ensures ColorOfJson(ViperStrikeJson) == Some(Green)
  {
    FramingLacksG();
    assert 'g' !in "ViperStrike\"";
    assert 'g' !in ViperStrikeHead + IconSize;
    GdAfterKeyFreePrefix(ViperStrikeHead + IconSize, "9", "}]");
    assert DigitsValue("9") == 9;
  }

  /** Spark (`gd` 14) is blue. */
  lemma SparkIsBlue()
    ensures ColorOfJson(SparkJson) == Some(Blue)
  {
    FramingLacksG();
    assert 'g' !in "Spark\"";
    assert 'g' !in SparkHead + IconSize;
    GdAfterKeyFreePrefix(SparkHead + IconSize, "14", "}]");
    assert DigitsValue("14") == 14 by {
      assert "14"[..1] == "1";
    }
  }

  /** An awakened support gem's icon has no `gd` field and no colour. */
  lemma SupportGemHasNoColor()
    ensures ColorOfJson(IncreasedAoePlusJson) == None
  {
    FramingLacksG();
    assert 'g' !in "IncreasedAOEPlus\"";
    assert 'g' !in IncreasedAoePlusJson;
    MissingCharNoOccurrence(IncreasedAoePlusJson, GdKey, 1);
  }

  /** `is_transfigured_gem`: the name contains ` of `. */
  predicate IsTransfiguredGem(name: string) {
    Contains(name, " of ")
  }

  /** The examples of the module's tests. */
  lemma TransfiguredExamples()
    ensures IsTransfiguredGem("Spark of Unpredictability")
    ensures IsTransfiguredGem("Molten Strike of the Zenith")
    ensures !IsTransfiguredGem("Spark")
    ensures !IsTransfiguredGem("Awakened Multistrike Support")
  {
    assert OccursAt("Spark of Unpredictability", " of ", 5);
    assert OccursAt("Molten Strike of the Zenith", " of ", 13);
    MissingCharNoOccurrence("Spark", " of ", 0);
    assert 'f' !in "Awakened Multistrike Support";
    MissingCharNoOccurrence("Awakened Multistrike Support", " of ", 2);
  }

  /** A transfigured name stays transfigured whatever text surrounds it. */
  lemma TransfiguredIsSubstringMonotone(name: string, a: string, b: string)
    requires IsTransfiguredGem(name)
    ensures IsTransfiguredGem(a + name + b)
  {
    var i: nat :| i <= |name| && OccursAt(name, " of ", i);
    var s := a + name + b;
    assert s[|a| + i..|a| + i + 4] == name[i..i + 4];
    assert OccursAt(s, " of ", |a| + i);
  }
}

/**
 * Band parsing and candidate ID generation (download_json_core.py).
 *
 * A band is a pair (threshold, count) read from the configuration dictionary:
 * keys `kamihime_<x>` and `eidolon_<x>` give thresholds, their values counts.
 * A band produces the candidate IDs `round(threshold * 1000) + off` for
 * `off` in `1..count`. Thresholds are held as exact rationals, which is what
 * the decimal text in the configuration denotes.
 */
module Bands {
  import opened Base
  import opened Dict
  import opened Sorting

  // ---------------------------------------------------------------------------
  // float(str) and round()
  // ---------------------------------------------------------------------------

  function Pow10(n: nat): (r: nat)
    ensures r >= 1
  {
    if n == 0 then 1 else 10 * Pow10(n - 1)
  }

  /** Index of the first exponent marker `e` or `E`. */
  function FindExponent(s: string): (r: Option<nat>)
    ensures r.Some? ==> r.value < |s| && (s[r.value] == 'e' || s[r.value] == 'E')
    ensures r.None? ==> 'e' !in s && 'E' !in s
  {
    if |s| == 0 then None
    else if s[0] == 'e' || s[0] == 'E' then Some(0)
    else match FindExponent(s[1..])
      case None => None
      case Some(i) => Some(i + 1)
  }

  /** An exponent: an optional sign and a digit group, no surrounding blanks. */
  function ParseExponent(s: string): Option<int> {
    if |s| > 0 && (s[0] == '-' || s[0] == '+') then
      if DigitGroup(s[1..]) then
        var v := DigitsValue(s[1..]) as int;
        Some(if s[0] == '-' then -v else v)
      else None
    else if DigitGroup(s) then Some(DigitsValue(s))
    else None
  }

  /** A mantissa: `d`, `d.`, `.d` or `d.d` for digit groups `d`. */
  function ParseMantissa(s: string): Option<real> {
    match Find(s, '.')
    case None => if DigitGroup(s) then Some(DigitsValue(s) as real) else None
    case Some(i) => PointedMantissa(s[..i], s[i + 1..])
  }

  /** The mantissa with integer part `ip` and fraction `fp`, either of which may be empty. */
  function PointedMantissa(ip: string, fp: string): Option<real> {
    if (ip == "" || DigitGroup(ip)) && (fp == "" || DigitGroup(fp)) && (ip != "" || fp != "") then
      Some(DigitsValue(ip) as real + Fraction(DigitsValue(fp), |DigitsOf(fp)|))
    else None
  }

  /** `f / 10^k`, the value of `k` decimals `f`. */
  function Fraction(f: nat, k: nat): real {
    f as real / Pow10(k) as real
  }

  function Scale(v: real, e: int): real {
    if e >= 0 then v * Pow10(e) as real else v / Pow10(-e) as real
  }

  /** `float(s)` for a finite decimal literal; `None` where Python raises `ValueError`. */
  function ParseFloat(s: string): Option<real> {
    var t := Strip(s);
    var neg := |t| > 0 && t[0] == '-';
    var u := if |t| > 0 && (t[0] == '-' || t[0] == '+') then t[1..] else t;
    var m := match FindExponent(u)
      case None => ParseMantissa(u)
      case Some(i) =>
        match (ParseMantissa(u[..i]), ParseExponent(u[i + 1..]))
        case (Some(v), Some(e)) => Some(Scale(v, e))
        case _ => None;
    match m
    case None => None
    case Some(v) => Some(if neg then -v else v)
  }

  /**
   * Python's `round(y)` to an integer: the nearest integer, and the even one
   * when `y` lies exactly half-way between two.
   */
  function RoundHalfEven(y: real): (r: int)
    ensures -0.5 <= r as real - y <= 0.5
    ensures (r as real - y == 0.5 || y - r as real == 0.5) ==> r % 2 == 0
  {
    var f := y.Floor;
    var d := y - f as real;
    if d < 0.5 then f
    else if d > 0.5 then f + 1
    else if f % 2 == 0 then f else f + 1
  }

  /** The two properties of `RoundHalfEven` single out one integer. */
  lemma {:induction false} RoundHalfEvenUnique(y: real, r: int)
    requires -0.5 <= r as real - y <= 0.5
    requires (r as real - y == 0.5 || y - r as real == 0.5) ==> r % 2 == 0
    ensures r == RoundHalfEven(y)
  {
    var q := RoundHalfEven(y);
    assert -1 <= r - q <= 1;
    assert r - q != 1 && r - q != -1 by {
      assert (r + 1) % 2 != r % 2;
    }
  }

  /** The threshold times 1000, rounded: the first candidate ID of a band less one. */
  function Milli(x: real): int {
    RoundHalfEven(x * 1000.0)
  }

  lemma {:induction false} MilliOfInt(n: int)
    ensures Milli(n as real) == 1000 * n
  {
    RoundHalfEvenUnique(n as real * 1000.0, 1000 * n);
  }

  // ---------------------------------------------------------------------------
  // Bands from the configuration dictionary
  // ---------------------------------------------------------------------------

  datatype Band = Band(threshold: real, count: int)

  datatype Kind = Kamihime | Eidolon

  /** Python's order on `(float, int)` tuples. */
  predicate BandLe(a: Band, b: Band) {
    a.threshold < b.threshold || (a.threshold == b.threshold && a.count <= b.count)
  }

  lemma {:induction false} BandLeTotal()
    ensures TotalPreorder(BandLe)
  {
  }

  /** The band a `kamihime_<x>: <count>` setting gives. */
  function KamihimeBand(key: string, value: string): Option<Band> {
    if !StartsWith(key, "kamihime_") then None
    else match (ParseFloat(ReplaceAll(key, "kamihime_", "")), ParseInt(value))
      case (Some(x), Some(y)) => Some(Band(x, y))
      case _ => None
  }

  /**
   * The band an `eidolon_<a>[_<b>]: <count>` setting gives: the suffix split
   * at `_` is the threshold `a` or `a.b`; three or more parts give none.
   */
  function EidolonBand(key: string, value: string): Option<Band> {
    if !StartsWith(key, "eidolon_") then None
    else match (EidolonThreshold(Split(ReplaceAll(key, "eidolon_", ""), '_')), ParseInt(value))
      case (Some(x), Some(y)) => Some(Band(x, y))
      case _ => None
  }

  function EidolonThreshold(parts: seq<string>): Option<real> {
    if |parts| == 1 then ParseFloat(parts[0])
    else if |parts| == 2 then ParseFloat(parts[0] + "." + parts[1])
    else None
  }

  /** Without blanks, a sign or an exponent, `float(s)` reads `s` as a mantissa. */
  lemma {:induction false} ParseFloatPlain(s: string)
    requires |s| > 0 && Strip(s) == s && s[0] != '-' && s[0] != '+' && FindExponent(s).None?
    ensures ParseFloat(s) == ParseMantissa(s)
  {
  }

  predicate AllDigits(s: string) {
    forall i :: 0 <= i < |s| ==> IsDigit(s[i])
  }

  lemma {:induction false} DigitsPlain(s: string)
    requires |s| > 0 && AllDigits(s)
    ensures Strip(s) == s && FindExponent(s).None? && Find(s, '.').None? && DigitGroup(s)
  {
    StripUnpadded(s);
  }

  /** `float(a)` for a string of digits `a` is its value. */
  lemma {:induction false} ParseFloatOfDigits(a: string)
    requires |a| > 0 && AllDigits(a)
    ensures ParseFloat(a) == Some(DigitsValue(a) as real)
  {
    DigitsPlain(a);
    ParseFloatPlain(a);
  }

  lemma {:induction false} MantissaOfDecimal(a: string, b: string)
    requires |a| > 0 && |b| > 0 && AllDigits(a) && AllDigits(b)
    ensures ParseMantissa(a + "." + b) == Some(Decimal(a, b))
  {
    var s := a + "." + b;
    assert Find(s, '.') == Some(|a|) by {
      assert s == a + ['.'] + b;
      assert '.' !in a by { assert forall i :: 0 <= i < |a| ==> IsDigit(a[i]); }
      FindAfter(a, '.', b);
    }
    assert s[..|a|] == a && s[|a| + 1..] == b;
    assert ParseMantissa(s) == PointedMantissa(a, b);
    assert DigitGroup(a) && DigitGroup(b) by {
      DigitsPlain(a);
      DigitsPlain(b);
    }
    assert DigitsOf(b) == b by {
      DigitsOfDigits(b);
    }
  }

  /** The literal `a.b` denotes `a + b / 10^|b|` for digit strings `a` and `b`. */
  lemma {:induction false} ParseFloatOfDecimal(a: string, b: string)
    requires |a| > 0 && |b| > 0 && AllDigits(a) && AllDigits(b)
    ensures ParseFloat(a + "." + b) == Some(Decimal(a, b))
  {
    PlainDecimal(a, b);
    MantissaOfDecimal(a, b);
  }

  lemma {:induction false} PlainDecimal(a: string, b: string)
    requires |a| > 0 && |b| > 0 && AllDigits(a) && AllDigits(b)
    ensures ParseFloat(a + "." + b) == ParseMantissa(a + "." + b)
  {
    var s := a + "." + b;
    assert s[0] == a[0] && s[|s| - 1] == b[|b| - 1];
    StripUnpadded(s);
    assert forall i :: 0 <= i < |s| ==> s[i] == '.' || IsDigit(s[i]);
    NoExponent(s);
    ParseFloatPlain(s);
  }

  lemma {:induction false} NoExponent(s: string)
    requires forall i :: 0 <= i < |s| ==> s[i] == '.' || IsDigit(s[i])
    ensures FindExponent(s).None?
  {
  }

  /** The setting `kamihime_<a>: <value>` for a digit string `a` and an integer value gives the band `(a, value)`. */
  lemma {:induction false} KamihimeSetting(a: string, value: string)
    requires |a| > 0 && AllDigits(a) && ParseInt(value).Some?
    ensures KamihimeBand("kamihime_" + a, value) == Some(Band(DigitsValue(a) as real, ParseInt(value).value))
  {
    var key := "kamihime_" + a;
    assert StartsWith(key, "kamihime_") by { assert key[..9] == "kamihime_"; }
    assert ReplaceAll(key, "kamihime_", "") == a by {
      ReplaceLeading("kamihime_", a, "");
      ReplaceAbsent(a, "kamihime_", "");
    }
    ParseFloatOfDigits(a);
  }

  /** The setting `eidolon_<a>_<b>: <value>` for digit strings `a`, `b` gives the band `(a.b, value)`. */
  lemma {:induction false} EidolonSetting(a: string, b: string, value: string)
    requires |a| > 0 && |b| > 0 && AllDigits(a) && AllDigits(b) && ParseInt(value).Some?
    ensures EidolonBand("eidolon_" + a + "_" + b, value) == Some(Band(Decimal(a, b), ParseInt(value).value))
  {
    EidolonParts(a, b);
    EidolonThresholdOf(a, b);
    EidolonBandOf("eidolon_" + a + "_" + b, value, a, b, Decimal(a, b));
  }

  /** The value of the decimal numeral `a.b`. */
  function Decimal(a: string, b: string): real
    requires AllDigits(a) && AllDigits(b)
  {
    DigitsValue(a) as real + Fraction(DigitsValue(b), |b|)
  }

  lemma {:induction false} EidolonThresholdOf(a: string, b: string)
    requires |a| > 0 && |b| > 0 && AllDigits(a) && AllDigits(b)
    ensures EidolonThreshold([a, b]) == Some(Decimal(a, b))
  {
    assert [a, b][0] + "." + [a, b][1] == a + "." + b;
    ParseFloatOfDecimal(a, b);
  }

  lemma {:induction false} EidolonBandOf(key: string, value: string, a: string, b: string, x: real)
    requires StartsWith(key, "eidolon_") && ParseInt(value).Some?
    requires Split(ReplaceAll(key, "eidolon_", ""), '_') == [a, b] && EidolonThreshold([a, b]) == Some(x)
    ensures EidolonBand(key, value) == Some(Band(x, ParseInt(value).value))
  {
  }

  lemma {:induction false} EidolonParts(a: string, b: string)
    requires AllDigits(a) && AllDigits(b)
    ensures StartsWith("eidolon_" + a + "_" + b, "eidolon_")
    ensures Split(ReplaceAll("eidolon_" + a + "_" + b, "eidolon_", ""), '_') == [a, b]
  {
    assert ("eidolon_" + a + "_" + b)[..8] == "eidolon_";
    var rest := a + ['_'] + b;
    assert "eidolon_" + a + "_" + b == "eidolon_" + rest;
    ReplaceLeading("eidolon_", rest, "");
    assert 'e' !in rest by {
      assert forall i :: 0 <= i < |rest| ==> rest[i] == '_' || IsDigit(rest[i]);
    }
    ReplaceAbsent(rest, "eidolon_", "");
    assert "" + rest == rest;
    assert '_' !in a && '_' !in b by {
      assert forall i :: 0 <= i < |a| ==> IsDigit(a[i]);
      assert forall i :: 0 <= i < |b| ==> IsDigit(b[i]);
    }
    SplitTwo(a, b, '_');
  }

  /** A threshold with at most three decimals gives an exact ID base: `round(m.f * 1000)`. */
  lemma {:induction false} MilliOfDecimal(m: nat, f: nat, k: nat)
    requires k <= 3 && f < Pow10(k)
    ensures Milli(m as real + Fraction(f, k)) == 1000 * m + f * Pow10(3 - k)
  {
    var x := m as real + Fraction(f, k);
    var r := 1000 * m + f * Pow10(3 - k);
    assert Pow10(k) * Pow10(3 - k) == 1000 by {
      if k == 0 {} else if k == 1 {} else if k == 2 {} else {}
    }
    assert x * 1000.0 == r as real by {
      assert f as real / Pow10(k) as real * 1000.0 == (f * Pow10(3 - k)) as real;
    }
    RoundHalfEvenUnique(x * 1000.0, r);
  }

  /** How one setting is read: `KamihimeBand` or `EidolonBand`. */
  type BandParser = (string, string) -> Option<Band>

  /** The bands of the settings that parse, in the dictionary's order. */
  function Collect(parse: BandParser, d: Dict<string>): seq<Band> {
    if |d| == 0 then []
    else
      var bs := Collect(parse, d[..|d| - 1]);
      match parse(d[|d| - 1].0, d[|d| - 1].1)
      case None => bs
      case Some(b) => bs + [b]
  }

  /** Every collected band comes from some setting of the dictionary. */
  lemma {:induction false} CollectSource(parse: BandParser, d: Dict<string>, b: Band) returns (i: nat)
    requires b in Collect(parse, d)
    ensures i < |d| && parse(d[i].0, d[i].1) == Some(b)
  {
    var p := d[..|d| - 1];
    if b in Collect(parse, p) {
      i := CollectSource(parse, p, b);
      assert d[i] == p[i];
    } else {
      i := |d| - 1;
    }
  }

  /** Every setting that parses contributes its band. */
  lemma {:induction false} CollectComplete(parse: BandParser, d: Dict<string>, i: nat)
    requires i < |d| && parse(d[i].0, d[i].1).Some?
    ensures parse(d[i].0, d[i].1).value in Collect(parse, d)
  {
    var p := d[..|d| - 1];
    if i < |p| {
      assert p[i] == d[i];
      CollectComplete(parse, p, i);
    }
  }

  /** `kamihime_bands_from_latest`: the kamihime bands in ascending order. */
  method KamihimeBandsFromLatest(latest: Dict<string>) returns (bands: seq<Band>)
    ensures Sorted(bands, BandLe)
    ensures multiset(bands) == multiset(Collect(KamihimeBand, latest))
    ensures bands == Sort(Collect(KamihimeBand, latest), BandLe)
  {
    var found := [];
    var i := 0;
    while i < |latest|
      invariant 0 <= i <= |latest|
      invariant found == Collect(KamihimeBand, latest[..i])
    {
      assert latest[..i + 1][..i] == latest[..i];
      var (key, value) := latest[i];
      i := i + 1;
      if !StartsWith(key, "kamihime_") {
        continue;
      }
      var x := ParseFloat(ReplaceAll(key, "kamihime_", ""));
      var y := ParseInt(value);
      if x.Some? && y.Some? {
        found := found + [Band(x.value, y.value)];
      }
    }
    assert latest[..i] == latest;
    bands := Sort(found, BandLe);
    BandLeTotal();
    SortSorted(found, BandLe);
  }

  /** `eidolon_bands_from_latest`: the eidolon bands in the dictionary's order, unsorted. */
  method EidolonBandsFromLatest(latest: Dict<string>) returns (bands: seq<Band>)
    ensures bands == Collect(EidolonBand, latest)
  {
    bands := [];
    var i := 0;
    while i < |latest|
      invariant 0 <= i <= |latest|
      invariant bands == Collect(EidolonBand, latest[..i])
    {
      assert latest[..i + 1][..i] == latest[..i];
      var (key, value) := latest[i];
      i := i + 1;
      if !StartsWith(key, "eidolon_") {
        continue;
      }
      var parts := Split(ReplaceAll(key, "eidolon_", ""), '_');
      var band;
      if |parts| == 1 {
        band := ParseFloat(parts[0]);
      } else if |parts| == 2 {
        band := ParseFloat(parts[0] + "." + parts[1]);
      } else {
        continue;
      }
      var maxCount := ParseInt(value);
      if band.Some? && maxCount.Some? {
        bands := bands + [Band(band.value, maxCount.value)];
      }
    }
    assert latest[..i] == latest;
  }

  // ---------------------------------------------------------------------------
  // Candidate IDs
  // ---------------------------------------------------------------------------

  /** A candidate `(category, off, id)`. */
  datatype Candidate = Candidate(kind: Kind, offset: int, id: int)

  function Max0(n: int): nat { if n < 0 then 0 else n }

  /** The candidates of one band: offsets `1..count` above `Milli(threshold)`. */
  function BandIds(kind: Kind, b: Band): (r: seq<Candidate>)
    ensures |r| == Max0(b.count)
    ensures forall i :: 0 <= i < |r| ==> r[i] == Candidate(kind, i + 1, Milli(b.threshold) + i + 1)
  {
    seq(Max0(b.count), i requires 0 <= i => Candidate(kind, i + 1, Milli(b.threshold) + i + 1))
  }

  /** The candidates of all bands, band after band. */
  function AllIds(kind: Kind, bands: seq<Band>): seq<Candidate> {
    if |bands| == 0 then []
    else AllIds(kind, bands[..|bands| - 1]) + BandIds(kind, bands[|bands| - 1])
  }

  function TotalCount(bands: seq<Band>): nat {
    if |bands| == 0 then 0 else TotalCount(bands[..|bands| - 1]) + Max0(bands[|bands| - 1].count)
  }

  /** One candidate per unit of each band's positive count. */
  lemma {:induction false} AllIdsLength(kind: Kind, bands: seq<Band>)
    ensures |AllIds(kind, bands)| == TotalCount(bands)
  {
    if |bands| > 0 {
      AllIdsLength(kind, bands[..|bands| - 1]);
    }
  }

  /** Every generated candidate lies within the count of some band. */
  lemma {:induction false} AllIdsSource(kind: Kind, bands: seq<Band>, c: Candidate) returns (j: nat)
    requires c in AllIds(kind, bands)
    ensures c.kind == kind && j < |bands| && InBand(bands[j], c.offset, c.id)
  {
    var p := bands[..|bands| - 1];
    if c in AllIds(kind, p) {
      j := AllIdsSource(kind, p, c);
      assert bands[j] == p[j];
    } else {
      j := |bands| - 1;
      var bi := BandIds(kind, bands[j]);
      var k :| 0 <= k < |bi| && bi[k] == c;
    }
  }

  /** Every offset within the count of a band gives a candidate. */
  lemma {:induction false} AllIdsComplete(kind: Kind, bands: seq<Band>, j: nat, offset: int)
    requires j < |bands| && 1 <= offset <= bands[j].count
    ensures Candidate(kind, offset, Milli(bands[j].threshold) + offset) in AllIds(kind, bands)
  {
    var p := bands[..|bands| - 1];
    if j < |p| {
      assert p[j] == bands[j];
      AllIdsComplete(kind, p, j, offset);
    } else {
      assert BandIds(kind, bands[j])[offset - 1] == Candidate(kind, offset, Milli(bands[j].threshold) + offset);
    }
  }

  predicate InBand(b: Band, offset: int, id: int) {
    1 <= offset <= b.count && id == Milli(b.threshold) + offset
  }

  /** The loop shared by `generate_kamihime_ids` and `generate_eidolon_ids`. */
  method GenerateIds(kind: Kind, bands: seq<Band>) returns (ids: seq<Candidate>)
    ensures ids == AllIds(kind, bands)
  {
    ids := [];
    var j := 0;
    while j < |bands|
      invariant 0 <= j <= |bands|
      invariant ids == AllIds(kind, bands[..j])
    {
      var band := bands[j];
      var base := Milli(band.threshold);
      ghost var before := ids;
      var off := 1;
      while off <= band.count
        invariant 1 <= off <= Max0(band.count) + 1
        invariant ids == before + BandIds(kind, band)[..off - 1]
      {
        ids := ids + [Candidate(kind, off, base + off)];
        off := off + 1;
      }
      assert BandIds(kind, band)[..off - 1] == BandIds(kind, band);
      assert bands[..j + 1][..j] == bands[..j];
      j := j + 1;
    }
    assert bands[..j] == bands;
  }

  /** `generate_kamihime_ids`. */
  method GenerateKamihimeIds(latest: Dict<string>) returns (ids: seq<Candidate>)
    ensures ids == AllIds(Kamihime, Sort(Collect(KamihimeBand, latest), BandLe))
    ensures forall c :: c in ids <==>
      c.kind == Kamihime && exists i :: 0 <= i < |latest| && SettingGives(KamihimeBand, latest[i], c)
    ensures |ids| == TotalCount(Collect(KamihimeBand, latest))
  {
    var bands := KamihimeBandsFromLatest(latest);
    ids := GenerateIds(Kamihime, bands);
    GeneratedFrom(Kamihime, KamihimeBand, latest, bands);
    AllIdsLength(Kamihime, bands);
    TotalCountPermutation(bands, Collect(KamihimeBand, latest));
  }

  /** `generate_eidolon_ids`. */
  method GenerateEidolonIds(latest: Dict<string>) returns (ids: seq<Candidate>)
    ensures ids == AllIds(Eidolon, Collect(EidolonBand, latest))
    ensures forall c :: c in ids <==>
      c.kind == Eidolon && exists i :: 0 <= i < |latest| && SettingGives(EidolonBand, latest[i], c)
  {
    var bands := EidolonBandsFromLatest(latest);
    ids := GenerateIds(Eidolon, bands);
    GeneratedFrom(Eidolon, EidolonBand, latest, bands);
  }

  /** The setting `kv` gives a band that contains candidate `c`. */
  predicate SettingGives(parse: BandParser, kv: (string, string), c: Candidate) {
    match parse(kv.0, kv.1)
    case None => false
    case Some(b) => InBand(b, c.offset, c.id)
  }

  lemma {:induction false} GeneratedFrom(kind: Kind, parse: BandParser, latest: Dict<string>, bands: seq<Band>)
    requires multiset(bands) == multiset(Collect(parse, latest))
    ensures forall c :: c in AllIds(kind, bands) <==>
      c.kind == kind && exists i :: 0 <= i < |latest| && SettingGives(parse, latest[i], c)
  {
    forall c ensures c in AllIds(kind, bands) <==>
      c.kind == kind && exists i :: 0 <= i < |latest| && SettingGives(parse, latest[i], c)
    {
      GeneratedCandidate(kind, parse, latest, bands, c);
    }
  }

  lemma {:induction false} GeneratedCandidate(kind: Kind, parse: BandParser, latest: Dict<string>, bands: seq<Band>, c: Candidate)
    requires multiset(bands) == multiset(Collect(parse, latest))
    ensures c in AllIds(kind, bands) <==>
      c.kind == kind && exists i :: 0 <= i < |latest| && SettingGives(parse, latest[i], c)
  {
    if c in AllIds(kind, bands) {
      GeneratedSound(kind, parse, latest, bands, c);
    }
    if c.kind == kind && exists i :: 0 <= i < |latest| && SettingGives(parse, latest[i], c) {
      var i :| 0 <= i < |latest| && SettingGives(parse, latest[i], c);
      GeneratedComplete(kind, parse, latest, bands, c, i);
    }
  }

  lemma {:induction false} GeneratedSound(kind: Kind, parse: BandParser, latest: Dict<string>, bands: seq<Band>, c: Candidate)
    requires multiset(bands) == multiset(Collect(parse, latest))
    requires c in AllIds(kind, bands)
    ensures c.kind == kind && exists i :: 0 <= i < |latest| && SettingGives(parse, latest[i], c)
  {
    var j := AllIdsSource(kind, bands, c);
    var b := bands[j];
    assert b in multiset(Collect(parse, latest));
    var i := CollectSource(parse, latest, b);
    assert SettingGives(parse, latest[i], c);
  }

  lemma {:induction false} GeneratedComplete(kind: Kind, parse: BandParser, latest: Dict<string>, bands: seq<Band>, c: Candidate, i: nat)
    requires multiset(bands) == multiset(Collect(parse, latest))
    requires c.kind == kind && i < |latest| && SettingGives(parse, latest[i], c)
    ensures c in AllIds(kind, bands)
  {
    var b := parse(latest[i].0, latest[i].1).value;
    CollectComplete(parse, latest, i);
    assert b in multiset(bands);
    BandComplete(kind, bands, b, c);
  }

  /** Every candidate of a band in the list is generated. */
  lemma {:induction false} BandComplete(kind: Kind, bands: seq<Band>, b: Band, c: Candidate)
    requires b in bands && c.kind == kind && InBand(b, c.offset, c.id)
    ensures c in AllIds(kind, bands)
  {
    var j :| 0 <= j < |bands| && bands[j] == b;
    AllIdsComplete(kind, bands, j, c.offset);
    assert c == Candidate(kind, c.offset, Milli(bands[j].threshold) + c.offset);
  }

  lemma {:induction false} TotalCountPermutation(a: seq<Band>, b: seq<Band>)
    requires multiset(a) == multiset(b)
    ensures TotalCount(a) == TotalCount(b)
    decreases |a|
  {
    if |a| > 0 {
      var x := a[|a| - 1];
      assert x in multiset(b);
      var k :| 0 <= k < |b| && b[k] == x;
      var a' := a[..|a| - 1];
      var b' := b[..k] + b[k + 1..];
      MultisetRemove(b, k);
      MultisetRemove(a, |a| - 1);
      assert a[..|a| - 1] + a[|a|..] == a';
      assert multiset(a') == multiset(b');
      TotalCountPermutation(a', b');
      TotalCountRemove(b, k);
      assert TotalCount(a) == TotalCount(a') + Max0(x.count);
    }
  }

  lemma {:induction false} MultisetRemove<T>(s: seq<T>, k: nat)
    requires k < |s|
    ensures multiset(s[..k] + s[k + 1..]) == multiset(s) - multiset{s[k]}
  {
    assert s == s[..k] + [s[k]] + s[k + 1..];
  }

  lemma {:induction false} TotalCountRemove(b: seq<Band>, k: nat)
    requires k < |b|
    ensures TotalCount(b) == TotalCount(b[..k] + b[k + 1..]) + Max0(b[k].count)
    decreases |b|
  {
    if k < |b| - 1 {
      var p := b[..|b| - 1];
      TotalCountRemove(p, k);
      assert (b[..k] + b[k + 1..])[..|b| - 2] == p[..k] + p[k + 1..];
      assert (b[..k] + b[k + 1..])[|b| - 2] == b[|b| - 1];
    } else {
      assert b[..k] + b[k + 1..] == b[..|b| - 1];
    }
  }

  // ---------------------------------------------------------------------------
  // Episode IDs of the adventure types
  // ---------------------------------------------------------------------------

  datatype AdvType = Soul | Memorial | Burst

  /** The configuration key of an adventure type. */
  function AdvKey(t: AdvType): string {
    match t
    case Soul => "soul"
    case Memorial => "memorial"
    case Burst => "burst"
  }

  /** Soul skins are numbered from 8001, memorials and bursts from 1. */
  function AdvBase(t: AdvType): int {
    if t == Soul then 8000 else 0
  }

  /**
   * `generate_adv_episode_ids`: the first `count` IDs above the type's base,
   * where `count` is the setting for the type; a missing or non-integer
   * setting gives no IDs.
   */
  function AdvEpisodeIds(latest: Dict<string>, t: AdvType): (r: seq<int>)
    ensures forall i :: 0 <= i < |r| ==> r[i] == AdvBase(t) + i + 1
    ensures Get(latest, AdvKey(t)).None? ==> r == []
    ensures Get(latest, AdvKey(t)).Some? && ParseInt(Get(latest, AdvKey(t)).value).None? ==> r == []
    ensures Get(latest, AdvKey(t)).Some? && ParseInt(Get(latest, AdvKey(t)).value).Some? ==>
      |r| == Max0(ParseInt(Get(latest, AdvKey(t)).value).value)
  {
    match Get(latest, AdvKey(t))
    case None => []
    case Some(v) =>
      match ParseInt(v)
      case None => []
      case Some(count) => seq(Max0(count), i requires 0 <= i => AdvBase(t) + i + 1)
  }

  /** A setting `str(n)` for the type gives exactly `n` IDs (none when `n` is not positive). */
  lemma {:induction false} AdvEpisodeCount(latest: Dict<string>, t: AdvType, n: int)
    requires Get(latest, AdvKey(t)) == Some(IntToString(n))
    ensures |AdvEpisodeIds(latest, t)| == Max0(n)
  {
    ParseIntOfString(n);
  }
}

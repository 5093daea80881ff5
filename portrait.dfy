/**
 * download_portrait.py: the portrait rules per character type, the encrypted
 * file name (UTF-8, padding to 8-byte blocks as in section 6.3 of RFC 5652,
 * Blowfish in ECB mode, lowercase hex), the sharded path with its extension
 * rule, and which images a portrait request downloads. The Blowfish block
 * function under the fixed key is a parameter: any function on 8-byte blocks.
 */
module Portrait {
  import opened Base

  newtype byte = b: int | 0 <= b < 256

  const BlockSize: nat := 8

  /** An 8-byte cipher block. */
  type Block = b: seq<byte> | |b| == 8 witness [0, 0, 0, 0, 0, 0, 0, 0]

  // ---------------------------------------------------------------------------
  // data.encode("utf-8")
  // ---------------------------------------------------------------------------

  /** The UTF-8 encoding of one Unicode scalar value: one to four bytes. */
  function CharUtf8(c: char): (r: seq<byte>)
    ensures 1 <= |r| <= 4
    ensures (c as int < 0x80) <==> |r| == 1
    ensures |r| == 1 ==> r[0] as int == c as int
  {
    var n := c as int;
    if n < 0x80 then [n as byte]
    else if n < 0x800 then [(0xC0 + n / 0x40) as byte, (0x80 + n % 0x40) as byte]
    else if n < 0x10000 then [(0xE0 + n / 0x1000) as byte, (0x80 + n / 0x40 % 0x40) as byte, (0x80 + n % 0x40) as byte]
    else [(0xF0 + n / 0x40000) as byte, (0x80 + n / 0x1000 % 0x40) as byte,
          (0x80 + n / 0x40 % 0x40) as byte, (0x80 + n % 0x40) as byte]
  }

  function Utf8(s: string): (r: seq<byte>)
    ensures |s| <= |r| <= 4 * |s|
  {
    if |s| == 0 then [] else CharUtf8(s[0]) + Utf8(s[1..])
  }

  predicate Ascii(s: string) {
    forall i :: 0 <= i < |s| ==> s[i] as int < 0x80
  }

  /** An ASCII string encodes to one byte per character, each its code. */
  lemma {:induction false} Utf8Ascii(s: string)
    requires Ascii(s)
    ensures |Utf8(s)| == |s|
    ensures forall i :: 0 <= i < |s| ==> Utf8(s)[i] as int == s[i] as int
    decreases |s|
  {
    if |s| > 0 {
      assert Ascii(s[1..]) by {
        forall i | 0 <= i < |s[1..]| ensures s[1..][i] as int < 0x80 {
          assert s[1..][i] == s[i + 1];
        }
      }
      Utf8Ascii(s[1..]);
      assert |CharUtf8(s[0])| == 1;
      forall i | 1 <= i < |s| ensures Utf8(s)[i] as int == s[i] as int {
        assert Utf8(s)[i] == Utf8(s[1..])[i - 1];
        assert s[1..][i - 1] == s[i];
      }
    }
  }

  // ---------------------------------------------------------------------------
  // pad(data, 8) and its inverse
  // ---------------------------------------------------------------------------

  /** `pad(data, 8)`: 1 to 8 bytes appended, each holding their count. */
  function Pad(data: seq<byte>): (r: seq<byte>)
    ensures |r| == BlockSize * (|data| / BlockSize + 1)
    ensures r[..|data|] == data
  {
    var n := BlockSize - |data| % BlockSize;
    data + seq(n, _ => n as byte)
  }

  /** `unpad(padded, 8)`: the padding is checked and removed; a malformed input is rejected. */
  function Unpad(p: seq<byte>): Option<seq<byte>> {
    if |p| == 0 || |p| % BlockSize != 0 then None
    else
      var n := p[|p| - 1] as int;
      if n < 1 || n > BlockSize then None
      else if forall i :: |p| - n <= i < |p| ==> p[i] as int == n then Some(p[..|p| - n])
      else None
  }

  /** Padding is undone by unpadding. */
  lemma {:induction false} UnpadPad(data: seq<byte>)
    ensures Unpad(Pad(data)) == Some(data)
  {
    var p := Pad(data);
    var n := BlockSize - |data| % BlockSize;
    assert p == data + seq(n, _ => n as byte);
    assert p[|p| - 1] as int == n;
    assert |p| % BlockSize == 0 by {
      assert |p| == BlockSize * (|data| / BlockSize + 1);
    }
    assert forall i :: |p| - n <= i < |p| ==> p[i] as int == n;
  }

  // ---------------------------------------------------------------------------
  // Blowfish-ECB
  // ---------------------------------------------------------------------------

  /** ECB mode: each 8-byte block through the block function, in place. */
  function Ecb(cipher: Block -> Block, data: seq<byte>): (r: seq<byte>)
    requires |data| % BlockSize == 0
    ensures |r| == |data|
    decreases |data|
  {
    if |data| == 0 then [] else cipher(data[..BlockSize]) + Ecb(cipher, data[BlockSize..])
  }

  /** Block by block, ECB with the inverse block function undoes ECB. */
  lemma {:induction false} EcbInverse(cipher: Block -> Block, decipher: Block -> Block, data: seq<byte>)
    requires |data| % BlockSize == 0
    requires forall b: Block :: decipher(cipher(b)) == b
    ensures Ecb(decipher, Ecb(cipher, data)) == data
    decreases |data|
  {
    if |data| > 0 {
      var e := Ecb(cipher, data);
      var head := cipher(data[..BlockSize]);
      assert e == head + Ecb(cipher, data[BlockSize..]);
      assert e[..BlockSize] == head && e[BlockSize..] == Ecb(cipher, data[BlockSize..]);
      EcbInverse(cipher, decipher, data[BlockSize..]);
      assert data == data[..BlockSize] + data[BlockSize..];
    }
  }

  // ---------------------------------------------------------------------------
  // bytes.hex()
  // ---------------------------------------------------------------------------

  /** A lowercase hex digit, as `bytes.hex()` writes them. */
  predicate IsHexDigit(c: char) {
    '0' <= c <= '9' || 'a' <= c <= 'f'
  }

  /** The digit for a nibble. */
  function HexDigit(d: nat): (c: char)
    requires d < 16
    ensures IsHexDigit(c)
  {
    if d < 10 then ('0' as int + d) as char else ('a' as int + d - 10) as char
  }

  /** One byte as two lowercase hex digits, high nibble first. */
  function HexByte(b: byte): (r: string)
    ensures |r| == 2 && IsHexDigit(r[0]) && IsHexDigit(r[1])
  {
    [HexDigit(b as int / 16), HexDigit(b as int % 16)]
  }

  /** `bytes.hex()`. */
  function Hex(bs: seq<byte>): (r: string)
    ensures |r| == 2 * |bs|
    ensures forall i :: 0 <= i < |r| ==> IsHexDigit(r[i])
  {
    if |bs| == 0 then ""
    else
      var h := HexByte(bs[0]);
      var t := Hex(bs[1..]);
      assert forall i :: 2 <= i < |h + t| ==> (h + t)[i] == t[i - 2];
      h + t
  }

  /** The value of a hex digit, if `c` is one. */
  function HexValue(c: char): (r: Option<nat>)
    ensures r.Some? ==> r.value < 16
  {
    if '0' <= c <= '9' then Some(c as int - '0' as int)
    else if 'a' <= c <= 'f' then Some(c as int - 'a' as int + 10)
    else None
  }

  /** The byte two hex digits spell, if both are digits. */
  function ByteOfHex(hi: char, lo: char): Option<byte> {
    match (HexValue(hi), HexValue(lo))
    case (Some(h), Some(l)) => Some((h * 16 + l) as byte)
    case _ => None
  }

  /** `bytes.fromhex` on lowercase digits. */
  function FromHex(s: string): Option<seq<byte>>
    decreases |s|
  {
    if |s| == 0 then Some([])
    else if |s| == 1 then None
    else match (ByteOfHex(s[0], s[1]), FromHex(s[2..]))
      case (Some(b), Some(rest)) => Some([b] + rest)
      case _ => None
  }

  lemma {:induction false} ByteOfHexByte(b: byte)
    ensures ByteOfHex(HexByte(b)[0], HexByte(b)[1]) == Some(b)
  {
    var h := HexByte(b);
    assert HexValue(h[0]) == Some(b as int / 16);
    assert HexValue(h[1]) == Some(b as int % 16);
    assert (b as int / 16) * 16 + b as int % 16 == b as int;
  }

  /** Hex digits read back to the bytes they were written from. */
  lemma {:induction false} FromHexHex(bs: seq<byte>)
    ensures FromHex(Hex(bs)) == Some(bs)
    decreases |bs|
  {
    if |bs| > 0 {
      var s := Hex(bs);
      var h := HexByte(bs[0]);
      assert s == h + Hex(bs[1..]);
      assert s[0] == h[0] && s[1] == h[1] && s[2..] == Hex(bs[1..]);
      ByteOfHexByte(bs[0]);
      FromHexHex(bs[1..]);
      assert bs == [bs[0]] + bs[1..];
    }
  }

  // ---------------------------------------------------------------------------
  // kamihime_encrypt
  // ---------------------------------------------------------------------------

  /** `kamihime_encrypt(data)`. */
  function Encrypt(cipher: Block -> Block, data: string): string {
    var padded := Pad(Utf8(data));
    assert |padded| % BlockSize == 0;
    Hex(Ecb(cipher, padded))
  }

  /** Reading a file name back: hex, ECB with the inverse block function, unpad. */
  function Decrypt(decipher: Block -> Block, name: string): Option<seq<byte>> {
    match FromHex(name)
    case None => None
    case Some(bs) => if |bs| % BlockSize == 0 then Unpad(Ecb(decipher, bs)) else None
  }

  /**
   * For an n-byte plaintext the name has 16 * (n / 8 + 1) lowercase hex
   * digits, and with the inverse block function it decrypts to the plaintext.
   */
  lemma {:induction false} EncryptRoundTrip(cipher: Block -> Block, decipher: Block -> Block, data: string)
    requires forall b: Block :: decipher(cipher(b)) == b
    ensures |Encrypt(cipher, data)| == 16 * (|Utf8(data)| / 8 + 1)
    ensures forall i :: 0 <= i < |Encrypt(cipher, data)| ==> IsHexDigit(Encrypt(cipher, data)[i])
    ensures Decrypt(decipher, Encrypt(cipher, data)) == Some(Utf8(data))
  {
    var padded := Pad(Utf8(data));
    var e := Ecb(cipher, padded);
    FromHexHex(e);
    EcbInverse(cipher, decipher, padded);
    UnpadPad(Utf8(data));
  }

  // ---------------------------------------------------------------------------
  // get_path and build_url
  // ---------------------------------------------------------------------------

  /** `.png` when the type prefix names an illustration or a harem image, else `.jpg`. */
  function Ext(p: string): string {
    if Contains(p, "illust") || Contains(p, "harem") then ".png" else ".jpg"
  }

  /** `get_path(t, p)`: two shards from the end of `t` without its extension, then `t` and the extension. */
  function GetPath(t: string, p: string): string {
    var e := match RFind(t, '.') case Some(r) => t[..r] case None => t;
    PySlice(e, -6, -3) + "/" + PySlice(e, -3, |e|) + "/" + t + Ext(p)
  }

  /** The path of a name `t` without a dot: characters -6..-3 and the last three as shards, then `t` and the extension. */
  function NamePath(t: string, p: string): string
    requires |t| >= 6
  {
    t[|t| - 6..|t| - 3] + "/" + t[|t| - 3..] + "/" + t + Ext(p)
  }

  /** An encrypted name has no `.`, so the shards are its characters -6..-3 and its last three. */
  lemma {:induction false} GetPathOfName(t: string, p: string)
    requires |t| >= 6 && '.' !in t
    ensures GetPath(t, p) == NamePath(t, p)
  {
  }

  /** The plaintext for a type prefix and an ID string; the first matching branch wins. */
  function Plaintext(typeStr: string, x: string): string {
    if Contains(typeStr, "corecard_item_") then typeStr + x
    else if Contains(typeStr, "questimg_harem") then typeStr + x + "_1"
    else typeStr + x + "_0"
  }

  const BaseUrl: string := "https://static-r.kamihimeproject.net/resources/pc/normal/"

  /** `build_url(type_str, x)`. */
  function BuildUrl(cipher: Block -> Block, typeStr: string, x: string): string {
    BaseUrl + GetPath(Encrypt(cipher, Plaintext(typeStr, x)), typeStr)
  }

  lemma {:induction false} HexNoDot(t: string)
    requires forall i :: 0 <= i < |t| ==> IsHexDigit(t[i])
    ensures '.' !in t
  {
    forall i | 0 <= i < |t| ensures t[i] != '.' {
      assert IsHexDigit(t[i]);
    }
  }

  /** A path under the base ends in the extension its type prefix selects. */
  lemma {:induction false} PathBounds(t: string, typeStr: string)
    ensures StartsWith(BaseUrl + GetPath(t, typeStr), BaseUrl)
    ensures EndsWith(BaseUrl + GetPath(t, typeStr), Ext(typeStr))
  {
    var url := BaseUrl + GetPath(t, typeStr);
    assert url[..|BaseUrl|] == BaseUrl;
  }

  /** Every URL is under the base and ends in the extension its type prefix selects. */
  lemma {:induction false} BuildUrlBounds(cipher: Block -> Block, typeStr: string, x: string)
    ensures StartsWith(BuildUrl(cipher, typeStr, x), BaseUrl)
    ensures EndsWith(BuildUrl(cipher, typeStr, x), Ext(typeStr))
  {
    PathBounds(Encrypt(cipher, Plaintext(typeStr, x)), typeStr);
  }

  /** The path of a name of at least six hex digits: the two shards, the name and the extension. */
  lemma {:induction false} HexNamePath(t: string, typeStr: string)
    requires |t| >= 6 && forall i :: 0 <= i < |t| ==> IsHexDigit(t[i])
    ensures GetPath(t, typeStr) == NamePath(t, typeStr)
  {
    HexNoDot(t);
    GetPathOfName(t, typeStr);
  }

  /**
   * A URL is the base, two shards of the encrypted name, the name and the
   * extension of the type prefix; the name decrypts to the plaintext.
   */
  lemma {:induction false} BuildUrlShape(cipher: Block -> Block, decipher: Block -> Block, typeStr: string, x: string)
    requires forall b: Block :: decipher(cipher(b)) == b
    ensures |Encrypt(cipher, Plaintext(typeStr, x))| >= 16
    ensures var t := Encrypt(cipher, Plaintext(typeStr, x));
      BuildUrl(cipher, typeStr, x) == BaseUrl + NamePath(t, typeStr)
    ensures Decrypt(decipher, Encrypt(cipher, Plaintext(typeStr, x))) == Some(Utf8(Plaintext(typeStr, x)))
  {
    EncryptedUrl(cipher, decipher, Plaintext(typeStr, x), typeStr);
  }

  lemma {:induction false} EncryptedUrl(cipher: Block -> Block, decipher: Block -> Block, data: string, typeStr: string)
    requires forall b: Block :: decipher(cipher(b)) == b
    ensures |Encrypt(cipher, data)| >= 16
    ensures GetPath(Encrypt(cipher, data), typeStr) == NamePath(Encrypt(cipher, data), typeStr)
    ensures Decrypt(decipher, Encrypt(cipher, data)) == Some(Utf8(data))
  {
    EncryptRoundTrip(cipher, decipher, data);
    var t := Encrypt(cipher, data);
    assert |t| >= 16 by {
      var k := |Utf8(data)| / 8;
      assert k >= 0 && |t| == 16 * (k + 1);
    }
    HexNamePath(t, typeStr);
  }

  // ---------------------------------------------------------------------------
  // PORTRAIT_RULES and download_portrait
  // ---------------------------------------------------------------------------

  /** A rule: the icon prefix, the illustration prefix (`None` when there is none) and the ID offset. */
  datatype Rule = Rule(icon: string, illust: Option<string>, offset: int)

  /** `PORTRAIT_RULES.get(char_type)`. */
  function RuleFor(charType: string): Option<Rule> {
    if charType == "kamihime" then Some(Rule("corecard_chara_", Some("illustzoom_chara_"), 0))
    else if charType == "eidolon" then Some(Rule("corecard_summon_", Some("illustzoom_summon_"), 0))
    else if charType == "soul" then Some(Rule("corecard_job_", Some("illustzoom_job_"), 0))
    else if charType == "memorial" then Some(Rule("corecard_item_", None, 30000))
    else if charType == "burst" then Some(Rule("corecard_item_", None, 32000))
    else None
  }

  /** `ICON_DIR` (portrait/) or `ILLUST_DIR` (portrait_full/). */
  datatype ImageDir = IconDir | IllustDir

  /** One `download_image(url, save_path)`. */
  datatype Download = Download(url: string, dir: ImageDir, file: string)

  /** The images a rule fetches for the ID string `x`: the icon, then the illustration if the rule has one. */
  function Fetches(cipher: Block -> Block, rule: Rule, x: string, name: string): seq<Download> {
    [Download(BuildUrl(cipher, rule.icon, x), IconDir, name + ".jpg")]
    + (if rule.illust.Some? && rule.illust.value != "" then
         [Download(BuildUrl(cipher, rule.illust.value, x), IllustDir, name + ".png")]
       else [])
  }

  /** `download_portrait(char_type, char_id, char_name)`: the images it fetches, in order. */
  function DownloadPortrait(cipher: Block -> Block, charType: string, id: int, name: string): seq<Download> {
    match RuleFor(charType)
    case None => []
    case Some(rule) => Fetches(cipher, rule, IntToString(id + rule.offset), name)
  }

  /** A string misses a pattern when it misses one of the pattern's characters. */
  lemma {:induction false} MissingChar(s: string, p: string, k: nat)
    requires k < |p| && p[k] !in s
    ensures !Contains(s, p)
    decreases |s|
  {
    if |p| <= |s| {
      assert s[k] in s;
      assert s[..|p|][k] != p[k];
    }
    if |s| > 0 {
      assert forall c :: c in s[1..] ==> c in s;
      MissingChar(s[1..], p, k);
    }
  }

  lemma {:induction false} PrefixContains(s: string, p: string)
    requires StartsWith(s, p)
    ensures Contains(s, p)
  {
  }

  /** The ID in a type's file names is the character's ID plus 0, 30000 or 32000. */
  lemma {:induction false} RuleOffsets(charType: string)
    ensures RuleFor(charType).Some? <==> charType in ["kamihime", "eidolon", "soul", "memorial", "burst"]
    ensures RuleFor(charType).Some? ==>
      RuleFor(charType).value.offset == (if charType == "memorial" then 30000 else if charType == "burst" then 32000 else 0)
    ensures RuleFor(charType).Some? ==> (RuleFor(charType).value.illust.Some? <==> charType !in ["memorial", "burst"])
  {
  }

  /** A prefix without `l`, and without `h` or `m`, holds neither `illust` nor `harem`. */
  lemma {:induction false} NoIllustNoHarem(prefix: string)
    requires 'l' !in prefix && ('h' !in prefix || 'm' !in prefix)
    ensures Ext(prefix) == ".jpg"
  {
    MissingChar(prefix, "illust", 1);
    if 'h' !in prefix {
      MissingChar(prefix, "harem", 0);
    } else {
      MissingChar(prefix, "harem", 4);
    }
  }

  /** A prefix that is neither an item nor a harem image takes the `_0` suffix, and only such a prefix does. */
  lemma {:induction false} PlainSuffix(prefix: string, x: string)
    ensures !Contains(prefix, "corecard_item_") && !Contains(prefix, "questimg_harem") <==>
      Plaintext(prefix, x) == prefix + x + "_0"
  {
    var p := Plaintext(prefix, x);
    if Contains(prefix, "corecard_item_") {
      assert |p| == |prefix + x| < |prefix + x + "_0"|;
    } else if Contains(prefix, "questimg_harem") {
      assert p[|p| - 1] == '1' && (prefix + x + "_0")[|p| - 1] == '0';
    }
  }

  /** The icon prefixes of the rules. */
  predicate IconPrefix(icon: string) {
    icon == "corecard_chara_" || icon == "corecard_summon_" || icon == "corecard_job_" || icon == "corecard_item_"
  }

  /** The illustration prefixes of the rules. */
  predicate IllustPrefix(illust: string) {
    illust == "illustzoom_chara_" || illust == "illustzoom_summon_" || illust == "illustzoom_job_"
  }

  /** Every rule's icon and illustration prefixes are among those above; only memorial and burst use the item prefix, whose plaintext takes no `_0`. */
  lemma {:induction false} RulePrefixes(charType: string)
    requires RuleFor(charType).Some?
    ensures IconPrefix(RuleFor(charType).value.icon)
    ensures RuleFor(charType).value.illust.Some? ==> IllustPrefix(RuleFor(charType).value.illust.value)
    ensures RuleFor(charType).value.icon == "corecard_item_" <==> charType == "memorial" || charType == "burst"
  {
  }

  /** Every icon prefix selects `.jpg`. */
  lemma {:induction false} IconExt(icon: string)
    requires IconPrefix(icon)
    ensures Ext(icon) == ".jpg"
  {
    NoIllustNoHarem(icon);
  }

  /** Every illustration prefix selects `.png`. */
  lemma {:induction false} IllustExt(illust: string)
    requires IllustPrefix(illust)
    ensures Ext(illust) == ".png"
  {
    PrefixContains(illust, "illust");
  }

  /** An icon's plaintext is `prefix + id + "_0"`, except for the item prefix, which takes no suffix. */
  lemma {:induction false} IconPlaintext(icon: string, x: string)
    requires IconPrefix(icon)
    ensures Plaintext(icon, x) == icon + x + (if icon == "corecard_item_" then "" else "_0")
  {
    if icon == "corecard_item_" {
      PrefixContains(icon, "corecard_item_");
    } else {
      MissingChar(icon, "corecard_item_", 9);
      MissingChar(icon, "questimg_harem", 0);
      PlainSuffix(icon, x);
    }
  }

  /** An illustration's plaintext is `prefix + id + "_0"`: no illustration prefix is an item or a harem image. */
  lemma {:induction false} IllustPlaintext(illust: string, x: string)
    requires IllustPrefix(illust)
    ensures Plaintext(illust, x) == illust + x + "_0"
  {
    MissingChar(illust, "corecard_item_", 7);
    MissingChar(illust, "questimg_harem", 0);
    PlainSuffix(illust, x);
  }

  /**
   * A rule with the prefixes above fetches its icon as `{name}.jpg` and its
   * illustration, if any, as `{name}.png`; every URL is under the base and
   * ends in the file's extension.
   */
  lemma {:induction false} FetchesShape(cipher: Block -> Block, rule: Rule, x: string, name: string)
    requires IconPrefix(rule.icon)
    requires rule.illust.Some? ==> IllustPrefix(rule.illust.value)
    ensures var d := Fetches(cipher, rule, x, name);
      && |d| == (if rule.illust.Some? then 2 else 1)
      && d[0] == Download(BuildUrl(cipher, rule.icon, x), IconDir, name + ".jpg")
      && (|d| > 1 ==> d[1] == Download(BuildUrl(cipher, rule.illust.value, x), IllustDir, name + ".png"))
      && (forall i :: 0 <= i < |d| ==> StartsWith(d[i].url, BaseUrl))
      && (forall i :: 0 <= i < |d| ==> EndsWith(d[i].url, if d[i].dir == IconDir then ".jpg" else ".png"))
  {
    IconExt(rule.icon);
    BuildUrlBounds(cipher, rule.icon, x);
    var u := BuildUrl(cipher, rule.icon, x);
    var v: Option<string> := None;
    if rule.illust.Some? {
      IllustExt(rule.illust.value);
      BuildUrlBounds(cipher, rule.illust.value, x);
      v := Some(BuildUrl(cipher, rule.illust.value, x));
      assert rule.illust.value != "";
    }
    assert Fetches(cipher, rule, x, name) == Downloads(u, v, name);
    DownloadsShape(u, v, name);
  }

  /** The icon download from `u`, then the illustration download from `v` if there is one. */
  function Downloads(u: string, v: Option<string>, name: string): seq<Download> {
    [Download(u, IconDir, name + ".jpg")] + (if v.Some? then [Download(v.value, IllustDir, name + ".png")] else [])
  }

  lemma {:induction false} DownloadsShape(u: string, v: Option<string>, name: string)
    requires StartsWith(u, BaseUrl) && EndsWith(u, ".jpg")
    requires v.Some? ==> StartsWith(v.value, BaseUrl) && EndsWith(v.value, ".png")
    ensures var d := Downloads(u, v, name);
      && |d| == (if v.Some? then 2 else 1)
      && d[0] == Download(u, IconDir, name + ".jpg")
      && (|d| > 1 ==> d[1] == Download(v.value, IllustDir, name + ".png"))
      && (forall i :: 0 <= i < |d| ==> StartsWith(d[i].url, BaseUrl))
      && (forall i :: 0 <= i < |d| ==> EndsWith(d[i].url, if d[i].dir == IconDir then ".jpg" else ".png"))
  {
  }

  /**
   * A known type fetches its icon as `{name}.jpg` and, except for memorials
   * and bursts, its illustration as `{name}.png`, each from the URL its prefix
   * builds for the ID plus the type's offset; every URL is under the base and
   * ends in the file's extension. An unknown type fetches nothing.
   */
  lemma {:induction false} DownloadPortraitShape(cipher: Block -> Block, charType: string, id: int, name: string)
    ensures var d := DownloadPortrait(cipher, charType, id, name);
      && |d| == (if RuleFor(charType).None? then 0 else if charType == "memorial" || charType == "burst" then 1 else 2)
      && (|d| > 0 ==> d[0] == Download(BuildUrl(cipher, RuleFor(charType).value.icon,
                                                IntToString(id + RuleFor(charType).value.offset)), IconDir, name + ".jpg"))
      && (|d| > 1 ==> d[1] == Download(BuildUrl(cipher, RuleFor(charType).value.illust.value,
                                                IntToString(id + RuleFor(charType).value.offset)), IllustDir, name + ".png"))
      && (forall i :: 0 <= i < |d| ==> StartsWith(d[i].url, BaseUrl))
      && (forall i :: 0 <= i < |d| ==> EndsWith(d[i].url, if d[i].dir == IconDir then ".jpg" else ".png"))
  {
    if RuleFor(charType).Some? {
      var rule := RuleFor(charType).value;
      RuleOffsets(charType);
      RulePrefixes(charType);
      FetchesShape(cipher, rule, IntToString(id + rule.offset), name);
    }
  }
}

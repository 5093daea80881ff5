/**
 * download_assets_core.py, the text side: the clean-up of a downloaded JSON
 * script, the references a legacy `.ks` script makes (`chara_face`,
 * `playbgm`, `bg`, `playse`), the links of an hscene script, the script file
 * names, and the destination path of a downloaded asset.
 */
module AssetLinks {
  import opened Base
  import opened PyJson
  import opened Rewrite

  const FgimageBase: string := "https://static-r.kamihimeproject.net/scenarios/fgimage/"
  const BgmBase: string := "https://static-r.kamihimeproject.net/scenarios/bgm/"
  const BgBase: string := "https://static-r.kamihimeproject.net/scenarios/bgimage/"
  const ScenariosBase: string := "https://static-r.kamihimeproject.net/scenarios/"

  // ---------------------------------------------------------------------------
  // Substring search
  // ---------------------------------------------------------------------------

  /** `p` occurs in `s` at index `i`. */
  predicate Occurs(s: string, p: string, i: int) {
    0 <= i && i + |p| <= |s| && s[i..i + |p|] == p
  }

  /** `s.find(p, i)` when it is not -1: the first occurrence of `p` at or after `i`. */
  function FindFrom(s: string, p: string, i: nat): (r: Option<nat>)
    ensures r.Some? ==> i <= r.value && Occurs(s, p, r.value) && forall j :: i <= j < r.value ==> !Occurs(s, p, j)
    ensures r.None? ==> forall j :: i <= j ==> !Occurs(s, p, j)
    decreases |s| - i
  {
    if i + |p| > |s| then None
    else if s[i..i + |p|] == p then Some(i)
    else FindFrom(s, p, i + 1)
  }

  /** `s.rfind(p)` when it is not -1: the last occurrence of `p`. */
  function RFindSub(s: string, p: string): (r: Option<nat>)
    ensures r.Some? ==> Occurs(s, p, r.value) && forall j :: r.value < j ==> !Occurs(s, p, j)
    ensures r.None? ==> forall j :: !Occurs(s, p, j)
    decreases |s|
  {
    if |p| > |s| then None
    else if s[|s| - |p|..] == p then Some(|s| - |p|)
    else
      var r := RFindSub(s[..|s| - 1], p);
      assert forall j :: Occurs(s, p, j) && j + |p| < |s| ==> Occurs(s[..|s| - 1], p, j) by {
        forall j | Occurs(s, p, j) && j + |p| < |s| ensures Occurs(s[..|s| - 1], p, j) {
          assert s[..|s| - 1][j..j + |p|] == s[j..j + |p|];
        }
      }
      assert forall j :: Occurs(s[..|s| - 1], p, j) ==> Occurs(s, p, j) by {
        forall j | Occurs(s[..|s| - 1], p, j) ensures Occurs(s, p, j) {
          assert s[..|s| - 1][j..j + |p|] == s[j..j + |p|];
        }
      }
      r
  }

  // ---------------------------------------------------------------------------
  // download_script: the clean-up of a JSON script and the script's file name
  // ---------------------------------------------------------------------------

  /** A comma just after `}` and before a `]` (whitespace between allowed); the `}` stays. */
  const BraceComma := Deletion(Some('}'), ',', Some("]"))
  /** A comma just after `]` and before a `}` (whitespace between allowed); the `]` stays. */
  const BracketComma := Deletion(Some(']'), ',', Some("}"))
  /** Any comma before a `}` (whitespace between allowed); the check that the character is not `}` always holds at a comma. */
  const ClosingComma := Deletion(None, ',', Some("}"))
  /** A semicolon just after `]`; the `]` stays. */
  const BracketSemicolon := Deletion(Some(']'), ';', None)

  /** The four substitutions, in the order they are applied to a downloaded JSON script. */
  function CleanScript(text: string): string {
    Sub(BracketSemicolon, Sub(ClosingComma, Sub(BracketComma, Sub(BraceComma, text))))
  }

  /** What is written to the script file: JSON scripts are cleaned, others are kept as sent. */
  function ScriptContent(scriptPath: string, text: string): string {
    if EndsWith(scriptPath, "json") then CleanScript(text) else text
  }

  /** Each substitution deletes exactly the characters its pattern matches in the text it is given. */
  lemma {:induction false} CleanScriptDeletes(text: string)
    ensures CleanScript(text)
      == Deleted(BracketSemicolon, Deleted(ClosingComma, Deleted(BracketComma, Deleted(BraceComma, text, None), None), None), None)
  {
    SubDeletes(BraceComma, text, None);
    var t1 := Sub(BraceComma, text);
    SubDeletes(BracketComma, t1, None);
    var t2 := Sub(BracketComma, t1);
    SubDeletes(ClosingComma, t2, None);
    var t3 := Sub(ClosingComma, t2);
    SubDeletes(BracketSemicolon, t3, None);
  }

  /** Deleting commas or semicolons leaves every other character, in order. */
  lemma {:induction false} DeletedUnpunctuated(d: Deletion, s: string, prev: Option<char>)
    requires d.target == ',' || d.target == ';'
    ensures Without(Deleted(d, s, prev), ',', ';') == Without(s, ',', ';')
    decreases |s|
  {
    if |s| > 0 {
      DeletedUnpunctuated(d, s[1..], Some(s[0]));
      var rest := Deleted(d, s[1..], Some(s[0]));
      if !Hit(d, prev, s[0], s[1..]) {
        assert ([s[0]] + rest)[1..] == rest;
      } else {
        assert "" + rest == rest;
      }
    }
  }

  /** The clean-up removes only commas and semicolons: every other character is kept, in order. */
  lemma {:induction false} CleanScriptKeeps(text: string)
    ensures Without(CleanScript(text), ',', ';') == Without(text, ',', ';')
  {
    CleanScriptDeletes(text);
    var t1 := Deleted(BraceComma, text, None);
    var t2 := Deleted(BracketComma, t1, None);
    var t3 := Deleted(ClosingComma, t2, None);
    DeletedUnpunctuated(BraceComma, text, None);
    DeletedUnpunctuated(BracketComma, t1, None);
    DeletedUnpunctuated(ClosingComma, t2, None);
    DeletedUnpunctuated(BracketSemicolon, t3, None);
  }

  /** A text without commas and semicolons is written as it came. */
  lemma {:induction false} CleanScriptPlain(text: string)
    requires ',' !in text && ';' !in text
    ensures CleanScript(text) == text
  {
    CleanScriptDeletes(text);
    DeletedAbsent(BraceComma, text, None);
    DeletedAbsent(BracketComma, text, None);
    DeletedAbsent(ClosingComma, text, None);
    DeletedAbsent(BracketSemicolon, text, None);
  }

  /** The script's file name: the scenario file name without `.json` and `.ks`, then `_script` and the extension. */
  function ScriptName(filename: string, ext: string): string {
    ReplaceAll(ReplaceAll(filename, ".json", ""), ".ks", "") + "_script" + ext
  }

  /** A script's own file name contains `_script`, so the walk over scenario files passes it by. */
  lemma {:induction false} ScriptNameSkipped(filename: string, ext: string)
    ensures Contains(ScriptName(filename, ext), "_script")
  {
    var stem := ReplaceAll(ReplaceAll(filename, ".json", ""), ".ks", "");
    var n := ScriptName(filename, ext);
    assert n[|stem|..|stem| + |"_script"|] == "_script";
    ContainsAt(n, "_script", |stem|);
  }

  // ---------------------------------------------------------------------------
  // Legacy scripts: the value of the last storage="..." on a line that holds `[tag`
  // ---------------------------------------------------------------------------

  const Storage: string := "storage=\""

  /** An occurrence inside a slice is an occurrence in the whole text, shifted. */
  lemma {:induction false} OccursSlice(s: string, p: string, lo: nat, hi: nat, j: int)
    requires lo <= j && j + |p| <= hi <= |s|
    ensures Occurs(s, p, j) <==> Occurs(s[lo..hi], p, j - lo)
  {
    var a, b := s[lo..hi][j - lo..j - lo + |p|], s[j..j + |p|];
    assert |a| == |b| && forall k :: 0 <= k < |a| ==> a[k] == s[j + k] == b[k];
  }

  /** The last `storage="` lying wholly in `line[start..q]`, as an index into `line`. */
  function LastStorage(line: string, start: nat, q: nat): (r: Option<nat>)
    requires start <= q <= |line|
    ensures r.Some? ==> start <= r.value && r.value + |Storage| <= q && Occurs(line, Storage, r.value)
    ensures r.Some? ==> forall j :: r.value < j && j + |Storage| <= q ==> !Occurs(line, Storage, j)
    ensures r.None? ==> forall j :: start <= j && j + |Storage| <= q ==> !Occurs(line, Storage, j)
  {
    var t := line[start..q];
    forall j | start <= j && j + |Storage| <= q
      ensures Occurs(line, Storage, j) <==> Occurs(t, Storage, j - start)
    {
      OccursSlice(line, Storage, start, q, j);
    }
    match RFindSub(t, Storage)
    case None => None
    case Some(p) => Some(start + p)
  }

  /**
   * The capture of the pattern on one line, if it matches there. The first
   * `.*` is greedy, so the last `storage="` still followed by a `"` is taken;
   * the second is greedy too, so the capture runs to the line's last `"`.
   */
  function Capture(tag: string, line: string): Option<string> {
    match FindFrom(line, "[" + tag, 0)
    case None => None
    case Some(a) =>
      match RFind(line, '"')
      case None => None
      case Some(q) =>
        if q < a + |tag| + 1 then None
        else
          match LastStorage(line, a + |tag| + 1, q)
          case None => None
          case Some(p) => Some(line[p + |Storage|..q])
  }

  /** The pattern's shape on a line: `[tag` at `a`, then `storage="` at `p`, then a `"` at `q`. */
  predicate Shape(tag: string, line: string, a: int, p: int, q: int) {
    Occurs(line, "[" + tag, a) && a + |tag| + 1 <= p && Occurs(line, Storage, p)
    && p + |Storage| <= q < |line| && line[q] == '"'
  }

  /** A line with the pattern's shape yields a reference. */
  lemma {:induction false} CaptureComplete(tag: string, line: string, a: int, p: int, q: int)
    requires Shape(tag, line, a, p, q)
    ensures Capture(tag, line).Some?
  {
    var a0 := FindFrom(line, "[" + tag, 0).value;
    assert line[q] in line;
    var q0 := RFind(line, '"').value;
    forall k | q0 < k < |line| ensures line[k] != '"' {
      assert line[q0 + 1..][k - q0 - 1] == line[k];
    }
  }

  /**
   * A line yields a reference only with the pattern's shape, and the
   * reference runs from after the last such `storage="` to the line's last `"`.
   */
  lemma {:induction false} CaptureSound(tag: string, line: string)
    requires Capture(tag, line).Some?
    ensures RFind(line, '"').Some?
    ensures (exists a, p ::
               Shape(tag, line, a, p, RFind(line, '"').value) && Capture(tag, line).value == line[p + |Storage|..RFind(line, '"').value])
  {
    var a := FindFrom(line, "[" + tag, 0).value;
    var q := RFind(line, '"').value;
    var p := LastStorage(line, a + |tag| + 1, q).value;
    assert Shape(tag, line, a, p, q);
  }

  /** The references one pattern yields in a script, line by line. */
  function Captures(tag: string, lines: seq<string>): (r: seq<string>)
    ensures |r| <= |lines|
  {
    if |lines| == 0 then []
    else
      var rest := Captures(tag, lines[..|lines| - 1]);
      match Capture(tag, lines[|lines| - 1])
      case None => rest
      case Some(v) => rest + [v]
  }

  /** `re.finditer` over the script: `.` does not match a newline, so the script is taken line by line. */
  function Lines(script: string): seq<string> {
    Split(script, '\n')
  }

  /** A captured reference is a piece of its line, so it holds only the line's characters. */
  lemma {:induction false} CaptureWithin(tag: string, line: string, c: char)
    requires Capture(tag, line).Some? && c in Capture(tag, line).value
    ensures c in line
  {
    var lo, hi := CaptureSlice(tag, line);
    var v := line[lo..hi];
    var i :| 0 <= i < |v| && v[i] == c;
    assert line[lo + i] == c;
  }

  /** A capture is a slice of its line. */
  lemma {:induction false} CaptureSlice(tag: string, line: string) returns (lo: nat, hi: nat)
    requires Capture(tag, line).Some?
    ensures lo <= hi <= |line| && Capture(tag, line).value == line[lo..hi]
  {
    CaptureSound(tag, line);
    var q := RFind(line, '"').value;
    var a, p :| Shape(tag, line, a, p, q) && Capture(tag, line).value == line[p + |Storage|..q];
    lo, hi := p + |Storage|, q;
  }

  /** Every reference is the capture of one of the lines. */
  lemma {:induction false} CapturesSound(tag: string, lines: seq<string>, v: string)
    requires v in Captures(tag, lines)
    ensures exists i :: 0 <= i < |lines| && Capture(tag, lines[i]) == Some(v)
    decreases |lines|
  {
    var init := lines[..|lines| - 1];
    if v in Captures(tag, init) {
      CapturesSound(tag, init, v);
      var i :| 0 <= i < |init| && Capture(tag, init[i]) == Some(v);
      assert init[i] == lines[i];
    } else {
      assert Capture(tag, lines[|lines| - 1]) == Some(v);
    }
  }

  /** Every line that matches contributes its capture. */
  lemma {:induction false} CapturesComplete(tag: string, lines: seq<string>, i: nat)
    requires i < |lines| && Capture(tag, lines[i]).Some?
    ensures Capture(tag, lines[i]).value in Captures(tag, lines)
    decreases |lines|
  {
    if i < |lines| - 1 {
      var init := lines[..|lines| - 1];
      assert init[i] == lines[i];
      CapturesComplete(tag, init, i);
    }
  }

  /** A script line never holds a newline, so neither does a reference captured from it. */
  lemma {:induction false} CapturesNoNewline(tag: string, script: string)
    ensures forall v :: v in Captures(tag, Lines(script)) ==> '\n' !in v
  {
    var lines := Lines(script);
    forall v | v in Captures(tag, lines) ensures '\n' !in v {
      CapturesSound(tag, lines, v);
      var i :| 0 <= i < |lines| && Capture(tag, lines[i]) == Some(v);
      if '\n' in v {
        CaptureWithin(tag, lines[i], '\n');
      }
    }
  }

  // ---------------------------------------------------------------------------
  // Destination of a downloaded asset
  // ---------------------------------------------------------------------------

  const PcH: string := "_pc_h"

  /**
   * The background-image rewrite on a one-line value: the pattern's greedy
   * first group ends at the last `-`, so `_pc_h` goes in just before it.
   */
  function InsertPcH(v: string): (r: string)
    requires '\n' !in v
    ensures '-' !in v ==> r == v
    ensures '-' in v ==> exists k :: 0 <= k < |v| && v[k] == '-' && '-' !in v[k + 1..] && r == v[..k] + PcH + v[k..]
  {
    match RFind(v, '-')
    case None => v
    case Some(k) => v[..k] + PcH + v[k..]
  }

  /** The link with every blank removed. */
  function Despace(link: string): string {
    ReplaceAll(link, " ", "")
  }

  /** The base name of a link: everything after its last `/`, or the whole link. */
  function Basename(link: string): (r: string)
    ensures '/' !in r && EndsWith(link, r)
    ensures '/' in link ==> |r| < |link| && link[|link| - |r| - 1] == '/'
    ensures '/' !in link ==> r == link
  {
    match RFind(link, '/')
    case None => link
    case Some(k) => link[k + 1..]
  }

  /** POSIX path joining: an absolute `b` replaces `a`; otherwise a `/` is put between them if needed. */
  function JoinPath(a: string, b: string): string {
    if StartsWith(b, "/") then b
    else if a == "" || EndsWith(a, "/") then a + b
    else a + "/" + b
  }

  /** Where a link's file is saved: its base name under the resource directory of the asset folder, with every `_pc_h` removed. */
  function Dest(assetFolder: string, resourceDirectory: string, link: string): string {
    ReplaceAll(JoinPath(JoinPath(assetFolder, resourceDirectory), Basename(Despace(link))), PcH, "")
  }

  /** Replacing a one-character pattern works piece by piece. */
  lemma {:induction false} ReplaceCharConcat(a: string, b: string, pat: string, rep: string)
    requires |pat| == 1
    ensures ReplaceAll(a + b, pat, rep) == ReplaceAll(a, pat, rep) + ReplaceAll(b, pat, rep)
    decreases |a|
  {
    if |a| > 0 {
      assert (a + b)[..1] == a[..1] && (a + b)[1..] == a[1..] + b;
      ReplaceCharConcat(a[1..], b, pat, rep);
    } else {
      assert a + b == b;
    }
  }

  /** The last `c` of `a + b` is that of `b` when `b` has one, and otherwise that of `a`. */
  lemma {:induction false} RFindConcat(a: string, b: string, c: char)
    ensures c in b ==> RFind(a + b, c) == Some(|a| + RFind(b, c).value)
    ensures c !in b ==> RFind(a + b, c) == RFind(a, c)
    decreases |b|
  {
    if |b| == 0 {
      assert a + b == a;
    } else {
      var b0 := b[..|b| - 1];
      assert (a + b)[..|a + b| - 1] == a + b0;
      if b[|b| - 1] != c {
        assert c in b <==> c in b0;
        RFindConcat(a, b0, c);
      }
    }
  }

  lemma {:induction false} BasenameConcat(a: string, b: string)
    ensures '/' in b ==> Basename(a + b) == Basename(b)
    ensures '/' !in b ==> Basename(a + b) == Basename(a) + b
  {
    if '/' in b {
      BasenameConcatSlash(a, b);
    } else {
      BasenameConcatFree(a, b);
    }
  }

  lemma {:induction false} BasenameConcatSlash(a: string, b: string)
    requires '/' in b
    ensures Basename(a + b) == Basename(b)
  {
    RFindConcat(a, b, '/');
    var k := RFind(b, '/').value;
    assert (a + b)[|a| + k + 1..] == b[k + 1..];
  }

  lemma {:induction false} BasenameConcatFree(a: string, b: string)
    requires '/' !in b
    ensures Basename(a + b) == Basename(a) + b
  {
    RFindConcat(a, b, '/');
    if '/' in a {
      var k := RFind(a, '/').value;
      assert RFind(a + b, '/') == Some(k);
      assert (a + b)[k + 1..] == a[k + 1..] + b;
    } else {
      assert '/' !in a + b;
    }
  }

  /**
   * `_pc_h` overlaps no shifted copy of itself, so a copy of it placed before
   * a character it does not contain is removed on its own: the text around
   * it is replaced as if it were absent.
   */
  lemma {:induction false} PcHRemovedAlone(x: string, q: string)
    requires |q| > 0 && q[0] !in PcH
    ensures ReplaceAll(x + PcH + q, PcH, "") == ReplaceAll(x + q, PcH, "")
    decreases |x|
  {
    var s := x + PcH + q;
    if |x| == 0 {
      assert s == PcH + q && x + q == q;
      ReplaceLeading(PcH, q, "");
    } else if |x| >= |PcH| && x[..|PcH|] == PcH {
      assert s[..|PcH|] == PcH && s[|PcH|..] == x[|PcH|..] + PcH + q;
      assert (x + q)[..|PcH|] == PcH && (x + q)[|PcH|..] == x[|PcH|..] + q;
      PcHRemovedAlone(x[|PcH|..], q);
    } else {
      assert s[..|PcH|] != PcH by {
        if |x| < |PcH| {
          var m := |x|;
          var j := if m == 3 then 1 else 0;
          assert s[m + j] == PcH[j];
          assert s[..|PcH|][m + j] != PcH[m + j];
        } else {
          assert s[..|PcH|] == x[..|PcH|];
        }
      }
      if |x + q| >= |PcH| {
        assert (x + q)[..|PcH|] != PcH by {
          if |x| < |PcH| {
            assert (x + q)[..|PcH|][|x|] == q[0];
            assert PcH[|x|] in PcH;
          } else {
            assert (x + q)[..|PcH|] == x[..|PcH|];
          }
        }
      }
      assert s[1..] == x[1..] + PcH + q && (x + q)[1..] == x[1..] + q;
      PcHRemovedAlone(x[1..], q);
    }
  }

  /** Removing `_pc_h` undoes its insertion into a `bg` value. */
  lemma {:induction false} InsertPcHRemoved(v: string)
    requires '\n' !in v
    ensures ReplaceAll(InsertPcH(v), PcH, "") == ReplaceAll(v, PcH, "")
  {
    if '-' in v {
      var k := RFind(v, '-').value;
      assert v == v[..k] + v[k..];
      PcHRemovedAlone(v[..k], v[k..]);
    }
  }

  /** Spaces go from each side of an inserted `_pc_h`, which keeps the `-` that follows it. */
  lemma {:induction false} DespaceAround(x: string, y: string)
    requires |y| > 0 && y[0] == '-'
    ensures Despace(x + y) == Despace(x) + Despace(y)
    ensures Despace(x + (PcH + y)) == Despace(x) + PcH + Despace(y)
    ensures |Despace(y)| > 0 && Despace(y)[0] == '-'
  {
    ReplaceCharConcat(x, y, " ", "");
    ReplaceCharConcat(x, PcH + y, " ", "");
    ReplaceCharConcat(PcH, y, " ", "");
    ReplaceAbsent(PcH, " ", "");
    assert y == [y[0]] + y[1..] && y[..1] == ['-'];
  }

  /** A name that does not start with `/` is put under the directory the same way whatever it is. */
  lemma {:induction false} JoinPathName(d: string, b: string, w: string)
    requires |w| > 0 && w[0] != '/' && '/' !in b
    ensures JoinPath(d, b + w) == (if d == "" || EndsWith(d, "/") then d else d + "/") + b + w
  {
    assert (b + w)[0] != '/' by {
      if |b| == 0 { assert (b + w)[0] == w[0]; } else { assert (b + w)[0] == b[0]; }
    }
  }

  /** A file name with a `_pc_h` before a `-` lands, once `_pc_h` is removed, where the name without it does. */
  lemma {:induction false} JoinPathPcH(d: string, b: string, w: string)
    requires |w| > 0 && w[0] == '-' && '/' !in b
    ensures ReplaceAll(JoinPath(d, b + (PcH + w)), PcH, "") == ReplaceAll(JoinPath(d, b + w), PcH, "")
  {
    var dir := if d == "" || EndsWith(d, "/") then d else d + "/";
    JoinPathName(d, b, PcH + w);
    JoinPathName(d, b, w);
    assert dir + b + (PcH + w) == (dir + b) + PcH + w;
    PcHRemovedAlone(dir + b, w);
  }

  /** The base name of a link with a `_pc_h` inserted before a last part without `/`. */
  lemma {:induction false} BasenamePcHFree(a: string, w: string)
    requires '/' !in w
    ensures Basename((a + PcH) + w) == Basename(a) + (PcH + w)
  {
    var u := PcH + w;
    assert '/' !in u;
    assert (a + PcH) + w == a + u;
    BasenameConcat(a, u);
  }

  /** The base name of a link with a `_pc_h` inserted before a last part with a `/`. */
  lemma {:induction false} BasenamePcHSlash(a: string, w: string)
    requires '/' in w
    ensures Basename((a + PcH) + w) == Basename(a + w)
  {
    BasenameConcat(a + PcH, w);
    BasenameConcat(a, w);
  }

  /** A link with `_pc_h` just before a `-` is saved where the link without it is saved. */
  lemma {:induction false} DestPcHAt(assetFolder: string, resourceDirectory: string, p: string, y: string)
    requires |y| > 0 && y[0] == '-'
    ensures Dest(assetFolder, resourceDirectory, p + (PcH + y)) == Dest(assetFolder, resourceDirectory, p + y)
  {
    DespaceAround(p, y);
    var a, w := Despace(p), Despace(y);
    assert Despace(p + (PcH + y)) == (a + PcH) + w;
    if '/' !in w {
      BasenamePcHFree(a, w);
      BasenameConcat(a, w);
      JoinPathPcH(JoinPath(assetFolder, resourceDirectory), Basename(a), w);
    } else {
      BasenamePcHSlash(a, w);
    }
  }

  /**
   * A `bg` link is requested with `_pc_h` inserted into its value, and the
   * file is saved where the link without it would be saved.
   */
  lemma {:induction false} DestIgnoresPcH(assetFolder: string, resourceDirectory: string, base: string, v: string)
    requires '\n' !in v
    ensures Dest(assetFolder, resourceDirectory, base + InsertPcH(v)) == Dest(assetFolder, resourceDirectory, base + v)
  {
    if '-' in v {
      var x, y := InsertPcHSplit(v);
      assert base + v == (base + x) + y;
      assert base + InsertPcH(v) == (base + x) + (PcH + y);
      DestPcHAt(assetFolder, resourceDirectory, base + x, y);
    }
  }

  /** Where `_pc_h` goes: before the last `-`, which starts the second part. */
  lemma {:induction false} InsertPcHSplit(v: string) returns (x: string, y: string)
    requires '\n' !in v && '-' in v
    ensures v == x + y && InsertPcH(v) == x + (PcH + y) && |y| > 0 && y[0] == '-'
  {
    var k := RFind(v, '-').value;
    x, y := v[..k], v[k..];
    assert v == x + y;
  }

  // ---------------------------------------------------------------------------
  // Legacy scripts: the two batches of links
  // ---------------------------------------------------------------------------

  /** The link one captured value gives: the base, then the value, with `_pc_h` inserted for `bg`. */
  function RefLink(base: string, insert: bool, v: string): string
    requires '\n' !in v
  {
    base + (if insert then InsertPcH(v) else v)
  }

  /** The links one pattern gives over the lines, in line order. */
  function RefLinks(tag: string, base: string, insert: bool, lines: seq<string>): (r: seq<string>)
    requires forall i :: 0 <= i < |lines| ==> '\n' !in lines[i]
    ensures |r| == |Captures(tag, lines)|
    ensures forall l :: l in r ==> StartsWith(l, base)
    decreases |lines|
  {
    if |lines| == 0 then []
    else
      var init := lines[..|lines| - 1];
      var rest := RefLinks(tag, base, insert, init);
      match Capture(tag, lines[|lines| - 1])
      case None => rest
      case Some(v) =>
        if '\n' in v then
          CaptureWithin(tag, lines[|lines| - 1], '\n');
          assert false;
          rest
        else
          rest + [RefLink(base, insert, v)]
  }

  /** One more line adds the link of its capture, if it has one. */
  lemma {:induction false} RefLinksStep(tag: string, base: string, insert: bool, lines: seq<string>, i: nat)
    requires i < |lines| && forall k :: 0 <= k < |lines| ==> '\n' !in lines[k]
    ensures Capture(tag, lines[i]).Some? ==> '\n' !in Capture(tag, lines[i]).value
    ensures RefLinks(tag, base, insert, lines[..i + 1])
         == RefLinks(tag, base, insert, lines[..i])
          + (if Capture(tag, lines[i]).Some? then [RefLink(base, insert, Capture(tag, lines[i]).value)] else [])
  {
    var c := Capture(tag, lines[i]);
    if c.Some? && '\n' in c.value {
      CaptureWithin(tag, lines[i], '\n');
    }
    var next := lines[..i + 1];
    assert next[..i] == lines[..i] && next[i] == lines[i];
  }

  /** The links of one pattern, collected by scanning the lines in order. */
  method CollectRefs(tag: string, base: string, insert: bool, lines: seq<string>) returns (links: seq<string>)
    requires forall i :: 0 <= i < |lines| ==> '\n' !in lines[i]
    ensures links == RefLinks(tag, base, insert, lines)
  {
    links := [];
    var i := 0;
    while i < |lines|
      invariant 0 <= i <= |lines|
      invariant links == RefLinks(tag, base, insert, lines[..i])
    {
      RefLinksStep(tag, base, insert, lines, i);
      var c := Capture(tag, lines[i]);
      if c.Some? {
        links := links + [RefLink(base, insert, c.value)];
      }
      i := i + 1;
    }
    assert lines[..i] == lines;
  }

  /** The first three `/`-separated parts of the scenario path. */
  function SoundDir(scenarioPath: string): string {
    var parts := Split(scenarioPath, '/');
    Join(parts[..if |parts| < 3 then |parts| else 3], "/")
  }

  /** The first batch: `chara_face` faces, `playbgm` music and `bg` backgrounds, each pattern over the whole script in turn. */
  function FirstBatch(script: string): seq<string> {
    var lines := Lines(script);
    RefLinks("chara_face", FgimageBase, false, lines)
    + RefLinks("playbgm", BgmBase, false, lines)
    + RefLinks("bg", BgBase, true, lines)
  }

  /** The second batch: `playse` sounds, under the scenario's own `sound` folder. */
  function SoundBatch(script: string, scenarioPath: string): seq<string> {
    RefLinks("playse", ScenariosBase + SoundDir(scenarioPath) + "/sound/", false, Lines(script))
  }

  /** Both batches of a legacy script, as the four scans in order build them. */
  method CollectLegacyLinks(script: string, scenarioPath: string) returns (first: seq<string>, sound: seq<string>)
    ensures first == FirstBatch(script) && sound == SoundBatch(script, scenarioPath)
  {
    var lines := Lines(script);
    var faces := CollectRefs("chara_face", FgimageBase, false, lines);
    var music := CollectRefs("playbgm", BgmBase, false, lines);
    var backgrounds := CollectRefs("bg", BgBase, true, lines);
    first := faces + music + backgrounds;
    sound := CollectRefs("playse", ScenariosBase + SoundDir(scenarioPath) + "/sound/", false, lines);
  }

  /** `sep.join` of a split glues the pieces back together. */
  lemma {:induction false} JoinSplit(s: string, c: char)
    ensures Join(Split(s, c), [c]) == s
    decreases |s|
  {
    if |s| > 0 {
      var t := Split(s[1..], c);
      JoinSplit(s[1..], c);
      if s[0] == c {
        assert Join(Split(s, c), [c]) == "" + [c] + Join(t, [c]);
      } else {
        if |t| > 1 {
          assert ([[s[0]] + t[0]] + t[1..])[1..] == t[1..];
        }
      }
      assert s == [s[0]] + s[1..];
    }
  }

  /** Joining the first `n` pieces gives a prefix of joining them all. */
  lemma {:induction false} JoinPrefix(parts: seq<string>, n: nat, sep: string)
    requires n <= |parts|
    ensures StartsWith(Join(parts, sep), Join(parts[..n], sep))
    decreases n
  {
    if n >= 2 {
      assert parts[..n][1..] == parts[1..][..n - 1];
      JoinPrefix(parts[1..], n - 1, sep);
      var j := Join(parts[1..][..n - 1], sep);
      assert Join(parts[..n], sep) == parts[0] + sep + j;
      assert Join(parts, sep) == parts[0] + sep + Join(parts[1..], sep);
      assert (parts[0] + sep + Join(parts[1..], sep))[..|parts[0] + sep + j|] == parts[0] + sep + j;
    } else if n == 1 {
      if |parts| > 1 {
        assert (parts[0] + sep + Join(parts[1..], sep))[..|parts[0]|] == parts[0];
      }
    }
  }

  /** The sound folder is the start of the scenario path, all of it when the path has at most three segments. */
  lemma {:induction false} SoundDirPrefix(scenarioPath: string)
    ensures StartsWith(scenarioPath, SoundDir(scenarioPath))
    ensures |Split(scenarioPath, '/')| <= 3 ==> SoundDir(scenarioPath) == scenarioPath
  {
    var parts := Split(scenarioPath, '/');
    JoinSplit(scenarioPath, '/');
    JoinPrefix(parts, if |parts| < 3 then |parts| else 3, "/");
    assert parts[..|parts|] == parts;
  }

  // ---------------------------------------------------------------------------
  // Hscene scripts: links from the `scenario` sections
  // ---------------------------------------------------------------------------

  /**
   * The scenario path up to its last `/`. With no `/` the search gives -1,
   * and the slice then drops the path's last character.
   */
  function ResourcePath(scenarioPath: string): (r: string)
    ensures '/' in scenarioPath ==> scenarioPath == r + "/" + Basename(scenarioPath)
    ensures '/' !in scenarioPath ==> r == PySlice(scenarioPath, 0, -1)
  {
    match RFind(scenarioPath, '/')
    case Some(k) =>
      assert scenarioPath == scenarioPath[..k] + "/" + scenarioPath[k + 1..];
      scenarioPath[..k]
    case None => PySlice(scenarioPath, 0, -1)
  }

  /** The link of one file named in the script. */
  function HsceneLink(resourcePath: string, name: string): string {
    ScenariosBase + resourcePath + "/" + name
  }

  /** The member `key` of a section when the section has it, `None` when it does not; either test may raise. */
  function Member(section: Json, key: string): Result<Option<Json>> {
    match In(key, section)
    case Raised => Raised
    case Ok(false) => Ok(None)
    case Ok(true) =>
      match Index(section, KStr(key))
      case Raised => Raised
      case Ok(v) => Ok(Some(v))
  }

  /** The `bgm` name of a section: one, when the section has the key. */
  function BgmNames(section: Json): (r: Result<seq<string>>)
    ensures r.Ok? ==> |r.value| <= 1 && (|r.value| == 1 <==> In("bgm", section) == Ok(true))
  {
    match Member(section, "bgm")
    case Raised => Raised
    case Ok(None) => Ok([])
    case Ok(Some(v)) => Ok([Str(v)])
  }

  /** The string entries of a `film` list that end with `.jpg`, in order. */
  function JpgStrings(items: seq<Json>): (r: seq<string>)
    ensures forall n :: n in r ==> EndsWith(n, ".jpg") && JStr(n) in items
    ensures forall i :: 0 <= i < |items| && StrEndsWith(items[i], ".jpg") ==> items[i].s in r
    decreases |items|
  {
    if |items| == 0 then []
    else
      var init := items[..|items| - 1];
      var last := items[|items| - 1];
      assert forall i :: 0 <= i < |init| ==> init[i] == items[i];
      JpgStrings(init) + (if StrEndsWith(last, ".jpg") then [last.s] else [])
  }

  /** The `film` names of a section: the `.jpg` strings of a list, or the string itself if it ends with `.jpg`. */
  function FilmNames(section: Json): (r: Result<seq<string>>)
    ensures r.Ok? ==> forall n :: n in r.value ==> EndsWith(n, ".jpg")
  {
    match Member(section, "film")
    case Raised => Raised
    case Ok(None) => Ok([])
    case Ok(Some(film)) =>
      match film
      case JArr(items) => Ok(JpgStrings(items))
      case JStr(f) => Ok(if EndsWith(f, ".jpg") then [f] else [])
      case _ => Raised
  }

  /** The `voice` names of the parts of a `talk`, in order. */
  function VoiceNames(parts: seq<Json>): (r: Result<seq<string>>)
    ensures r.Ok? <==> forall i :: 0 <= i < |parts| ==> Member(parts[i], "voice").Ok?
    ensures r.Ok? ==> |r.value| <= |parts|
    decreases |parts|
  {
    if |parts| == 0 then Ok([])
    else
      var init := parts[..|parts| - 1];
      assert forall i :: 0 <= i < |init| ==> init[i] == parts[i];
      match VoiceNames(init)
      case Raised => Raised
      case Ok(names) =>
        match Member(parts[|parts| - 1], "voice")
        case Raised => Raised
        case Ok(None) => Ok(names)
        case Ok(Some(v)) => Ok(names + [Str(v)])
  }

  /** The `talk` names of a section. */
  function TalkNames(section: Json): Result<seq<string>> {
    match Member(section, "talk")
    case Raised => Raised
    case Ok(None) => Ok([])
    case Ok(Some(talk)) =>
      match Iter(talk)
      case Raised => Raised
      case Ok(parts) => VoiceNames(parts)
  }

  /** The names one section contributes: its `bgm`, then its `film` pictures, then its voices. */
  function SectionNames(section: Json): Result<seq<string>> {
    match BgmNames(section)
    case Raised => Raised
    case Ok(bgm) =>
      match FilmNames(section)
      case Raised => Raised
      case Ok(film) =>
        match TalkNames(section)
        case Raised => Raised
        case Ok(voices) => Ok(bgm + film + voices)
  }

  function HsceneLinksOf(resourcePath: string, names: seq<string>): (r: seq<string>)
    ensures |r| == |names| && forall i :: 0 <= i < |names| ==> r[i] == HsceneLink(resourcePath, names[i])
  {
    seq(|names|, i requires 0 <= i < |names| => HsceneLink(resourcePath, names[i]))
  }

  /** The links of the sections, section by section; any section that raises ends the whole. */
  function SectionsLinks(resourcePath: string, sections: seq<Json>): (r: Result<seq<string>>)
    ensures r.Ok? ==> forall l :: l in r.value ==> StartsWith(l, ScenariosBase + resourcePath + "/")
    decreases |sections|
  {
    if |sections| == 0 then Ok([])
    else
      match SectionsLinks(resourcePath, sections[..|sections| - 1])
      case Raised => Raised
      case Ok(links) =>
        match SectionNames(sections[|sections| - 1])
        case Raised => Raised
        case Ok(names) =>
          var more := HsceneLinksOf(resourcePath, names);
          assert forall l :: l in more ==> StartsWith(l, ScenariosBase + resourcePath + "/") by {
            forall l | l in more ensures StartsWith(l, ScenariosBase + resourcePath + "/") {
              var i :| 0 <= i < |more| && more[i] == l;
              assert l == (ScenariosBase + resourcePath + "/") + names[i];
            }
          }
          Ok(links + more)
  }

  /** The links of an hscene script: its `scenario` list (empty when absent), section by section. */
  function HsceneLinks(scenarioPath: string, script: Json): Result<seq<string>> {
    match GetOr(script, "scenario", JArr([]))
    case Raised => Raised
    case Ok(scenes) =>
      match Iter(scenes)
      case Raised => Raised
      case Ok(sections) => SectionsLinks(ResourcePath(scenarioPath), sections)
  }

  /** One more section appends its links to those of the sections before it, or raises. */
  lemma {:induction false} SectionsLinksStep(resourcePath: string, sections: seq<Json>, i: nat, links: seq<string>)
    requires i < |sections| && SectionsLinks(resourcePath, sections[..i]) == Ok(links)
    ensures SectionsLinks(resourcePath, sections[..i + 1]) ==
      match SectionNames(sections[i])
      case Raised => Raised
      case Ok(names) => Ok(links + HsceneLinksOf(resourcePath, names))
  {
    assert sections[..i + 1][..i] == sections[..i];
  }

  /** Once a prefix of the sections raises, so does every longer run of them. */
  lemma {:induction false} SectionsLinksRaised(resourcePath: string, sections: seq<Json>, n: nat)
    requires n <= |sections| && SectionsLinks(resourcePath, sections[..n]).Raised?
    ensures SectionsLinks(resourcePath, sections).Raised?
    decreases |sections|
  {
    if n < |sections| {
      var init := sections[..|sections| - 1];
      assert init[..n] == sections[..n];
      SectionsLinksRaised(resourcePath, init, n);
    } else {
      assert sections[..n] == sections;
    }
  }

  /** The link list the hscene loop builds, appending each section's links in turn. */
  method CollectHsceneLinks(scenarioPath: string, script: Json) returns (r: Result<seq<string>>)
    ensures r == HsceneLinks(scenarioPath, script)
  {
    var scenes := GetOr(script, "scenario", JArr([]));
    if scenes.Raised? {
      return Raised;
    }
    var it := Iter(scenes.value);
    if it.Raised? {
      return Raised;
    }
    var sections := it.value;
    var resourcePath := ResourcePath(scenarioPath);
    var links: seq<string> := [];
    var i := 0;
    while i < |sections|
      invariant 0 <= i <= |sections|
      invariant SectionsLinks(resourcePath, sections[..i]) == Ok(links)
    {
      SectionsLinksStep(resourcePath, sections, i, links);
      var names := SectionNames(sections[i]);
      if names.Raised? {
        SectionsLinksRaised(resourcePath, sections, i + 1);
        return Raised;
      }
      links := links + HsceneLinksOf(resourcePath, names.value);
      i := i + 1;
    }
    assert sections[..i] == sections;
    r := Ok(links);
  }
}

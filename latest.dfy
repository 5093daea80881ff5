/**
 * The band configuration file: one `key: value` setting per line, read into
 * an insertion-ordered dictionary (app.py `load_latest_txt`).
 */
module Latest {
  import opened Base
  import opened Dict

  /**
   * What one line contributes: nothing for a blank line, a `#` comment or a
   * line without `:`; otherwise the stripped text before the first `:` and
   * the stripped text after it.
   */
  function Setting(line: string): (r: Option<(string, string)>)
  {
    var t := Strip(line);
    if t == "" || t[0] == '#' then None
    else match Find(t, ':')
      case None => None
      case Some(i) => Some((Strip(t[..i]), Strip(t[i + 1..])))
  }

  /** Blank lines, `#` comments and lines without `:` set nothing; every other line sets a key. */
  lemma {:induction false} SkippedLines(line: string)
    ensures Setting(line).None? <==> Strip(line) == "" || Strip(line)[0] == '#' || ':' !in Strip(line)
  {
  }

  /** The dictionary after reading `lines` in order; a later line for a key overwrites the value. */
  function LatestOf(lines: seq<string>): (r: Dict<string>)
    ensures Valid(r)
  {
    if |lines| == 0 then []
    else
      var d := LatestOf(lines[..|lines| - 1]);
      match Setting(lines[|lines| - 1])
      case None => d
      case Some(kv) => PutValid(d, kv.0, kv.1); Put(d, kv.0, kv.1)
  }

  /** `load_latest_txt`: `None` stands for a missing file. */
  method LoadLatest(file: Option<seq<string>>) returns (latest: Dict<string>)
    ensures file.None? ==> latest == []
    ensures file.Some? ==> latest == LatestOf(file.value)
  {
    latest := [];
    if file.None? {
      return;
    }
    var lines := file.value;
    var n := 0;
    while n < |lines|
      invariant 0 <= n <= |lines|
      invariant latest == LatestOf(lines[..n])
    {
      assert lines[..n + 1][..n] == lines[..n];
      var line := Strip(lines[n]);
      n := n + 1;
      if line == "" || line[0] == '#' {
        continue;
      }
      var colon := Find(line, ':');
      if colon.None? {
        continue;
      }
      var key, value := line[..colon.value], line[colon.value + 1..];
      latest := Put(latest, Strip(key), Strip(value));
    }
    assert lines[..n] == lines;
  }

  /** The value the last setting line for `k` gives, searching from the end. */
  function LastValue(lines: seq<string>, k: string): Option<string> {
    if |lines| == 0 then None
    else match Setting(lines[|lines| - 1])
      case Some(kv) =>
        if kv.0 == k then Some(kv.1) else LastValue(lines[..|lines| - 1], k)
      case None => LastValue(lines[..|lines| - 1], k)
  }

  /** Looking up a key gives the value of the last line that sets it; no other key is present. */
  lemma {:induction false} LookupIsLastSetting(lines: seq<string>, k: string)
    ensures Get(LatestOf(lines), k) == LastValue(lines, k)
  {
    if |lines| > 0 {
      LookupIsLastSetting(lines[..|lines| - 1], k);
      match Setting(lines[|lines| - 1])
      case None =>
      case Some(kv) => GetPut(LatestOf(lines[..|lines| - 1]), kv.0, kv.1, k);
    }
  }

  predicate SetsKey(line: string, k: string) {
    Setting(line).Some? && Setting(line).value.0 == k
  }

  /** Line `i` sets `k` to `v` and no later line sets `k`. */
  predicate LastSetter(lines: seq<string>, k: string, v: string, i: int) {
    0 <= i < |lines| && Setting(lines[i]) == Some((k, v))
    && forall j :: i < j < |lines| ==> !SetsKey(lines[j], k)
  }

  /** The last value for `k` comes from a line that sets `k`, and no later line sets `k`. */
  lemma {:induction false} LastValueLine(lines: seq<string>, k: string) returns (i: nat)
    requires LastValue(lines, k).Some?
    ensures LastSetter(lines, k, LastValue(lines, k).value, i)
  {
    var n := |lines|;
    if SetsKey(lines[n - 1], k) {
      i := n - 1;
    } else {
      assert LastValue(lines, k) == LastValue(lines[..n - 1], k);
      i := LastValueLine(lines[..n - 1], k);
      LastSetterExtend(lines, k, LastValue(lines, k).value, i);
    }
  }

  lemma {:induction false} LastSetterExtend(lines: seq<string>, k: string, v: string, i: nat)
    requires |lines| > 0 && LastSetter(lines[..|lines| - 1], k, v, i)
    requires !SetsKey(lines[|lines| - 1], k)
    ensures LastSetter(lines, k, v, i)
  {
    var p := lines[..|lines| - 1];
    assert lines[i] == p[i];
    forall j | i < j < |lines| ensures !SetsKey(lines[j], k) {
      if j < |lines| - 1 { assert lines[j] == p[j]; }
    }
  }

  // ---------------------------------------------------------------------------
  // Writing a dictionary back as text and reading it again
  // ---------------------------------------------------------------------------

  /** A key the file format can carry: non-empty, no `:`, no surrounding blanks, not a comment. */
  predicate CleanKey(k: string) {
    k != "" && ':' !in k && k[0] != '#' && Strip(k) == k
  }

  /** The lines `key: value` for a dictionary, in its order. */
  function Render(d: Dict<string>): (lines: seq<string>)
    ensures |lines| == |d|
  {
    seq(|d|, i requires 0 <= i < |d| => d[i].0 + ": " + d[i].1)
  }

  /** What `k: v` strips to: the blank after the colon goes when `v` is empty. */
  function RenderedText(k: string, v: string): string {
    if v == "" then k + [':'] else k + [':'] + " " + v
  }

  lemma {:induction false} RenderedStrip(k: string, v: string)
    requires CleanKey(k) && Strip(v) == v
    ensures Strip(k + ": " + v) == RenderedText(k, v)
  {
    var line := k + ": " + v;
    assert !IsSpace(line[0]) by { assert line[0] == k[0] == Strip(k)[0]; }
    assert StripLeft(line) == line;
    if v == "" {
      assert line[..|line| - 1] == k + [':'];
      assert StripRight(k + [':']) == k + [':'];
    } else {
      assert line == RenderedText(k, v);
      assert !IsSpace(line[|line| - 1]) by { assert line[|line| - 1] == v[|v| - 1] == Strip(v)[|v| - 1]; }
      StripUnpadded(line);
    }
  }

  lemma {:induction false} StripBlankThen(v: string)
    requires v != "" && Strip(v) == v
    ensures Strip(" " + v) == v
  {
    assert (" " + v)[1..] == v;
    assert StripLeft(" " + v) == StripLeft(v);
  }

  lemma {:induction false} RenderedLine(k: string, v: string)
    requires CleanKey(k) && Strip(v) == v
    ensures Setting(k + ": " + v) == Some((k, v))
  {
    RenderedStrip(k, v);
    var rest := if v == "" then "" else " " + v;
    var t := k + [':'] + rest;
    assert t == RenderedText(k, v);
    FindAfter(k, ':', rest);
    assert t[..|k|] == k && t[|k| + 1..] == rest;
    if v != "" {
      StripBlankThen(v);
    }
  }

  /** Rendering the last entry adds one line after the rendering of the others. */
  lemma {:induction false} RenderSnoc(d: Dict<string>)
    requires |d| > 0
    ensures Render(d) == Render(d[..|d| - 1]) + [d[|d| - 1].0 + ": " + d[|d| - 1].1]
  {
    var n := |d|;
    assert Render(d)[..n - 1] == Render(d[..n - 1]);
  }

  /** A last line that sets `k` to `v` puts `(k, v)` into what the lines before it give. */
  lemma {:induction false} LatestOfSnoc(lines: seq<string>, line: string, k: string, v: string)
    requires Setting(line) == Some((k, v))
    ensures LatestOf(lines + [line]) == Put(LatestOf(lines), k, v)
  {
    assert (lines + [line])[..|lines|] == lines;
  }

  /** Rendering a dictionary of clean keys and stripped values and reading it back gives it again. */
  lemma {:induction false} ReadRendered(d: Dict<string>)
    requires Valid(d)
    requires forall i :: 0 <= i < |d| ==> CleanKey(d[i].0) && Strip(d[i].1) == d[i].1
    ensures LatestOf(Render(d)) == d
  {
    var n := |d|;
    if n > 0 {
      var p, k, v := d[..n - 1], d[n - 1].0, d[n - 1].1;
      assert d == p + [(k, v)];
      RenderSnoc(d);
      ReadRendered(p);
      RenderedLine(k, v);
      LatestOfSnoc(Render(p), k + ": " + v, k, v);
      assert KeyIndex(p, k).None? by {
        forall j | 0 <= j < n - 1 ensures p[j].0 != k { }
      }
    }
  }
}

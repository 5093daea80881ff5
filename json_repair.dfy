/**
 * modifi_json.py: the scenario-file repair. Two regular-expression rewrites
 * over the file's text (trailing commas before a closing bracket, then a
 * trailing semicolon after the last bracket), a parse, and the wrap of the
 * parsed value as `{"scenario": ...}`. The JSON parser is a parameter; the
 * file walk is a filter over file names.
 */
module JsonRepair {
  import opened Base
  import opened PyJson
  import opened Rewrite

  predicate IsCloser(c: char) { c == '}' || c == ']' }

  // ---------------------------------------------------------------------------
  // Trailing commas: a comma followed only by blanks and a closing bracket or brace
  // ---------------------------------------------------------------------------

  /** The commas the pattern removes: those whose next character other than whitespace closes an object or array. */
  const TrailingCommas: Deletion := Deletion(None, ',', Some("}]"))

  /**
   * The substitution as `re.sub` performs it: scan left to right; at a match,
   * emit the captured whitespace and bracket and resume after the match.
   */
  function RemoveTrailingCommas(s: string): string
    decreases |s|
  {
    if |s| == 0 then ""
    else if s[0] == ',' && SpaceThen(s[1..], "}]").Some? then
      var n := SpaceThen(s[1..], "}]").value;
      s[1..1 + n] + RemoveTrailingCommas(s[1 + n..])
    else [s[0]] + RemoveTrailingCommas(s[1..])
  }

  /**
   * The substitution deletes exactly the trailing commas and keeps every
   * other character in order.
   */
  lemma {:induction false} RemoveTrailingCommasDeletes(s: string)
    ensures RemoveTrailingCommas(s) == Deleted(TrailingCommas, s, None)
    decreases |s|
  {
    if |s| > 0 {
      if s[0] == ',' && SpaceThen(s[1..], "}]").Some? {
        var n := SpaceThen(s[1..], "}]").value;
        var t := s[1..1 + n];
        assert ',' !in t by {
          forall i | 0 <= i < |t| ensures t[i] != ',' {
            if i < n - 1 {
              assert t[i] == s[1..][..n - 1][i];
              assert IsSpace(t[i]);
            } else {
              assert t[i] == s[1..][n - 1];
            }
          }
        }
        assert s[1..] == t + s[1 + n..];
        DeletedFree(TrailingCommas, t, s[1 + n..], Some(s[0]));
        RemoveTrailingCommasDeletes(s[1 + n..]);
        DeletedAnyPrev(TrailingCommas, s[1 + n..], None, Some(t[|t| - 1]));
      } else {
        RemoveTrailingCommasDeletes(s[1..]);
        DeletedAnyPrev(TrailingCommas, s[1..], None, Some(s[0]));
      }
    }
  }

  /** Text containing no comma is unchanged. */
  lemma {:induction false} RemoveTrailingCommasNoComma(s: string)
    requires ',' !in s
    ensures RemoveTrailingCommas(s) == s
  {
    RemoveTrailingCommasDeletes(s);
    DeletedAbsent(TrailingCommas, s, None);
  }

  // ---------------------------------------------------------------------------
  // Trailing semicolons: a closing bracket or brace, then blanks, a semicolon and blanks up to the end
  // ---------------------------------------------------------------------------

  /**
   * The substitution: strip the trailing whitespace; if a `;` is then last,
   * strip it and the whitespace before it; if a bracket is then last, the
   * text up to that bracket is the result. Otherwise the text is unchanged.
   */
  function RemoveTrailingColons(s: string): string {
    var a := StripRight(s);
    if |a| > 0 && a[|a| - 1] == ';' then
      var b := StripRight(a[..|a| - 1]);
      if |b| > 0 && IsCloser(b[|b| - 1]) then b else s
    else s
  }

  /** The match of the pattern: a bracket at `k`, then whitespace, `;` at `j`, and whitespace to the end. */
  predicate SemicolonTail(s: string, k: nat, j: nat) {
    k < j < |s| && IsCloser(s[k]) && AllSpace(s[k + 1..j]) && s[j] == ';' && AllSpace(s[j + 1..])
  }

  /** `StripRight` removes exactly the trailing whitespace. */
  lemma {:induction false} StripRightSplit(s: string)
    ensures var r := StripRight(s); r == s[..|r|] && AllSpace(s[|r|..])
    decreases |s|
  {
    if |s| > 0 && IsSpace(s[|s| - 1]) {
      var p := s[..|s| - 1];
      StripRightSplit(p);
      var r := StripRight(p);
      assert s[|r|..] == p[|r|..] + [s[|s| - 1]];
    }
  }

  /** Whitespace after a text that does not end in whitespace is what `StripRight` removes. */
  lemma {:induction false} StripRightOf(p: string, w: string)
    requires AllSpace(w)
    requires p == [] || !IsSpace(p[|p| - 1])
    ensures StripRight(p + w) == p
    decreases |w|
  {
    if |w| > 0 {
      assert (p + w)[..|p + w| - 1] == p + w[..|w| - 1];
      StripRightOf(p, w[..|w| - 1]);
    } else {
      assert p + w == p;
    }
  }

  /** When the text ends with a bracket, whitespace, `;` and whitespace, the result is the text up to the bracket. */
  lemma {:induction false} RemoveTrailingColonsMatch(s: string, k: nat, j: nat)
    requires SemicolonTail(s, k, j)
    ensures RemoveTrailingColons(s) == s[..k + 1]
  {
    var p := s[..k + 1];
    assert s == s[..j + 1] + s[j + 1..];
    StripRightOf(s[..j + 1], s[j + 1..]);
    var a := StripRight(s);
    assert a[..|a| - 1] == p + s[k + 1..j];
    StripRightOf(p, s[k + 1..j]);
  }

  /** When the text is changed, it ended with such a tail and the result is the text up to its bracket. */
  lemma {:induction false} RemoveTrailingColonsChanged(s: string)
    requires RemoveTrailingColons(s) != s
    ensures 0 < |RemoveTrailingColons(s)| < |s|
    ensures RemoveTrailingColons(s) == s[..|RemoveTrailingColons(s)|]
    ensures SemicolonTail(s, |RemoveTrailingColons(s)| - 1, |StripRight(s)| - 1)
  {
    var a := StripRight(s);
    StripRightSplit(s);
    var j := |a| - 1;
    var c := a[..j];
    var b := StripRight(c);
    StripRightSplit(c);
    assert |a| > 0 && a[j] == ';' && |b| > 0 && IsCloser(b[|b| - 1]);
    assert RemoveTrailingColons(s) == b;
    var k := |b| - 1;
    assert c == s[..j];
    assert b == s[..k + 1];
    assert s[k + 1..j] == c[|b|..];
    assert s[j] == ';';
    assert SemicolonTail(s, k, j);
    assert |b| - 1 == k && |a| - 1 == j;
  }

  // ---------------------------------------------------------------------------
  // is_wrapped_as_scenario and the wrap step
  // ---------------------------------------------------------------------------

  /** `is_wrapped_as_scenario(obj)`: a dict holding `scenario` and one key in all. */
  predicate IsWrapped(j: Json) {
    j.JObj? && "scenario" in KeysOf(j.fields) && |KeyOrder(j.fields)| == 1
  }

  /** The wrap step of `process_json_file`. */
  function Wrap(j: Json): Json {
    if IsWrapped(j) then j else JObj([("scenario", j)])
  }

  /** A dict has as many keys as its key order lists. */
  lemma {:induction false} KeyOrderCard(fields: seq<(string, Json)>)
    ensures |KeyOrder(fields)| == |KeysOf(fields)|
    decreases |fields|
  {
    if |fields| > 0 {
      var p := fields[..|fields| - 1];
      KeyOrderCard(p);
      assert KeysOf(fields) == KeysOf(p) + {fields[|fields| - 1].0};
    }
  }

  /** A dict is wrapped exactly when its set of keys is `{"scenario"}`. */
  lemma {:induction false} IsWrappedKeys(j: Json)
    ensures IsWrapped(j) <==> j.JObj? && KeysOf(j.fields) == {"scenario"}
  {
    if j.JObj? {
      KeyOrderCard(j.fields);
      var keys := KeysOf(j.fields);
      if "scenario" in keys && |keys| == 1 {
        assert |keys - {"scenario"}| == 0;
        assert keys == (keys - {"scenario"}) + {"scenario"};
      }
    }
  }

  /**
   * After the wrap step the value is wrapped; a wrapped value is kept as it
   * is, and any other value becomes the `scenario` member of a new dict.
   */
  lemma {:induction false} WrapWraps(j: Json)
    ensures IsWrapped(Wrap(j))
    ensures IsWrapped(j) ==> Wrap(j) == j
    ensures !IsWrapped(j) ==> Lookup(Wrap(j).fields, "scenario") == Some(j)
    ensures Wrap(Wrap(j)) == Wrap(j)
  {
    if !IsWrapped(j) {
      var fields := [("scenario", j)];
      assert fields[0].0 == "scenario";
      assert KeysOf(fields) == {"scenario"};
      assert KeyOrder(fields) == KeyOrder(fields[..0]) + ["scenario"];
    }
  }

  // ---------------------------------------------------------------------------
  // process_json_file and process_root
  // ---------------------------------------------------------------------------

  /** `json.loads`: `None` when the text is not JSON. */
  type Parser = string -> Option<Json>

  /** The text the file's content is parsed from: the comma pass, then the semicolon pass. */
  function Cleaned(content: string): string {
    RemoveTrailingColons(RemoveTrailingCommas(content))
  }

  /** `process_json_file`: the value written back, or `None` when an exception leaves the file untouched. */
  function ProcessJsonFile(parse: Parser, content: string): Option<Json> {
    match parse(Cleaned(content))
    case None => None
    case Some(v) => Some(Wrap(v))
  }

  /**
   * The file is rewritten exactly when the cleaned text parses, and then with
   * a wrapped value whose scenario is what was parsed.
   */
  lemma {:induction false} ProcessJsonFileWrites(parse: Parser, content: string)
    ensures ProcessJsonFile(parse, content).Some? <==> parse(Cleaned(content)).Some?
    ensures ProcessJsonFile(parse, content).Some? ==>
      && IsWrapped(ProcessJsonFile(parse, content).value)
      && var v := parse(Cleaned(content)).value;
         ProcessJsonFile(parse, content).value == (if IsWrapped(v) then v else JObj([("scenario", v)]))
  {
    if parse(Cleaned(content)).Some? {
      WrapWraps(parse(Cleaned(content)).value);
    }
  }

  const TargetExt: string := "_script.json"

  /** `process_root` over the walked files as (name, content) pairs: the rewrites it makes, in walk order. */
  function ProcessRoot(parse: Parser, files: seq<(string, string)>): (r: seq<(string, Json)>)
    ensures forall i :: 0 <= i < |r| ==> EndsWith(r[i].0, TargetExt) && IsWrapped(r[i].1)
    decreases |files|
  {
    if |files| == 0 then []
    else
      var rest := ProcessRoot(parse, files[1..]);
      var (name, content) := files[0];
      if EndsWith(name, TargetExt) then
        match ProcessJsonFile(parse, content)
        case Some(v) =>
          WrapWraps(parse(Cleaned(content)).value);
          [(name, v)] + rest
        case None => rest
      else rest
  }

  /** A file `process_root` hands to `process_json_file` and that `process_json_file` rewrites. */
  predicate Rewrites(parse: Parser, f: (string, string)) {
    EndsWith(f.0, TargetExt) && ProcessJsonFile(parse, f.1).Some?
  }

  /** Every file named `*_script.json` whose cleaned text parses is rewritten with its processed value. */
  lemma {:induction false} ProcessRootComplete(parse: Parser, files: seq<(string, string)>)
    ensures forall f :: f in files && Rewrites(parse, f) ==> (f.0, ProcessJsonFile(parse, f.1).value) in ProcessRoot(parse, files)
    decreases |files|
  {
    if |files| > 0 {
      ProcessRootComplete(parse, files[1..]);
      forall f | f in files && Rewrites(parse, f)
        ensures (f.0, ProcessJsonFile(parse, f.1).value) in ProcessRoot(parse, files)
      {
        if f != files[0] {
          assert f in files[1..];
        }
      }
    }
  }

  /** Every rewrite is of a file named `*_script.json` whose cleaned text parses, with its processed value. */
  lemma {:induction false} ProcessRootSound(parse: Parser, files: seq<(string, string)>)
    ensures forall e :: e in ProcessRoot(parse, files) ==>
      exists f :: f in files && Rewrites(parse, f) && e == (f.0, ProcessJsonFile(parse, f.1).value)
    decreases |files|
  {
    if |files| > 0 {
      ProcessRootSound(parse, files[1..]);
      var rest := ProcessRoot(parse, files[1..]);
      forall e | e in ProcessRoot(parse, files)
        ensures exists f :: f in files && Rewrites(parse, f) && e == (f.0, ProcessJsonFile(parse, f.1).value)
      {
        if e in rest {
          var f :| f in files[1..] && Rewrites(parse, f) && e == (f.0, ProcessJsonFile(parse, f.1).value);
          assert f in files;
        } else {
          assert Rewrites(parse, files[0]) && e == (files[0].0, ProcessJsonFile(parse, files[0].1).value);
        }
      }
    }
  }
}

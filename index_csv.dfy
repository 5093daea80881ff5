/**
 * The index writer of write_csv.py: rows are merged into the table loaded
 * from index.csv under the key `Rank::Name`, a non-blank new value wins over
 * the stored one and a blank keeps it, and the table is saved sorted by
 * (Rank, Name) with exactly the fixed columns.
 */
module IndexCsv {
  import opened Base
  import opened PyJson
  import opened Dict
  import opened Sorting

  /** The columns of index.csv, in order. */
  const CsvFields: seq<string> := [
    "Name", "Rank", "Info",
    "EP1ID", "EP1Title", "EP1Info",
    "EP2ID", "EP2Title", "EP2Info",
    "EP3ID", "EP4ID", "EP4Title",
    "EP4Info", "EP5ID", "Awaken"
  ]

  // ---------------------------------------------------------------------------
  // normalize_for_csv
  // ---------------------------------------------------------------------------

  /** Every whitespace character is a single space with no whitespace after it. */
  predicate Collapsed(s: string) {
    forall i :: 0 <= i < |s| && IsSpace(s[i]) ==> s[i] == ' ' && (i + 1 < |s| ==> !IsSpace(s[i + 1]))
  }

  /** Each maximal run of whitespace replaced by one space. */
  function Collapse(s: string): (r: string)
    ensures Collapsed(r)
    ensures |s| > 0 ==> |r| > 0 && (IsSpace(r[0]) <==> IsSpace(s[0]))
    decreases |s|
  {
    if |s| == 0 then ""
    else if IsSpace(s[0]) then
      var t := StripLeft(s[1..]);
      var r := " " + Collapse(t);
      assert forall i :: 1 <= i < |r| ==> r[i] == Collapse(t)[i - 1];
      r
    else
      var r := [s[0]] + Collapse(s[1..]);
      assert forall i :: 1 <= i < |r| ==> r[i] == Collapse(s[1..])[i - 1];
      r
  }

  /** `normalize_for_csv` on a string. */
  function NormalizeText(s: string): string {
    Strip(Collapse(Without(s, '\r', '\n')))
  }

  /** `normalize_for_csv`: a string is flattened to one trimmed line; any other value is returned as it is. */
  function Normalize(v: Json): Json {
    match v
    case JStr(s) => JStr(NormalizeText(s))
    case _ => v
  }

  /** The characters of `s` that are not whitespace, in order. */
  function Visible(s: string): string {
    if |s| == 0 then "" else (if IsSpace(s[0]) then "" else [s[0]]) + Visible(s[1..])
  }

  /** A string already in the form `normalize_for_csv` gives. */
  predicate NormalText(s: string) {
    Collapsed(s) && (s == [] || (!IsSpace(s[0]) && !IsSpace(s[|s| - 1])))
  }

  lemma {:induction false} VisibleAppend(a: string, b: string)
    ensures Visible(a + b) == Visible(a) + Visible(b)
    decreases |a|
  {
    if |a| > 0 {
      assert (a + b)[1..] == a[1..] + b;
      VisibleAppend(a[1..], b);
    } else {
      assert a + b == b;
    }
  }

  lemma {:induction false} StripLeftSuffix(s: string)
    ensures StripLeft(s) == s[|s| - |StripLeft(s)|..]
    ensures Visible(StripLeft(s)) == Visible(s)
    decreases |s|
  {
    if |s| > 0 && IsSpace(s[0]) {
      StripLeftSuffix(s[1..]);
    }
  }

  lemma {:induction false} StripRightPrefix(s: string)
    ensures StripRight(s) == s[..|StripRight(s)|]
    ensures Visible(StripRight(s)) == Visible(s)
    decreases |s|
  {
    if |s| > 0 && IsSpace(s[|s| - 1]) {
      var p := s[..|s| - 1];
      StripRightPrefix(p);
      assert s == p + [s[|s| - 1]];
      VisibleAppend(p, [s[|s| - 1]]);
    }
  }

  /** Deleting line breaks keeps every non-whitespace character, in order. */
  lemma {:induction false} VisibleDropNewlines(s: string)
    ensures Visible(Without(s, '\r', '\n')) == Visible(s)
    decreases |s|
  {
    if |s| > 0 {
      VisibleDropNewlines(s[1..]);
      var h := if s[0] == '\r' || s[0] == '\n' then "" else [s[0]];
      VisibleAppend(h, Without(s[1..], '\r', '\n'));
    }
  }

  lemma {:induction false} VisibleCollapse(s: string)
    ensures Visible(Collapse(s)) == Visible(s)
    decreases |s|
  {
    if |s| > 0 {
      if IsSpace(s[0]) {
        var t := StripLeft(s[1..]);
        StripLeftSuffix(s[1..]);
        VisibleCollapse(t);
        VisibleAppend(" ", Collapse(t));
      } else {
        VisibleCollapse(s[1..]);
        VisibleAppend([s[0]], Collapse(s[1..]));
      }
    }
  }

  lemma {:induction false} CollapsedSlice(s: string, lo: nat, hi: nat)
    requires Collapsed(s) && lo <= hi <= |s|
    ensures Collapsed(s[lo..hi])
  {
    var t := s[lo..hi];
    forall i | 0 <= i < |t| && IsSpace(t[i])
      ensures t[i] == ' ' && (i + 1 < |t| ==> !IsSpace(t[i + 1]))
    {
      assert t[i] == s[lo + i];
      if i + 1 < |t| {
        assert t[i + 1] == s[lo + i + 1];
      }
    }
  }

  /**
   * What `normalize_for_csv` makes of a string: no line break, no whitespace
   * but single spaces between words, nothing to trim, and the same
   * non-whitespace characters in the same order.
   */
  lemma {:induction false} NormalizeTextShape(s: string)
    ensures NormalText(NormalizeText(s))
    ensures '\r' !in NormalizeText(s) && '\n' !in NormalizeText(s)
    ensures Visible(NormalizeText(s)) == Visible(s)
  {
    var c := Collapse(Without(s, '\r', '\n'));
    StripCollapsed(c);
    CollapsedNoBreaks(Strip(c));
    VisibleDropNewlines(s);
    VisibleCollapse(Without(s, '\r', '\n'));
  }

  /** Trimming a collapsed string leaves it collapsed, with nothing left to trim and the same visible characters. */
  lemma {:induction false} StripCollapsed(c: string)
    requires Collapsed(c)
    ensures NormalText(Strip(c)) && Visible(Strip(c)) == Visible(c)
  {
    var l := StripLeft(c);
    var r := StripRight(l);
    StripLeftSuffix(c);
    CollapsedSlice(c, |c| - |l|, |c|);
    StripRightPrefix(l);
    CollapsedSlice(l, 0, |r|);
    if r != [] {
      assert r[0] == l[0];
    }
  }

  /** In a collapsed string every whitespace character is a space, so there is no line break. */
  lemma {:induction false} CollapsedNoBreaks(s: string)
    requires Collapsed(s)
    ensures '\r' !in s && '\n' !in s
  {
    forall i | 0 <= i < |s|
      ensures s[i] != '\r' && s[i] != '\n'
    {
      if IsSpace(s[i]) {
        assert s[i] == ' ';
      }
    }
  }

  /** The first word of `s`: its longest prefix without whitespace. */
  function Word(s: string): (r: string)
    ensures |r| <= |s| && r == s[..|r|]
    ensures forall i :: 0 <= i < |r| ==> !IsSpace(r[i])
    ensures |r| < |s| ==> IsSpace(s[|r|])
    decreases |s|
  {
    if |s| == 0 || IsSpace(s[0]) then "" else [s[0]] + Word(s[1..])
  }

  /** Python's `s.split()` with no separator: the maximal runs of non-whitespace characters, in order. */
  function Words(s: string): (r: seq<string>)
    ensures forall i :: 0 <= i < |r| ==> r[i] != [] && forall k :: 0 <= k < |r[i]| ==> !IsSpace(r[i][k])
    decreases |s|
  {
    if |s| == 0 then []
    else if IsSpace(s[0]) then Words(s[1..])
    else
      var w := Word(s);
      [w] + Words(s[|w|..])
  }

  /** Leading whitespace does not change the words. */
  lemma {:induction false} WordsStripLeft(s: string)
    ensures Words(StripLeft(s)) == Words(s)
    decreases |s|
  {
    if |s| > 0 && IsSpace(s[0]) {
      WordsStripLeft(s[1..]);
    }
  }

  /** A word is copied unchanged in front of what follows it. */
  lemma {:induction false} CollapseWord(w: string, t: string)
    requires forall i :: 0 <= i < |w| ==> !IsSpace(w[i])
    ensures Collapse(w + t) == w + Collapse(t)
    decreases |w|
  {
    if |w| > 0 {
      assert (w + t)[0] == w[0] && (w + t)[1..] == w[1..] + t;
      CollapseWord(w[1..], t);
      assert w == [w[0]] + w[1..];
    } else {
      assert w + t == t;
    }
  }

  lemma {:induction false} StripRightAppend(a: string, b: string)
    requires StripRight(b) != ""
    ensures StripRight(a + b) == a + StripRight(b)
    decreases |b|
  {
    var ab := a + b;
    if IsSpace(b[|b| - 1]) {
      assert ab[..|ab| - 1] == a + b[..|b| - 1];
      StripRightAppend(a, b[..|b| - 1]);
    }
  }

  /** A whitespace run collapses to one space in front of what follows it. */
  lemma {:induction false} CollapseSpace(t: string)
    requires t != "" && IsSpace(t[0])
    ensures Collapse(t) == " " + Collapse(StripLeft(t))
  {
    assert StripLeft(t) == StripLeft(t[1..]);
  }

  lemma {:induction false} JoinCons(w: string, ws: seq<string>)
    requires ws != [] && ws[0] != ""
    ensures Join([w] + ws, " ") == w + " " + Join(ws, " ")
    ensures Join(ws, " ") != ""
  {
    assert ([w] + ws)[1..] == ws;
  }

  /** The words of a string that starts with a word: that word, then the words after it. */
  lemma {:induction false} WordsCons(u: string)
    requires u != "" && !IsSpace(u[0])
    ensures Words(u) == [Word(u)] + Words(u[|Word(u)|..]) && Word(u) != ""
  {
  }

  /** A word, one space and a collapsed rest, trimmed at the end: the word joined to the rest's words. */
  lemma {:induction false} JoinAfterWord(w: string, c: string, ws: seq<string>)
    requires w != "" && !IsSpace(w[|w| - 1])
    requires StripRight(c) == Join(ws, " ")
    requires ws == [] ==> c == ""
    requires ws != [] ==> ws[0] != ""
    ensures StripRight(w + " " + c) == Join([w] + ws, " ")
  {
    if ws == [] {
      assert w + " " + c == w + " ";
      assert (w + " ")[..|w|] == w;
    } else {
      JoinCons(w, ws);
      StripRightAppend(w + " ", c);
    }
  }

  /** A string that starts with a word collapses to the word, then one space and the collapsed rest when there is one. */
  lemma {:induction false} CollapseAfterWord(u: string)
    requires u != "" && !IsSpace(u[0])
    ensures var w := Word(u);
      var v := StripLeft(u[|w|..]);
      && w != "" && !IsSpace(w[|w| - 1]) && |v| < |u|
      && Words(u) == [w] + Words(v)
      && Collapse(u) == (if |w| == |u| then w else w + " " + Collapse(v))
  {
    var w := Word(u);
    var rest := u[|w|..];
    WordsCons(u);
    assert u == w + rest;
    CollapseWord(w, rest);
    WordsStripLeft(rest);
    if rest != "" {
      CollapseSpace(rest);
    }
  }

  /**
   * From a string that does not start with whitespace, collapsing and trimming
   * the end gives its words joined by single spaces.
   */
  lemma {:induction false} CollapseWords(u: string)
    requires u == "" || !IsSpace(u[0])
    ensures StripRight(Collapse(u)) == Join(Words(u), " ")
    decreases |u|
  {
    if u != "" {
      CollapseAfterWord(u);
      var w := Word(u);
      var v := StripLeft(u[|w|..]);
      CollapseWords(v);
      if |w| == |u| {
        assert v == "" && Words(u) == [w];
      } else {
        if v != "" {
          WordsCons(v);
        }
        JoinAfterWord(w, Collapse(v), Words(v));
      }
    }
  }

  /**
   * `normalize_for_csv` on a string is `' '.join(s.split())` of the string with
   * its line breaks deleted: the words stay, each separated by one space.
   */
  lemma {:induction false} NormalizeWords(s: string)
    ensures NormalizeText(s) == Join(Words(Without(s, '\r', '\n')), " ")
  {
    var t := Without(s, '\r', '\n');
    if t == "" || !IsSpace(t[0]) {
      CollapseWords(t);
    } else {
      var v := StripLeft(t);
      var c := Collapse(v);
      CollapseSpace(t);
      assert (" " + c)[1..] == c;
      assert StripLeft(" " + c) == StripLeft(c) == c;
      WordsStripLeft(t);
      CollapseWords(v);
    }
  }

  lemma {:induction false} CollapseCollapsed(s: string)
    requires Collapsed(s)
    ensures Collapse(s) == s
    decreases |s|
  {
    if |s| > 0 {
      CollapsedSlice(s, 1, |s|);
      if IsSpace(s[0]) {
        assert s[0] == ' ';
        assert StripLeft(s[1..]) == s[1..] by {
          if |s| > 1 {
            assert !IsSpace(s[1..][0]);
          }
        }
      }
      CollapseCollapsed(s[1..]);
    }
  }

  /** `normalize_for_csv` is idempotent on strings. */
  lemma {:induction false} NormalizeTextIdempotent(s: string)
    ensures NormalizeText(NormalizeText(s)) == NormalizeText(s)
  {
    var r := NormalizeText(s);
    NormalizeTextShape(s);
    WithoutAbsent(r, '\r', '\n');
    CollapseCollapsed(r);
  }

  /** `normalize_for_csv` is idempotent, and leaves every value that is not a string alone. */
  lemma {:induction false} NormalizeIdempotent(v: Json)
    ensures Normalize(Normalize(v)) == Normalize(v)
    ensures !v.JStr? ==> Normalize(v) == v
  {
    if v.JStr? {
      NormalizeTextIdempotent(v.s);
    }
  }

  // ---------------------------------------------------------------------------
  // _make_key and write_rows
  // ---------------------------------------------------------------------------

  /** An incoming or stored row: field name to value. */
  type Row = Dict<Json>

  /** The `existing` dict: key to merged row. */
  type Table = Dict<Row>

  /** The value of column `f`, the empty string when the row lacks it. */
  function Cell(row: Row, f: string): Json {
    match Get(row, f)
    case Some(v) => v
    case None => JStr("")
  }

  /** `_make_key`: the row's Rank and Name as the f-string formats them, joined by `::`. */
  function MakeKey(row: Row): string {
    Str(Cell(row, "Rank")) + "::" + Str(Cell(row, "Name"))
  }

  /** The stored row under `k`, the empty row when there is none. */
  function OldRow(t: Table, k: string): Row {
    match Get(t, k)
    case Some(r) => r
    case None => []
  }

  /** The merged value of field `f`: the normalised new value unless it is blank, else the stored one. */
  function MergedCell(row: Row, stored: Row, f: string): Json {
    var v := Normalize(Cell(row, f));
    if Truthy(v) then v else Cell(stored, f)
  }

  /** The `merged` dict: one entry per column, in column order. */
  function MergedRow(row: Row, stored: Row): Row {
    seq(|CsvFields|, i requires 0 <= i < |CsvFields| => (CsvFields[i], MergedCell(row, stored, CsvFields[i])))
  }

  /** The `for row in rows` loop of `write_rows`, as a left fold. */
  function MergeAll(t: Table, rows: seq<Row>): Table {
    if |rows| == 0 then t
    else
      var t' := MergeAll(t, rows[..|rows| - 1]);
      var row := rows[|rows| - 1];
      var k := MakeKey(row);
      Put(t', k, MergedRow(row, OldRow(t', k)))
  }

  /** The inner `for field in CSV_FIELDS` loop. */
  method MergeRow(row: Row, stored: Row) returns (merged: Row)
    ensures merged == MergedRow(row, stored)
  {
    merged := [];
    for j := 0 to |CsvFields|
      invariant merged == MergedRow(row, stored)[..j]
    {
      var field := CsvFields[j];
      ghost var m := MergedRow(row, stored);
      assert m[..j + 1] == m[..j] + [(field, MergedCell(row, stored, field))];
      var val := Normalize(Cell(row, field));
      if Truthy(val) {
        merged := merged + [(field, val)];
      } else {
        merged := merged + [(field, Cell(stored, field))];
      }
    }
  }

  /** The outer loop of `write_rows`, updating `existing` in place. */
  method MergeRows(existing: Table, rows: seq<Row>) returns (t: Table)
    ensures t == MergeAll(existing, rows)
  {
    t := existing;
    for i := 0 to |rows|
      invariant t == MergeAll(existing, rows[..i])
    {
      assert rows[..i + 1][..i] == rows[..i];
      var row := rows[i];
      var key := MakeKey(row);
      var stored := OldRow(t, key);
      var merged := MergeRow(row, stored);
      t := Put(t, key, merged);
    }
    assert rows[..|rows|] == rows;
  }

  // ---------------------------------------------------------------------------
  // What the merge keeps
  // ---------------------------------------------------------------------------

  lemma {:induction false} CsvFieldsDistinct()
    ensures forall i, j :: 0 <= i < j < |CsvFields| ==> CsvFields[i] != CsvFields[j]
  {
  }

  lemma {:induction false} HasKeyIn<V>(d: Dict<V>, k: string)
    ensures HasKey(d, k) <==> k in Keys(d)
  {
    if k in Keys(d) {
      var i :| 0 <= i < |d| && Keys(d)[i] == k;
      assert d[i].0 == k;
    }
  }

  /**
   * A merged row has exactly the columns, in order, and each column holds the
   * normalised new value when that is not blank and the stored value otherwise.
   */
  lemma {:induction false} MergedRowFields(row: Row, stored: Row, f: string)
    ensures Valid(MergedRow(row, stored)) && Keys(MergedRow(row, stored)) == CsvFields
    ensures Get(MergedRow(row, stored), f) == if f in CsvFields then Some(MergedCell(row, stored, f)) else None
  {
    var m := MergedRow(row, stored);
    CsvFieldsDistinct();
    assert Keys(m) == CsvFields;
    HasKeyIn(m, f);
    if f in CsvFields {
      var i :| 0 <= i < |CsvFields| && CsvFields[i] == f;
      ValidGet(m, i);
    }
  }

  /** A blank new value keeps the stored one, so a stored non-blank value is never erased. */
  lemma {:induction false} BlankKeepsOld(row: Row, stored: Row, f: string)
    requires f in CsvFields
    ensures !Truthy(Normalize(Cell(row, f))) ==> Cell(MergedRow(row, stored), f) == Cell(stored, f)
    ensures Truthy(Cell(stored, f)) ==> Truthy(Cell(MergedRow(row, stored), f))
    ensures Truthy(Normalize(Cell(row, f))) ==> Cell(MergedRow(row, stored), f) == Normalize(Cell(row, f))
  {
    MergedRowFields(row, stored, f);
  }

  /** The keys the rows of a batch are merged under, in batch order. */
  function BatchKeys(rows: seq<Row>): (r: seq<string>)
    ensures |r| == |rows| && forall i :: 0 <= i < |rows| ==> r[i] == MakeKey(rows[i])
  {
    seq(|rows|, i requires 0 <= i < |rows| => MakeKey(rows[i]))
  }

  /** Some row of the batch is merged under `k`. */
  predicate KeyOfBatch(rows: seq<Row>, k: string) {
    k in BatchKeys(rows)
  }

  lemma {:induction false} KeyOfBatchLast(rows: seq<Row>, k: string)
    requires |rows| > 0
    ensures KeyOfBatch(rows, k) <==> KeyOfBatch(rows[..|rows| - 1], k) || MakeKey(rows[|rows| - 1]) == k
  {
    assert BatchKeys(rows) == BatchKeys(rows[..|rows| - 1]) + [MakeKey(rows[|rows| - 1])];
  }

  lemma {:induction false} PutHasKey<V>(d: Dict<V>, k: string, v: V, k': string)
    ensures HasKey(Put(d, k, v), k') <==> HasKey(d, k') || k' == k
  {
    HasKeyIn(d, k);
    HasKeyIn(d, k');
    HasKeyIn(Put(d, k, v), k');
    PutKeys(d, k, v);
  }

  /** The table stays a dict. */
  lemma {:induction false} MergeAllValid(t: Table, rows: seq<Row>)
    requires Valid(t)
    ensures Valid(MergeAll(t, rows))
    decreases |rows|
  {
    if |rows| > 0 {
      var front := rows[..|rows| - 1];
      var t' := MergeAll(t, front);
      var kr := MakeKey(rows[|rows| - 1]);
      MergeAllValid(t, front);
      PutValid(t', kr, MergedRow(rows[|rows| - 1], OldRow(t', kr)));
    }
  }

  /** The table has one entry per key it had or a row of the batch has, and no other. */
  lemma {:induction false} MergeAllKeys(t: Table, rows: seq<Row>, k: string)
    ensures HasKey(MergeAll(t, rows), k) <==> HasKey(t, k) || KeyOfBatch(rows, k)
    decreases |rows|
  {
    if |rows| > 0 {
      var front := rows[..|rows| - 1];
      var t' := MergeAll(t, front);
      var kr := MakeKey(rows[|rows| - 1]);
      MergeAllKeys(t, front, k);
      PutHasKey(t', kr, MergedRow(rows[|rows| - 1], OldRow(t', kr)), k);
      KeyOfBatchLast(rows, k);
    }
  }

  /** Entries under keys no row of the batch has are unchanged. */
  lemma {:induction false} MergeAllOthers(t: Table, rows: seq<Row>, k: string)
    requires Valid(t) && !KeyOfBatch(rows, k)
    ensures Get(MergeAll(t, rows), k) == Get(t, k)
    decreases |rows|
  {
    if |rows| > 0 {
      var front := rows[..|rows| - 1];
      var t' := MergeAll(t, front);
      var kr := MakeKey(rows[|rows| - 1]);
      KeyOfBatchLast(rows, k);
      MergeAllOthers(t, front, k);
      MergeAllValid(t, front);
      GetPut(t', kr, MergedRow(rows[|rows| - 1], OldRow(t', kr)), k);
    }
  }

  /**
   * The value column `f` ends with under key `k`: that of the last row of the
   * batch with key `k` whose normalised value is not blank, or the stored one
   * when there is none.
   */
  function LastCell(t: Table, rows: seq<Row>, k: string, f: string): Json {
    if |rows| == 0 then Cell(OldRow(t, k), f)
    else
      var row := rows[|rows| - 1];
      var v := Normalize(Cell(row, f));
      if MakeKey(row) == k && Truthy(v) then v else LastCell(t, rows[..|rows| - 1], k, f)
  }

  /** A later row of the batch merges over an earlier one with the same key. */
  lemma {:induction false} MergeAllCell(t: Table, rows: seq<Row>, k: string, f: string)
    requires Valid(t) && f in CsvFields
    ensures Cell(OldRow(MergeAll(t, rows), k), f) == LastCell(t, rows, k, f)
    decreases |rows|
  {
    if |rows| > 0 {
      var front := rows[..|rows| - 1];
      var row := rows[|rows| - 1];
      var t' := MergeAll(t, front);
      var kr := MakeKey(row);
      var m := MergedRow(row, OldRow(t', kr));
      MergeAllCell(t, front, k, f);
      MergeAllValid(t, front);
      GetPut(t', kr, m, k);
      if kr == k {
        MergedRowFields(row, OldRow(t', kr), f);
      }
    }
  }

  /** Under a key of the batch the entry is a merged row: exactly the columns, in order. */
  lemma {:induction false} MergeAllEntry(t: Table, rows: seq<Row>, k: string)
    requires Valid(t) && KeyOfBatch(rows, k)
    ensures Valid(OldRow(MergeAll(t, rows), k)) && Keys(OldRow(MergeAll(t, rows), k)) == CsvFields
    decreases |rows|
  {
    var front := rows[..|rows| - 1];
    var row := rows[|rows| - 1];
    var t' := MergeAll(t, front);
    var kr := MakeKey(row);
    var m := MergedRow(row, OldRow(t', kr));
    MergeAllValid(t, front);
    GetPut(t', kr, m, k);
    KeyOfBatchLast(rows, k);
    if kr == k {
      MergedRowFields(row, OldRow(t', kr), "");
    } else {
      MergeAllEntry(t, front, k);
    }
  }

  /** Two rows with exactly the columns are equal when every column holds the same value. */
  lemma {:induction false} RowsByCells(a: Row, b: Row)
    requires Valid(a) && Keys(a) == CsvFields && Keys(b) == CsvFields
    requires forall f :: f in CsvFields ==> Cell(a, f) == Cell(b, f)
    ensures a == b
  {
    forall f ensures Get(a, f) == Get(b, f) {
      HasKeyIn(a, f);
      HasKeyIn(b, f);
      if f in CsvFields {
        assert Cell(a, f) == Cell(b, f);
      }
    }
    Extensional(a, b);
  }

  /** Merging keys a dict already has keeps its keys and their order. */
  lemma {:induction false} MergeAllKeepsOrder(t: Table, rows: seq<Row>)
    requires Valid(t) && forall i :: 0 <= i < |rows| ==> HasKey(t, MakeKey(rows[i]))
    ensures Keys(MergeAll(t, rows)) == Keys(t)
    decreases |rows|
  {
    if |rows| > 0 {
      var front := rows[..|rows| - 1];
      var t' := MergeAll(t, front);
      var kr := MakeKey(rows[|rows| - 1]);
      assert forall i :: 0 <= i < |front| ==> front[i] == rows[i];
      MergeAllKeepsOrder(t, front);
      HasKeyIn(t, kr);
      HasKeyIn(t', kr);
    }
  }

  lemma {:induction false} LastCellRebase(t: Table, u: Table, rows: seq<Row>, k: string, f: string)
    requires Cell(OldRow(u, k), f) == LastCell(t, rows, k, f)
    ensures LastCell(u, rows, k, f) == LastCell(t, rows, k, f)
    decreases |rows|
  {
    if |rows| > 0 {
      var row := rows[|rows| - 1];
      var front := rows[..|rows| - 1];
      if !(MakeKey(row) == k && Truthy(Normalize(Cell(row, f)))) {
        LastCellRebase(t, u, front, k, f);
      } else {
        // both end at the same row
      }
    }
  }

  /** Merging the same rows a second time leaves the table unchanged. */
  lemma {:induction false} MergeAllIdempotent(t: Table, rows: seq<Row>)
    requires Valid(t)
    ensures MergeAll(MergeAll(t, rows), rows) == MergeAll(t, rows)
  {
    var m := MergeAll(t, rows);
    var mm := MergeAll(m, rows);
    MergeAllValid(t, rows);
    forall i | 0 <= i < |rows| ensures HasKey(m, MakeKey(rows[i])) {
      MergeAllKeys(t, rows, MakeKey(rows[i]));
    }
    MergeAllKeepsOrder(m, rows);
    forall k ensures Get(mm, k) == Get(m, k) {
      if KeyOfBatch(rows, k) {
        MergeAllEntry(t, rows, k);
        MergeAllEntry(m, rows, k);
        forall f | f in CsvFields ensures Cell(OldRow(mm, k), f) == Cell(OldRow(m, k), f) {
          MergeAllCell(t, rows, k, f);
          MergeAllCell(m, rows, k, f);
          LastCellRebase(t, m, rows, k, f);
        }
        RowsByCells(OldRow(mm, k), OldRow(m, k));
      } else {
        MergeAllOthers(m, rows, k);
      }
    }
    Extensional(mm, m);
  }

  // ---------------------------------------------------------------------------
  // _save
  // ---------------------------------------------------------------------------

  /** Python's `a <= b` on strings: code point by code point, a prefix first. */
  predicate LexLe(a: string, b: string)
    decreases |a|
  {
    |a| == 0 || (|b| > 0 && (a[0] < b[0] || (a[0] == b[0] && LexLe(a[1..], b[1..]))))
  }

  lemma {:induction false} LexLeRefl(a: string)
    ensures LexLe(a, a)
    decreases |a|
  {
    if |a| > 0 {
      LexLeRefl(a[1..]);
    }
  }

  lemma {:induction false} LexLeTotal(a: string, b: string)
    ensures LexLe(a, b) || LexLe(b, a)
    decreases |a|
  {
    if |a| > 0 && |b| > 0 && a[0] == b[0] {
      LexLeTotal(a[1..], b[1..]);
    }
  }

  lemma {:induction false} LexLeAntisym(a: string, b: string)
    requires LexLe(a, b) && LexLe(b, a)
    ensures a == b
    decreases |a|
  {
    if |a| > 0 {
      LexLeAntisym(a[1..], b[1..]);
      assert a == [a[0]] + a[1..] && b == [b[0]] + b[1..];
    }
  }

  lemma {:induction false} LexLeTrans(a: string, b: string, c: string)
    requires LexLe(a, b) && LexLe(b, c)
    ensures LexLe(a, c)
    decreases |a|
  {
    if |a| > 0 && a[0] == b[0] && b[0] == c[0] {
      LexLeTrans(a[1..], b[1..], c[1..]);
    }
  }

  /** The sort key: the Rank cell, then the Name cell, each empty when missing. */
  function Rank(r: Row): string { Str(Cell(r, "Rank")) }
  function Name(r: Row): string { Str(Cell(r, "Name")) }

  /** The key of `a` is no greater than that of `b`: tuples compare Rank first, then Name. */
  predicate RowLe(a: Row, b: Row) {
    (Rank(a) != Rank(b) && LexLe(Rank(a), Rank(b))) || (Rank(a) == Rank(b) && LexLe(Name(a), Name(b)))
  }

  lemma {:induction false} RowLeTotalPreorder()
    ensures TotalPreorder(RowLe)
  {
    forall a, b ensures RowLe(a, b) || RowLe(b, a) {
      LexLeTotal(Rank(a), Rank(b));
      LexLeTotal(Name(a), Name(b));
    }
    forall a, b, c | RowLe(a, b) && RowLe(b, c) ensures RowLe(a, c) {
      LexLeRefl(Rank(a));
      LexLeRefl(Rank(b));
      LexLeTrans(Rank(a), Rank(b), Rank(c));
      if Rank(a) == Rank(c) {
        LexLeAntisym(Rank(a), Rank(b));
        LexLeTrans(Name(a), Name(b), Name(c));
      }
    }
  }

  /** What `csv.DictWriter` writes for a value: nothing for `None`, else its `str`. */
  function CellText(v: Json): string {
    if v.JNull? then "" else Str(v)
  }

  /** One CSV line: the row's value for each column in column order, empty when missing. */
  function CsvLine(r: Row): seq<string> {
    seq(|CsvFields|, i requires 0 <= i < |CsvFields| => CellText(Cell(r, CsvFields[i])))
  }

  function Lines(rows: seq<Row>): seq<seq<string>> {
    seq(|rows|, i requires 0 <= i < |rows| => CsvLine(rows[i]))
  }

  /** The rows of the table in saving order: a stable sort of the entries by (Rank, Name). */
  function SavedRows(t: Table): seq<Row> {
    Sort(Values(t), RowLe)
  }

  /** `_save`: the header, then one line per entry in saving order. */
  function Saved(t: Table): seq<seq<string>> {
    [CsvFields] + Lines(SavedRows(t))
  }

  /** `write_rows`: an empty batch leaves index.csv alone; any other merges and saves. */
  function IndexFile(existing: Table, rows: seq<Row>): Option<seq<seq<string>>> {
    if |rows| == 0 then None else Some(Saved(MergeAll(existing, rows)))
  }

  method WriteRows(existing: Table, rows: seq<Row>) returns (file: Option<seq<seq<string>>>)
    ensures file == IndexFile(existing, rows)
  {
    if |rows| == 0 {
      return None;
    }
    var t := MergeRows(existing, rows);
    var sorted := Sort(Values(t), RowLe);
    var out := WriteLines(sorted);
    file := Some(out);
  }

  /** The header, then the CSV line of each row in turn. */
  method WriteLines(rows: seq<Row>) returns (out: seq<seq<string>>)
    ensures out == [CsvFields] + Lines(rows)
  {
    out := [CsvFields];
    for i := 0 to |rows|
      invariant out == [CsvFields] + Lines(rows[..i])
    {
      assert Lines(rows[..i + 1]) == Lines(rows[..i]) + [CsvLine(rows[i])];
      out := out + [CsvLine(rows[i])];
    }
    assert rows[..|rows|] == rows;
  }

  /**
   * The saved file: the header, then every entry exactly once, ordered by
   * (Rank, Name), each line holding exactly the columns in order.
   */
  lemma {:induction false} SavedShape(t: Table)
    ensures Saved(t)[0] == CsvFields && |Saved(t)| == |t| + 1
    ensures Sorted(SavedRows(t), RowLe) && multiset(SavedRows(t)) == multiset(Values(t))
    ensures forall i :: 1 <= i < |Saved(t)| ==> Saved(t)[i] == CsvLine(SavedRows(t)[i - 1]) && |Saved(t)[i]| == |CsvFields|
  {
    RowLeTotalPreorder();
    SortSorted(Values(t), RowLe);
    assert |SavedRows(t)| == |Values(t)| by {
      assert |multiset(SavedRows(t))| == |multiset(Values(t))|;
    }
    SavedLines(SavedRows(t));
  }

  /** After the header, line `i` is the CSV line of the `i`-th row. */
  lemma {:induction false} SavedLines(rows: seq<Row>)
    ensures |[CsvFields] + Lines(rows)| == |rows| + 1
    ensures forall i :: 1 <= i < |rows| + 1 ==>
      ([CsvFields] + Lines(rows))[i] == CsvLine(rows[i - 1]) && |([CsvFields] + Lines(rows))[i]| == |CsvFields|
  {
    var lines := Lines(rows);
    forall i | 1 <= i < |rows| + 1
      ensures ([CsvFields] + lines)[i] == CsvLine(rows[i - 1]) && |([CsvFields] + lines)[i]| == |CsvFields|
    {
      assert ([CsvFields] + lines)[i] == lines[i - 1];
    }
  }
}

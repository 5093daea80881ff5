/**
 * `run_download_json`: for each requested category, in the fixed order
 * kamihime, eidolon, soul, memorial, burst, every candidate ID is run through
 * its workflow; rows are collected and counted per category, an escaped
 * exception marks the run unsuccessful, and the collected rows are merged
 * into index.csv. Status 440 ends the run (the download thread) before the index is written.
 * The workers of a category run one after another here.
 */
module Dispatch {
  import opened Base
  import opened PyJson
  import opened Dict
  import opened Sorting
  import opened Responses
  import opened Bands
  import opened Records
  import opened IndexCsv

  datatype Category = Chara(kind: Kind) | Adv(adv: AdvType)

  /** The order of the blocks of `run_download_json`. */
  const Categories: seq<Category> := [Chara(Kamihime), Chara(Eidolon), Adv(Soul), Adv(Memorial), Adv(Burst)]

  /** The name of a category in `target` and in `result["counts"]`. */
  function CategoryName(c: Category): string {
    match c
    case Chara(Kamihime) => "kamihime"
    case Chara(Eidolon) => "eidolon"
    case Adv(t) => AdvKey(t)
  }

  /** The per-category counts of the result. */
  datatype Counts = Counts(kamihime: nat, eidolon: nat, soul: nat, memorial: nat, burst: nat)

  function Count(n: Counts, c: Category): nat {
    match c
    case Chara(Kamihime) => n.kamihime
    case Chara(Eidolon) => n.eidolon
    case Adv(Soul) => n.soul
    case Adv(Memorial) => n.memorial
    case Adv(Burst) => n.burst
  }

  /** One more row counted for category `c`. */
  function Bump(n: Counts, c: Category): (r: Counts)
    ensures Count(r, c) == Count(n, c) + 1
    ensures forall d :: d != c ==> Count(r, d) == Count(n, d)
    ensures Total(r) == Total(n) + 1
  {
    match c
    case Chara(Kamihime) => n.(kamihime := n.kamihime + 1)
    case Chara(Eidolon) => n.(eidolon := n.eidolon + 1)
    case Adv(Soul) => n.(soul := n.soul + 1)
    case Adv(Memorial) => n.(memorial := n.memorial + 1)
    case Adv(Burst) => n.(burst := n.burst + 1)
  }

  function Total(n: Counts): nat {
    n.kamihime + n.eidolon + n.soul + n.memorial + n.burst
  }

  /**
   * The state of a run: `result` (success flag, the categories whose workers
   * raised, in place of the error texts, and the counts), `csv_rows`, the
   * entity folders that exist, and the portraits asked for.
   */
  datatype Run = Run(success: bool, errors: seq<Category>, counts: Counts, rows: seq<Row>,
                     dirs: Folders, portraits: seq<PortraitRequest>)

  function Initial(dirs: Folders): Run {
    Run(true, [], Counts(0, 0, 0, 0, 0), [], dirs, [])
  }

  /** The candidate IDs of a category. */
  function CategoryIds(latest: Dict<string>, c: Category): seq<int> {
    match c
    case Chara(Kamihime) => IdsOf(AllIds(Kamihime, Sort(Collect(KamihimeBand, latest), BandLe)))
    case Chara(Eidolon) => IdsOf(AllIds(Eidolon, Collect(EidolonBand, latest)))
    case Adv(t) => AdvEpisodeIds(latest, t)
  }

  /** The IDs of the candidates, in order. */
  function IdsOf(candidates: seq<Candidate>): seq<int> {
    seq(|candidates|, i requires 0 <= i < |candidates| => candidates[i].id)
  }

  /** The workflow of a category. */
  function Record(net: Net, c: Category, id: int, dirs: Folders): Effect {
    match c
    case Chara(Kamihime) => KamihimeRecord(net, id, dirs)
    case Chara(Eidolon) => EidolonRecord(net, id, dirs)
    case Adv(t) => AdvRecord(net, t, id, dirs)
  }

  /** Taking in one worker's result: a dict is appended and counted, an exception recorded. */
  function Apply(r: Run, c: Category, e: Effect): Run {
    var dirs := if e.created.Some? then r.dirs + {e.created.value} else r.dirs;
    var portraits := if e.portrait.Some? then r.portraits + [e.portrait.value] else r.portraits;
    var r' := r.(dirs := dirs, portraits := portraits);
    match e.outcome
    case Row(row) => r'.(rows := r'.rows + [row], counts := Bump(r'.counts, c))
    case Crashed => r'.(success := false, errors := r'.errors + [c])
    case _ => r'
  }

  /** The workers of one category over `ids`, in order; `None` when one of them ends the run (the download thread). */
  function RunIds(net: Net, c: Category, ids: seq<int>, r: Run): Option<Run> {
    if |ids| == 0 then Some(r)
    else match RunIds(net, c, ids[..|ids| - 1], r)
      case None => None
      case Some(s) =>
        var e := Record(net, c, ids[|ids| - 1], s.dirs);
        if e.outcome.SessionExpired? then None else Some(Apply(s, c, e))
  }

  /** The blocks of `run_download_json` for the categories `cats`, skipping those not in `target`. */
  function RunCategories(net: Net, target: seq<string>, latest: Dict<string>, cats: seq<Category>, r: Run): Option<Run> {
    if |cats| == 0 then Some(r)
    else match RunCategories(net, target, latest, cats[..|cats| - 1], r)
      case None => None
      case Some(s) =>
        Block(net, target, latest, cats[|cats| - 1], s)
  }

  /** One category's block: its workers when it is targeted, nothing otherwise. */
  function Block(net: Net, target: seq<string>, latest: Dict<string>, c: Category, s: Run): Option<Run> {
    if CategoryName(c) in target then RunIds(net, c, CategoryIds(latest, c), s) else Some(s)
  }

  /** The result's summary message. */
  function Message(n: Counts): string {
    "Completed.\nKamihime: " + NatToString(n.kamihime)
    + "\nEidolon: " + NatToString(n.eidolon)
    + "\nSoul: " + NatToString(n.soul)
    + "\nMemorial: " + NatToString(n.memorial)
    + "\nBurst: " + NatToString(n.burst)
  }

  /** The end of a run: the download thread exited early, or the result with what index.csv became. */
  datatype RunOutcome =
    | Exited
    | Finished(result: Run, message: string, index: Option<seq<seq<string>>>)

  /** `run_download_json` from the folders and the index table that exist beforehand. */
  function RunDownload(net: Net, target: seq<string>, latest: Dict<string>, dirs: Folders, existing: Table): RunOutcome {
    match RunCategories(net, target, latest, Categories, Initial(dirs))
    case None => Exited
    case Some(r) => Finished(r, Message(r.counts), IndexFile(existing, r.rows))
  }

  // ---------------------------------------------------------------------------
  // The loops
  // ---------------------------------------------------------------------------

  /** One more id runs its worker on the state the earlier ones left. */
  lemma {:induction false} RunIdsStep(net: Net, c: Category, ids: seq<int>, r: Run, i: nat, s: Run)
    requires i < |ids| && RunIds(net, c, ids[..i], r) == Some(s)
    ensures var e := Record(net, c, ids[i], s.dirs);
      RunIds(net, c, ids[..i + 1], r) == if e.outcome.SessionExpired? then None else Some(Apply(s, c, e))
  {
    assert ids[..i + 1][..i] == ids[..i];
    assert ids[..i + 1][i] == ids[i];
  }

  lemma {:induction false} RunIdsExited(net: Net, c: Category, ids: seq<int>, r: Run, i: nat)
    requires i <= |ids| && RunIds(net, c, ids[..i], r).None?
    ensures RunIds(net, c, ids, r).None?
    decreases |ids| - i
  {
    if i < |ids| {
      assert ids[..i + 1][..i] == ids[..i];
      RunIdsExited(net, c, ids, r, i + 1);
    } else {
      assert ids[..i] == ids;
    }
  }

  /** One more category runs its block, when targeted, on the state the earlier ones left. */
  lemma {:induction false} RunCategoriesStep(net: Net, target: seq<string>, latest: Dict<string>, cats: seq<Category>, r: Run, i: nat, s: Run)
    requires i < |cats| && RunCategories(net, target, latest, cats[..i], r) == Some(s)
    ensures RunCategories(net, target, latest, cats[..i + 1], r) == Block(net, target, latest, cats[i], s)
  {
    assert cats[..i + 1][..i] == cats[..i];
  }

  lemma {:induction false} RunCategoriesExited(net: Net, target: seq<string>, latest: Dict<string>, cats: seq<Category>, r: Run, i: nat)
    requires i <= |cats| && RunCategories(net, target, latest, cats[..i], r).None?
    ensures RunCategories(net, target, latest, cats, r).None?
    decreases |cats| - i
  {
    if i < |cats| {
      assert cats[..i + 1][..i] == cats[..i];
      RunCategoriesExited(net, target, latest, cats, r, i + 1);
    } else {
      assert cats[..i] == cats;
    }
  }

  /** The IDs a category's block submits, from the generators. */
  method CandidateIds(latest: Dict<string>, c: Category) returns (ids: seq<int>)
    ensures ids == CategoryIds(latest, c)
  {
    match c
    case Chara(Kamihime) =>
      var list := GenerateKamihimeIds(latest);
      ids := seq(|list|, i requires 0 <= i < |list| => list[i].id);
    case Chara(Eidolon) =>
      var list := GenerateEidolonIds(latest);
      ids := seq(|list|, i requires 0 <= i < |list| => list[i].id);
    case Adv(t) =>
      ids := AdvEpisodeIds(latest, t);
  }

  /** One worker. */
  method Process(net: Net, c: Category, id: int, dirs: Folders) returns (e: Effect)
    ensures e == Record(net, c, id, dirs)
  {
    match c
    case Chara(Kamihime) => e := ProcessKamihime(net, id, dirs);
    case Chara(Eidolon) => e := ProcessEidolon(net, id, dirs);
    case Adv(t) => e := ProcessAdv(net, t, id, dirs);
  }

  /** The loop over the finished workers of one block. */
  method RunBlock(net: Net, c: Category, ids: seq<int>, start: Run) returns (r: Option<Run>)
    ensures r == RunIds(net, c, ids, start)
  {
    var result := start;
    for i := 0 to |ids|
      invariant RunIds(net, c, ids[..i], start) == Some(result)
    {
      RunIdsStep(net, c, ids, start, i, result);
      ghost var before := result;
      var e := Process(net, c, ids[i], result.dirs);
      if e.outcome.SessionExpired? {
        RunIdsExited(net, c, ids, start, i + 1);
        return None;
      }
      if e.created.Some? {
        result := result.(dirs := result.dirs + {e.created.value});
      }
      if e.portrait.Some? {
        result := result.(portraits := result.portraits + [e.portrait.value]);
      }
      match e.outcome {
        case Row(row) =>
          result := result.(rows := result.rows + [row], counts := Bump(result.counts, c));
        case Crashed =>
          result := result.(success := false, errors := result.errors + [c]);
        case _ =>
      }
      assert result == Apply(before, c, e);
    }
    assert ids[..|ids|] == ids;
    r := Some(result);
  }

  method RunDownloadJson(net: Net, target: seq<string>, latest: Dict<string>, dirs: Folders, existing: Table)
    returns (outcome: RunOutcome)
    ensures outcome == RunDownload(net, target, latest, dirs, existing)
  {
    var result := Initial(dirs);
    for k := 0 to |Categories|
      invariant RunCategories(net, target, latest, Categories[..k], Initial(dirs)) == Some(result)
    {
      RunCategoriesStep(net, target, latest, Categories, Initial(dirs), k, result);
      var c := Categories[k];
      if CategoryName(c) in target {
        var ids := CandidateIds(latest, c);
        var block := RunBlock(net, c, ids, result);
        if block.None? {
          RunCategoriesExited(net, target, latest, Categories, Initial(dirs), k + 1);
          return Exited;
        }
        result := block.value;
      }
    }
    assert Categories[..|Categories|] == Categories;
    assert RunCategories(net, target, latest, Categories, Initial(dirs)) == Some(result);
    var index := WriteRows(existing, result.rows);
    outcome := Finished(result, Message(result.counts), index);
  }

  // ---------------------------------------------------------------------------
  // What a run keeps
  // ---------------------------------------------------------------------------

  /** The folder a row names: its Rank and its Name. */
  function RowFolder(row: Row): Option<(string, string)> {
    var rank := Get(row, "Rank");
    var name := Get(row, "Name");
    if rank.Some? && rank.value.JStr? && name.Some? && name.value.JStr? then Some((rank.value.s, name.value.s)) else None
  }

  /**
   * The invariant of a run started with folders `dirs0`: `success` is false
   * exactly when a worker raised; the counts add up to the rows; each
   * portrait goes with one newly created folder; each row names a folder
   * created in this run, and no two rows name the same one. The last two rest
   * on the workers running one at a time: two concurrent workers can both see
   * a folder missing before either creates it.
   */
  predicate Consistent(r: Run, dirs0: Folders) {
    && (r.success <==> r.errors == [])
    && Total(r.counts) == |r.rows|
    && dirs0 <= r.dirs
    && |r.dirs| == |dirs0| + |r.portraits|
    && (forall i :: 0 <= i < |r.rows| ==> RowFolder(r.rows[i]).Some? && RowFolder(r.rows[i]).value in r.dirs - dirs0)
    && (forall i, j :: 0 <= i < j < |r.rows| ==> RowFolder(r.rows[i]) != RowFolder(r.rows[j]))
  }

  lemma {:induction false} RecordClaims(net: Net, c: Category, id: int, dirs: Folders)
    ensures Claims(dirs, Record(net, c, id, dirs))
  {
    match c
    case Chara(Kamihime) => KamihimeClaims(net, id, dirs);
    case Chara(Eidolon) => EidolonClaims(net, id, dirs);
    case Adv(t) => AdvClaims(net, t, id, dirs);
  }

  lemma {:induction false} ApplyConsistent(r: Run, dirs0: Folders, c: Category, e: Effect)
    requires Consistent(r, dirs0) && Claims(r.dirs, e)
    ensures Consistent(Apply(r, c, e), dirs0)
  {
    if e.outcome.Row? {
      ApplyRowConsistent(r, dirs0, c, e);
    } else {
      var r' := Apply(r, c, e);
      if e.created.Some? {
        assert |r'.dirs| == |r.dirs| + 1;
      }
      assert r'.rows == r.rows && r'.counts == r.counts && r.dirs <= r'.dirs;
    }
  }

  /** A worker's row names the folder it created, which no earlier row names (workers run one at a time). */
  lemma {:induction false} ApplyRowConsistent(r: Run, dirs0: Folders, c: Category, e: Effect)
    requires Consistent(r, dirs0) && Claims(r.dirs, e) && e.outcome.Row?
    ensures Consistent(Apply(r, c, e), dirs0)
  {
    var r' := Apply(r, c, e);
    assert |r'.dirs| == |r.dirs| + 1;
    var n := |r.rows|;
    assert r'.rows == r.rows + [e.outcome.row];
    assert Total(r'.counts) == Total(r.counts) + 1;
    assert RowFolder(e.outcome.row) == Some(e.created.value);
    forall i | 0 <= i < n ensures RowFolder(r'.rows[i]) != RowFolder(r'.rows[n]) {
      assert r'.rows[i] == r.rows[i];
      assert RowFolder(r.rows[i]).value in r.dirs;
    }
    assert forall i :: 0 <= i < n ==> r'.rows[i] == r.rows[i];
  }

  lemma {:induction false} RunIdsConsistent(net: Net, c: Category, ids: seq<int>, r: Run, dirs0: Folders)
    requires Consistent(r, dirs0) && RunIds(net, c, ids, r).Some?
    ensures Consistent(RunIds(net, c, ids, r).value, dirs0)
    decreases |ids|
  {
    if |ids| > 0 {
      var s := RunIds(net, c, ids[..|ids| - 1], r).value;
      RunIdsConsistent(net, c, ids[..|ids| - 1], r, dirs0);
      RecordClaims(net, c, ids[|ids| - 1], s.dirs);
      ApplyConsistent(s, dirs0, c, Record(net, c, ids[|ids| - 1], s.dirs));
    }
  }

  lemma {:induction false} RunCategoriesConsistent(net: Net, target: seq<string>, latest: Dict<string>, cats: seq<Category>, r: Run, dirs0: Folders)
    requires Consistent(r, dirs0) && RunCategories(net, target, latest, cats, r).Some?
    ensures Consistent(RunCategories(net, target, latest, cats, r).value, dirs0)
    decreases |cats|
  {
    if |cats| > 0 {
      var c := cats[|cats| - 1];
      var s := RunCategories(net, target, latest, cats[..|cats| - 1], r).value;
      RunCategoriesConsistent(net, target, latest, cats[..|cats| - 1], r, dirs0);
      if CategoryName(c) in target {
        RunIdsConsistent(net, c, CategoryIds(latest, c), s, dirs0);
      }
    }
  }

  /**
   * A finished run: `success` exactly when no worker raised, the counts add up
   * to the rows handed to the index writer, one portrait per created folder,
   * and every row names its own newly created folder, with the workers run one
   * at a time.
   */
  lemma {:induction false} RunDownloadConsistent(net: Net, target: seq<string>, latest: Dict<string>, dirs: Folders, existing: Table)
    requires RunDownload(net, target, latest, dirs, existing).Finished?
    ensures Consistent(RunDownload(net, target, latest, dirs, existing).result, dirs)
    ensures RunDownload(net, target, latest, dirs, existing).index
            == IndexFile(existing, RunDownload(net, target, latest, dirs, existing).result.rows)
  {
    RunCategoriesConsistent(net, target, latest, Categories, Initial(dirs), dirs);
  }
}

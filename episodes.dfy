/**
 * Which episodes a character or summon has, which of its scenes are kept,
 * and how they are written into the index row (download_json_core.py):
 * `EP{n}ID`, `EP{n}Title` and `EP{n}Info` for characters and summons, and the
 * EP2/EP3 reconciliation for soul skins, memorials and bursts.
 */
module Episodes {
  import opened Base
  import opened PyJson
  import opened Dict
  import opened Responses

  // ---------------------------------------------------------------------------
  // Episode selection
  // ---------------------------------------------------------------------------

  /** Awakened SSR forms, which have two episodes. */
  const Awakenings: seq<string> := ["神化覚醒", "反心想", "純想悪", "心想昇華"]

  /** The true-awakening form, which has a single episode. */
  const TrueAwakening := "神想真化"

  /** Whether some keyword occurs in the name, raising where the first membership test raises. */
  function AnyIn(ks: seq<string>, name: Json): Result<bool> {
    if |ks| == 0 then Ok(false)
    else match In(ks[0], name)
      case Raised => Raised
      case Ok(true) => Ok(true)
      case Ok(false) => AnyIn(ks[1..], name)
  }

  lemma {:induction false} AnyInString(ks: seq<string>, n: string)
    ensures AnyIn(ks, JStr(n)) == Ok(exists k :: k in ks && Contains(n, k))
  {
    if |ks| > 0 {
      AnyInString(ks[1..], n);
      if Contains(n, ks[0]) {
        assert ks[0] in ks;
      } else {
        assert forall k :: k in ks <==> k == ks[0] || k in ks[1..];
      }
    }
  }

  /** Over a non-empty keyword list the test raises exactly when the name supports no membership test. */
  lemma {:induction false} AnyInRaised(ks: seq<string>, name: Json)
    requires |ks| > 0
    ensures AnyIn(ks, name).Raised? <==> !(name.JStr? || name.JArr? || name.JObj?)
  {
    if |ks| > 1 {
      AnyInRaised(ks[1..], name);
    }
  }

  predicate Consecutive(s: seq<int>) {
    forall i :: 0 <= i < |s| ==> s[i] == s[0] + i
  }

  /**
   * The episodes of a character with base episode `e`, rarity `rare` and the
   * name from its info: none when `e` is 0; otherwise one to three
   * consecutive episodes around `e` that include `e`. Only the SSR check on
   * the name can raise, when the name is neither a string, a list nor a dict.
   */
  function KamihimeEps(e: int, rare: Json, name: Json): (r: Result<seq<int>>)
    ensures e == 0 ==> r == Ok([])
    ensures r.Raised? <==> e != 0 && rare == JStr("SSR") && !(name.JStr? || name.JArr? || name.JObj?)
    ensures r.Ok? && e != 0 ==>
      1 <= |r.value| <= 3 && Consecutive(r.value) && e in r.value && r.value[0] >= e - 1
  {
    if e == 0 then Ok([])
    else if rare == JStr("SR") then Ok([e - 1, e, e + 1])
    else if rare == JStr("SSR") then
      AnyInRaised(Awakenings, name);
      match AnyIn(Awakenings, name)
      case Raised => Raised
      case Ok(true) => Ok([e - 1, e])
      case Ok(false) =>
        match In(TrueAwakening, name)
        case Raised => Raised
        case Ok(true) => Ok([e])
        case Ok(false) => Ok([e - 1, e, e + 1])
    else Ok([e - 1, e])
  }

  /** The selection rules for a string name, the awakening check taking precedence. */
  lemma {:induction false} KamihimeEpsRules(e: int, rare: Json, n: string)
    requires e != 0
    ensures rare == JStr("SR") ==> KamihimeEps(e, rare, JStr(n)) == Ok([e - 1, e, e + 1])
    ensures rare == JStr("SSR") && (exists k :: k in Awakenings && Contains(n, k)) ==>
      KamihimeEps(e, rare, JStr(n)) == Ok([e - 1, e])
    ensures (rare == JStr("SSR") && !(exists k :: k in Awakenings && Contains(n, k)) &&
             Contains(n, TrueAwakening)) ==> KamihimeEps(e, rare, JStr(n)) == Ok([e])
    ensures (rare == JStr("SSR") && !(exists k :: k in Awakenings && Contains(n, k)) &&
             !Contains(n, TrueAwakening)) ==> KamihimeEps(e, rare, JStr(n)) == Ok([e - 1, e, e + 1])
    ensures rare != JStr("SR") && rare != JStr("SSR") ==> KamihimeEps(e, rare, JStr(n)) == Ok([e - 1, e])
  {
    AnyInString(Awakenings, n);
  }

  /** A summon always has the episode before its base episode and the base episode. */
  function EidolonEps(e: int): (r: seq<int>)
    ensures |r| == 2 && Consecutive(r) && r[1] == e
  {
    [e - 1, e]
  }

  // ---------------------------------------------------------------------------
  // Kept scenes and EP numbering
  // ---------------------------------------------------------------------------

  /** A scene whose script was fetched: its id, and the metadata's title and summary. */
  datatype Episode = Episode(file: string, title: Json, summary: Json)

  /**
   * One pass of the scene loop of `process_kamihime_id` / `process_eidolon_id`:
   * `None` when the loop goes on to the next scene, `Raised` when an exception
   * escapes (metadata that is not a dict, a `scenario_path` that is not a string).
   */
  function EpisodeOf(net: Net, scene: Scene): Result<Option<Episode>> {
    match scene.id
    case JStr(file) =>
      (match SceneMeta(net, file, scene.directory)
       case None => Ok(None)
       case Some(meta) =>
         match meta
         case JObj(fields) =>
           var path := Field(fields, "scenario_path", JNull);
           if !Truthy(path) then Ok(None)
           else (match path
             case JStr(p) =>
               (match net(StaticUrl + p)
                case Failed => Ok(None)
                case Response(status, _) =>
                  if status != 200 then Ok(None)
                  else Ok(Some(Episode(file, Field(fields, "title", JStr("")), Field(fields, "summary", JStr(""))))))
             case _ => Raised)
         case _ => Raised)
    case _ => Ok(None)
  }

  /** The kept scenes, in scene order, or `Raised` when some pass raised. */
  function KeptEpisodes(net: Net, scenes: seq<Scene>): (r: Result<seq<Episode>>)
    ensures r.Ok? ==> |r.value| <= |scenes|
  {
    if |scenes| == 0 then Ok([])
    else match KeptEpisodes(net, scenes[..|scenes| - 1])
      case Raised => Raised
      case Ok(eps) =>
        match EpisodeOf(net, scenes[|scenes| - 1])
        case Raised => Raised
        case Ok(None) => Ok(eps)
        case Ok(Some(ep)) => Ok(eps + [ep])
  }

  /**
   * A scene is kept exactly when its id is a string, its metadata is a dict
   * with a non-empty string `scenario_path`, and the static file at that path
   * answers 200; the episode then carries the metadata's title and summary.
   */
  lemma {:induction false} EpisodeKept(net: Net, sc: Scene, ep: Episode)
    ensures EpisodeOf(net, sc) == Ok(Some(ep)) <==>
      && sc.id.JStr?
      && SceneMeta(net, sc.id.s, sc.directory).Some?
      && SceneMeta(net, sc.id.s, sc.directory).value.JObj?
      && var fields := SceneMeta(net, sc.id.s, sc.directory).value.fields;
         var path := Field(fields, "scenario_path", JNull);
         && path.JStr? && path.s != ""
         && net(StaticUrl + path.s).Response? && net(StaticUrl + path.s).status == 200
         && ep == Episode(sc.id.s, Field(fields, "title", JStr("")), Field(fields, "summary", JStr("")))
  {
  }

  /** When the loop finishes, no scene raised and every kept episode is the episode of some scene. */
  lemma {:induction false} KeptEpisodesSound(net: Net, scenes: seq<Scene>, eps: seq<Episode>)
    requires KeptEpisodes(net, scenes) == Ok(eps)
    ensures forall i :: 0 <= i < |scenes| ==> EpisodeOf(net, scenes[i]).Ok?
    ensures forall k :: 0 <= k < |eps| ==> exists i :: 0 <= i < |scenes| && EpisodeOf(net, scenes[i]) == Ok(Some(eps[k]))
    decreases |scenes|
  {
    if |scenes| > 0 {
      var n := |scenes| - 1;
      var p := scenes[..n];
      var eps0 := KeptEpisodes(net, p).value;
      KeptEpisodesSound(net, p, eps0);
      KeptEpisodesStep(net, scenes, n, eps0);
      assert scenes[..n + 1] == scenes;
      forall i | 0 <= i < n ensures scenes[i] == p[i] { }
      var e := EpisodeOf(net, scenes[n]);
      if e.value.Some? {
        forall k | 0 <= k < |eps| ensures exists i :: 0 <= i < |scenes| && EpisodeOf(net, scenes[i]) == Ok(Some(eps[k])) {
          if k == |eps0| {
            assert EpisodeOf(net, scenes[n]) == Ok(Some(eps[k]));
          } else {
            assert eps[k] == eps0[k];
          }
        }
      }
    }
  }

  lemma {:induction false} KeptEpisodesRaised(net: Net, scenes: seq<Scene>, i: nat)
    requires i <= |scenes| && KeptEpisodes(net, scenes[..i]).Raised?
    ensures KeptEpisodes(net, scenes).Raised?
    decreases |scenes| - i
  {
    if i < |scenes| {
      assert scenes[..i + 1][..i] == scenes[..i];
      KeptEpisodesRaised(net, scenes, i + 1);
    } else {
      assert scenes[..i] == scenes;
    }
  }

  /** One more scene either raises, is skipped, or adds its episode. */
  lemma {:induction false} KeptEpisodesStep(net: Net, scenes: seq<Scene>, i: nat, eps: seq<Episode>)
    requires i < |scenes| && KeptEpisodes(net, scenes[..i]) == Ok(eps)
    ensures KeptEpisodes(net, scenes[..i + 1]) == match EpisodeOf(net, scenes[i])
      case Raised => Raised
      case Ok(None) => Ok(eps)
      case Ok(Some(ep)) => Ok(eps + [ep])
  {
    assert scenes[..i + 1][..i] == scenes[..i];
    assert scenes[..i + 1][i] == scenes[i];
  }

  const Suffixes: set<string> := {"ID", "Title", "Info"}

  /** The index field `EP{n}{suffix}`. */
  function EpKey(n: nat, suffix: string): string {
    "EP" + (NatToString(n) + suffix)
  }

  lemma {:induction false} SamePrefix(p: string, x: string, y: string)
    requires p + x == p + y
    ensures x == y
  {
    assert x == (p + x)[|p|..];
  }

  /** A run of digits followed by a text that does not start with one splits in only one way. */
  lemma {:induction false} DigitsThenWord(a: string, f: string, b: string, g: string)
    requires forall i :: 0 <= i < |a| ==> IsDigit(a[i])
    requires forall i :: 0 <= i < |b| ==> IsDigit(b[i])
    requires |f| > 0 && !IsDigit(f[0]) && |g| > 0 && !IsDigit(g[0])
    requires a + f == b + g
    ensures a == b && f == g
  {
    assert !IsDigit((b + g)[|a|]) by { assert (a + f)[|a|] == f[0]; }
    assert |a| >= |b|;
    assert !IsDigit((a + f)[|b|]) by { assert (b + g)[|b|] == g[0]; }
    assert |b| >= |a|;
    assert a == (a + f)[..|a|] == (b + g)[..|b|] == b;
    assert f == (a + f)[|a|..] == (b + g)[|b|..] == g;
  }

  /** Different episode numbers or suffixes name different fields. */
  lemma {:induction false} EpKeyInjective(n: nat, m: nat, f: string, g: string)
    requires f in Suffixes && g in Suffixes
    ensures EpKey(n, f) == EpKey(m, g) ==> n == m && f == g
  {
    if EpKey(n, f) == EpKey(m, g) {
      var a, b := NatToString(n), NatToString(m);
      SamePrefix("EP", a + f, b + g);
      assert |f| > 0 && !IsDigit(f[0]) && |g| > 0 && !IsDigit(g[0]);
      DigitsThenWord(a, f, b, g);
      NatToStringInjective(n, m);
    }
  }

  /** Writes the `n`-th kept scene into the row: its id, and its title and summary when `n` is titled. */
  function AddEpisode(row: Dict<Json>, n: nat, ep: Episode, titled: set<nat>): Dict<Json> {
    var r := Put(row, EpKey(n, "ID"), JStr(ep.file));
    if n in titled then Put(Put(r, EpKey(n, "Title"), ep.title), EpKey(n, "Info"), ep.summary) else r
  }

  /** The row after numbering the kept scenes from 1. */
  function Numbered(row: Dict<Json>, eps: seq<Episode>, titled: set<nat>): Dict<Json> {
    if |eps| == 0 then row
    else AddEpisode(Numbered(row, eps[..|eps| - 1], titled), |eps|, eps[|eps| - 1], titled)
  }

  lemma {:induction false} AddEpisodeGet(row: Dict<Json>, n: nat, ep: Episode, titled: set<nat>, k: string)
    requires Valid(row)
    ensures Valid(AddEpisode(row, n, ep, titled))
    ensures k == EpKey(n, "ID") ==> Get(AddEpisode(row, n, ep, titled), k) == Some(JStr(ep.file))
    ensures n in titled && k == EpKey(n, "Title") ==> Get(AddEpisode(row, n, ep, titled), k) == Some(ep.title)
    ensures n in titled && k == EpKey(n, "Info") ==> Get(AddEpisode(row, n, ep, titled), k) == Some(ep.summary)
    ensures k != EpKey(n, "ID") && (n !in titled || (k != EpKey(n, "Title") && k != EpKey(n, "Info"))) ==>
      Get(AddEpisode(row, n, ep, titled), k) == Get(row, k)
  {
    var r := Put(row, EpKey(n, "ID"), JStr(ep.file));
    PutValid(row, EpKey(n, "ID"), JStr(ep.file));
    GetPut(row, EpKey(n, "ID"), JStr(ep.file), k);
    if n in titled {
      var r2 := Put(r, EpKey(n, "Title"), ep.title);
      PutValid(r, EpKey(n, "Title"), ep.title);
      PutValid(r2, EpKey(n, "Info"), ep.summary);
      GetPut(r, EpKey(n, "Title"), ep.title, k);
      GetPut(r2, EpKey(n, "Info"), ep.summary, k);
      EpKeyInjective(n, n, "ID", "Title");
      EpKeyInjective(n, n, "ID", "Info");
      EpKeyInjective(n, n, "Title", "Info");
    }
  }

  lemma {:induction false} NumberedValid(row: Dict<Json>, eps: seq<Episode>, titled: set<nat>)
    requires Valid(row)
    ensures Valid(Numbered(row, eps, titled))
  {
    if |eps| > 0 {
      NumberedValid(row, eps[..|eps| - 1], titled);
      AddEpisodeGet(Numbered(row, eps[..|eps| - 1], titled), |eps|, eps[|eps| - 1], titled, "");
    }
  }

  /** The `n`-th kept scene's id is in `EP{n}ID`. */
  lemma {:induction false} NumberedId(row: Dict<Json>, eps: seq<Episode>, titled: set<nat>, n: nat)
    requires Valid(row) && 1 <= n <= |eps|
    ensures Get(Numbered(row, eps, titled), EpKey(n, "ID")) == Some(JStr(eps[n - 1].file))
  {
    var m := |eps|;
    var p := eps[..m - 1];
    NumberedValid(row, p, titled);
    AddEpisodeGet(Numbered(row, p, titled), m, eps[m - 1], titled, EpKey(n, "ID"));
    if n < m {
      EpKeyInjective(n, m, "ID", "ID");
      EpKeyInjective(n, m, "ID", "Title");
      EpKeyInjective(n, m, "ID", "Info");
      NumberedId(row, p, titled, n);
      assert p[n - 1] == eps[n - 1];
    }
  }

  /**
   * The `n`-th kept scene's title and summary are in `EP{n}Title` and
   * `EP{n}Info` when `n` is a titled number; otherwise those fields are left
   * as they were.
   */
  lemma {:induction false} NumberedTitle(row: Dict<Json>, eps: seq<Episode>, titled: set<nat>, n: nat, f: string)
    requires Valid(row) && 1 <= n <= |eps| && (f == "Title" || f == "Info")
    ensures Get(Numbered(row, eps, titled), EpKey(n, f)) ==
      if n !in titled then Get(row, EpKey(n, f))
      else if f == "Title" then Some(eps[n - 1].title)
      else Some(eps[n - 1].summary)
  {
    var m := |eps|;
    var p := eps[..m - 1];
    NumberedValid(row, p, titled);
    AddEpisodeGet(Numbered(row, p, titled), m, eps[m - 1], titled, EpKey(n, f));
    EpKeyInjective(n, m, f, "ID");
    EpKeyInjective(n, m, f, "Title");
    EpKeyInjective(n, m, f, "Info");
    if n < m {
      NumberedTitle(row, p, titled, n, f);
      assert p[n - 1] == eps[n - 1];
    } else if n !in titled {
      NumberedBeyond(row, p, titled, n, f);
    }
  }

  /** Fields of episode numbers past the kept scenes are left as they were. */
  lemma {:induction false} NumberedBeyond(row: Dict<Json>, eps: seq<Episode>, titled: set<nat>, n: nat, f: string)
    requires Valid(row) && n > |eps| && f in Suffixes
    ensures Get(Numbered(row, eps, titled), EpKey(n, f)) == Get(row, EpKey(n, f))
  {
    if |eps| > 0 {
      var m := |eps|;
      var p := eps[..m - 1];
      NumberedValid(row, p, titled);
      AddEpisodeGet(Numbered(row, p, titled), m, eps[m - 1], titled, EpKey(n, f));
      EpKeyInjective(n, m, f, "ID");
      EpKeyInjective(n, m, f, "Title");
      EpKeyInjective(n, m, f, "Info");
      NumberedBeyond(row, p, titled, n, f);
    }
  }

  /** Fields not starting with `EP` (the name, rank and description) are left as they were. */
  lemma {:induction false} NumberedKeepsOthers(row: Dict<Json>, eps: seq<Episode>, titled: set<nat>, k: string)
    requires Valid(row) && !StartsWith(k, "EP")
    ensures Get(Numbered(row, eps, titled), k) == Get(row, k)
  {
    if |eps| > 0 {
      var m := |eps|;
      var p := eps[..m - 1];
      NumberedValid(row, p, titled);
      AddEpisodeGet(Numbered(row, p, titled), m, eps[m - 1], titled, k);
      assert forall f :: StartsWith(EpKey(m, f), "EP");
      NumberedKeepsOthers(row, p, titled, k);
    }
  }

  /** The `EP<n>ID` column, then the title and summary columns when episode `n` is titled. */
  method WriteEpisode(csv: Dict<Json>, n: nat, ep: Episode, titled: set<nat>) returns (r: Dict<Json>)
    ensures r == AddEpisode(csv, n, ep, titled)
  {
    r := Put(csv, EpKey(n, "ID"), JStr(ep.file));
    if n in titled {
      r := Put(r, EpKey(n, "Title"), ep.title);
      r := Put(r, EpKey(n, "Info"), ep.summary);
    }
  }

  /** One pass of the scene loop: `stop` when the pass raises, otherwise the kept episodes and the row move on. */
  method NumberScene(net: Net, scenes: seq<Scene>, i: nat, csv: Dict<Json>, epNo: nat, titled: set<nat>,
                     ghost row: Dict<Json>, ghost kept: seq<Episode>)
    returns (stop: bool, csv': Dict<Json>, epNo': nat, ghost kept': seq<Episode>)
    requires i < |scenes| && KeptEpisodes(net, scenes[..i]) == Ok(kept)
    requires epNo == |kept| + 1 && csv == Numbered(row, kept, titled)
    ensures stop ==> KeptEpisodes(net, scenes[..i + 1]).Raised?
    ensures !stop ==> KeptEpisodes(net, scenes[..i + 1]) == Ok(kept')
    ensures !stop ==> epNo' == |kept'| + 1 && csv' == Numbered(row, kept', titled)
  {
    KeptEpisodesStep(net, scenes, i, kept);
    var pass := EpisodeOf(net, scenes[i]);
    stop, csv', epNo', kept' := false, csv, epNo, kept;
    if pass.Raised? {
      stop := true;
    } else if pass.value.Some? {
      var ep := pass.value.value;
      csv' := WriteEpisode(csv, epNo, ep, titled);
      epNo' := epNo + 1;
      kept' := kept + [ep];
      assert kept'[..|kept'| - 1] == kept;
    }
  }

  /**
   * The scene loop of `process_kamihime_id` and `process_eidolon_id`: each kept
   * scene gets the next episode number, from 1; `ep_no` advances only then.
   */
  method NumberEpisodes(net: Net, scenes: seq<Scene>, row: Dict<Json>, titled: set<nat>)
    returns (r: Result<Dict<Json>>)
    ensures r == match KeptEpisodes(net, scenes)
      case Raised => Raised
      case Ok(eps) => Ok(Numbered(row, eps, titled))
  {
    var csv := row;
    var epNo := 1;
    ghost var kept := [];
    var i := 0;
    while i < |scenes|
      invariant 0 <= i <= |scenes|
      invariant KeptEpisodes(net, scenes[..i]) == Ok(kept)
      invariant epNo == |kept| + 1 && csv == Numbered(row, kept, titled)
    {
      var stop;
      stop, csv, epNo, kept := NumberScene(net, scenes, i, csv, epNo, titled, row, kept);
      if stop {
        KeptEpisodesRaised(net, scenes, i + 1);
        return Raised;
      }
      i := i + 1;
    }
    assert scenes[..i] == scenes;
    r := Ok(csv);
  }

  // ---------------------------------------------------------------------------
  // Soul skins, memorials and bursts: EP2 and EP3
  // ---------------------------------------------------------------------------

  /** A scene of an adventure episode that has a `scenario_path`. */
  datatype AdvScene = AdvScene(file: string, isKs: bool, title: Json, summary: Json)

  /**
   * One pass of the scene loop of `process_adv_episode_id` up to the EP2/EP3
   * update; the script download after it never raises out of the loop.
   */
  function AdvSceneOf(net: Net, scene: Scene): Result<Option<AdvScene>> {
    match scene.id
    case JStr(file) =>
      (match SceneMeta(net, file, scene.directory)
       case None => Ok(None)
       case Some(meta) =>
         match meta
         case JObj(fields) =>
           var path := Field(fields, "scenario_path", JStr(""));
           if !Truthy(path) then Ok(None)
           else (match path
             case JStr(p) =>
               Ok(Some(AdvScene(file, EndsWith(p, ".ks"), Field(fields, "title", JStr("")), Field(fields, "summary", JStr("")))))
             case _ => Raised)
         case _ => Raised)
    case _ => Ok(None)
  }

  function AdvScenes(net: Net, scenes: seq<Scene>): (r: Result<seq<AdvScene>>)
    ensures r.Ok? ==> |r.value| <= |scenes|
  {
    if |scenes| == 0 then Ok([])
    else match AdvScenes(net, scenes[..|scenes| - 1])
      case Raised => Raised
      case Ok(s) =>
        match AdvSceneOf(net, scenes[|scenes| - 1])
        case Raised => Raised
        case Ok(None) => Ok(s)
        case Ok(Some(a)) => Ok(s + [a])
  }

  lemma {:induction false} AdvScenesRaised(net: Net, scenes: seq<Scene>, i: nat)
    requires i <= |scenes| && AdvScenes(net, scenes[..i]).Raised?
    ensures AdvScenes(net, scenes).Raised?
    decreases |scenes| - i
  {
    if i < |scenes| {
      assert scenes[..i + 1][..i] == scenes[..i];
      AdvScenesRaised(net, scenes, i + 1);
    } else {
      assert scenes[..i] == scenes;
    }
  }

  /** `ep2_id`, `ep2_title`, `ep2_info` and `ep3_id` after the loop. */
  datatype Ep2 = Ep2(ep2Id: Option<string>, title: Json, info: Json, ep3Id: Option<string>)

  const NoEp2 := Ep2(None, JStr(""), JStr(""), None)

  predicate Titled(a: AdvScene) {
    Truthy(a.title) || Truthy(a.summary)
  }

  function ReconcileStep(acc: Ep2, a: AdvScene): Ep2 {
    if !Titled(a) then acc
    else if a.isKs then Ep2(Some(a.file), a.title, a.summary, acc.ep3Id)
    else Ep2(acc.ep2Id, a.title, a.summary, Some(a.file))
  }

  function Reconcile(s: seq<AdvScene>): Ep2 {
    if |s| == 0 then NoEp2 else ReconcileStep(Reconcile(s[..|s| - 1]), s[|s| - 1])
  }

  /** Scene `i` is the last titled scene, of the given script kind when `ks` is given. */
  predicate IsLast(s: seq<AdvScene>, i: int, ks: Option<bool>) {
    0 <= i < |s| && Matches(s[i], ks) && forall j :: i < j < |s| ==> !Matches(s[j], ks)
  }

  predicate Matches(a: AdvScene, ks: Option<bool>) {
    Titled(a) && (ks.None? || a.isKs == ks.value)
  }

  predicate NoneMatch(s: seq<AdvScene>, ks: Option<bool>) {
    forall j :: 0 <= j < |s| ==> !Matches(s[j], ks)
  }

  /** EP2's title and summary come from the last titled scene, `.ks` or not. */
  lemma {:induction false} ReconcileTitle(s: seq<AdvScene>, i: int)
    requires IsLast(s, i, None)
    ensures Reconcile(s).title == s[i].title && Reconcile(s).info == s[i].summary
  {
    var n := |s|;
    if i < n - 1 {
      assert !Matches(s[n - 1], None);
      assert IsLast(s[..n - 1], i, None);
      ReconcileTitle(s[..n - 1], i);
    }
  }

  /** Without a titled scene, EP2's title and summary stay empty and there is no EP2 or EP3 id. */
  lemma {:induction false} ReconcileUntitled(s: seq<AdvScene>)
    requires NoneMatch(s, None)
    ensures Reconcile(s) == NoEp2
  {
    if |s| > 0 {
      assert !Matches(s[|s| - 1], None);
      ReconcileUntitled(s[..|s| - 1]);
    }
  }

  /** EP2's id is the last titled `.ks` scene, and EP3's the last titled other scene. */
  lemma {:induction false} ReconcileIds(s: seq<AdvScene>, i: int, ks: bool)
    requires IsLast(s, i, Some(ks))
    ensures (if ks then Reconcile(s).ep2Id else Reconcile(s).ep3Id) == Some(s[i].file)
  {
    var n := |s|;
    if i < n - 1 {
      assert !Matches(s[n - 1], Some(ks));
      assert IsLast(s[..n - 1], i, Some(ks));
      ReconcileIds(s[..n - 1], i, ks);
    }
  }

  /** With no titled scene of a kind, the matching id stays unset. */
  lemma {:induction false} ReconcileNoId(s: seq<AdvScene>, ks: bool)
    requires NoneMatch(s, Some(ks))
    ensures (if ks then Reconcile(s).ep2Id else Reconcile(s).ep3Id) == None
  {
    if |s| > 0 {
      assert !Matches(s[|s| - 1], Some(ks));
      ReconcileNoId(s[..|s| - 1], ks);
    }
  }

  /** The scene loop of `process_adv_episode_id`, updating the four EP2/EP3 variables. */
  method ReconcileScenes(net: Net, scenes: seq<Scene>) returns (r: Result<Ep2>)
    ensures r == match AdvScenes(net, scenes)
      case Raised => Raised
      case Ok(s) => Ok(Reconcile(s))
  {
    var ep2Id: Option<string> := None;
    var ep2Title := JStr("");
    var ep2Info := JStr("");
    var ep3Id: Option<string> := None;
    ghost var seen := [];
    var i := 0;
    while i < |scenes|
      invariant 0 <= i <= |scenes|
      invariant AdvScenes(net, scenes[..i]) == Ok(seen)
      invariant Reconcile(seen) == Ep2(ep2Id, ep2Title, ep2Info, ep3Id)
    {
      assert scenes[..i + 1][..i] == scenes[..i];
      var pass := AdvSceneOf(net, scenes[i]);
      if pass.Raised? {
        AdvScenesRaised(net, scenes, i + 1);
        return Raised;
      }
      if pass.value.Some? {
        var a := pass.value.value;
        if Truthy(a.title) || Truthy(a.summary) {
          if a.isKs {
            ep2Id := Some(a.file);
            ep2Title := a.title;
            ep2Info := a.summary;
          } else {
            ep2Title := a.title;
            ep2Info := a.summary;
            ep3Id := Some(a.file);
          }
        }
        seen := seen + [a];
        assert seen[..|seen| - 1] == seen[..|seen| - 1];
      }
      i := i + 1;
    }
    assert scenes[..i] == scenes;
    r := Ok(Ep2(ep2Id, ep2Title, ep2Info, ep3Id));
  }

  /** `if x:` on an id that is a string or `None`. */
  predicate Set(id: Option<string>) {
    id.Some? && id.value != ""
  }

  function AdvBaseRow(name: string, folder: string): Dict<Json> {
    [("Name", JStr(name)), ("Rank", JStr(folder)), ("Awaken", JStr(""))]
  }

  /** The row of an adventure episode: name, folder as rank, an empty `Awaken`, then EP2 and EP3. */
  function AdvRow(name: string, folder: string, ep: Ep2): Dict<Json> {
    var r1 := if Set(ep.ep2Id) then Put(AdvBaseRow(name, folder), "EP2ID", JStr(ep.ep2Id.value)) else AdvBaseRow(name, folder);
    var r2 := Put(Put(r1, "EP2Title", ep.title), "EP2Info", ep.info);
    if Set(ep.ep3Id) then Put(r2, "EP3ID", JStr(ep.ep3Id.value)) else r2
  }

  lemma {:induction false} AdvRowGet(name: string, folder: string, ep: Ep2, k: string)
    ensures Valid(AdvRow(name, folder, ep))
    ensures Get(AdvRow(name, folder, ep), k) ==
      if k == "EP3ID" && Set(ep.ep3Id) then Some(JStr(ep.ep3Id.value))
      else if k == "EP2Info" then Some(ep.info)
      else if k == "EP2Title" then Some(ep.title)
      else if k == "EP2ID" && Set(ep.ep2Id) then Some(JStr(ep.ep2Id.value))
      else Get(AdvBaseRow(name, folder), k)
  {
    var base := AdvBaseRow(name, folder);
    assert Valid(base) by {
      assert Keys(base) == ["Name", "Rank", "Awaken"];
    }
    var r1 := if Set(ep.ep2Id) then Put(base, "EP2ID", JStr(ep.ep2Id.value)) else base;
    if Set(ep.ep2Id) {
      PutValid(base, "EP2ID", JStr(ep.ep2Id.value));
      GetPut(base, "EP2ID", JStr(ep.ep2Id.value), k);
    }
    var r1a := Put(r1, "EP2Title", ep.title);
    PutValid(r1, "EP2Title", ep.title);
    GetPut(r1, "EP2Title", ep.title, k);
    var r2 := Put(r1a, "EP2Info", ep.info);
    PutValid(r1a, "EP2Info", ep.info);
    GetPut(r1a, "EP2Info", ep.info, k);
    if Set(ep.ep3Id) {
      PutValid(r2, "EP3ID", JStr(ep.ep3Id.value));
      GetPut(r2, "EP3ID", JStr(ep.ep3Id.value), k);
    }
  }

  /**
   * `EP2Title` and `EP2Info` are always present; `EP2ID` and `EP3ID` exactly
   * when the reconciled id is a non-empty string; the name and rank are the
   * folder's.
   */
  lemma {:induction false} AdvRowFields(name: string, folder: string, ep: Ep2)
    ensures Get(AdvRow(name, folder, ep), "Name") == Some(JStr(name))
    ensures Get(AdvRow(name, folder, ep), "Rank") == Some(JStr(folder))
    ensures Get(AdvRow(name, folder, ep), "EP2Title") == Some(ep.title)
    ensures Get(AdvRow(name, folder, ep), "EP2Info") == Some(ep.info)
    ensures Get(AdvRow(name, folder, ep), "EP2ID") == if Set(ep.ep2Id) then Some(JStr(ep.ep2Id.value)) else None
    ensures Get(AdvRow(name, folder, ep), "EP3ID") == if Set(ep.ep3Id) then Some(JStr(ep.ep3Id.value)) else None
  {
    var base := AdvBaseRow(name, folder);
    assert Valid(base) by {
      assert Keys(base) == ["Name", "Rank", "Awaken"];
    }
    ValidGet(base, 0);
    ValidGet(base, 1);
    assert Keys(base) == ["Name", "Rank", "Awaken"];
    assert !HasKey(base, "EP2ID") && !HasKey(base, "EP3ID");
    AdvRowGet(name, folder, ep, "Name");
    AdvRowGet(name, folder, ep, "Rank");
    AdvRowGet(name, folder, ep, "EP2Title");
    AdvRowGet(name, folder, ep, "EP2Info");
    AdvRowGet(name, folder, ep, "EP2ID");
    AdvRowGet(name, folder, ep, "EP3ID");
  }
}

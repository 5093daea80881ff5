/**
 * The per-entity workflows of download_json_core.py: `process_kamihime_id`,
 * `process_eidolon_id` and `process_adv_episode_id`. Each reads responses
 * from the network oracle and the set of entity folders that already exist,
 * and gives the index row (or none), the folder it creates and the portrait
 * it asks for. An exception that escapes the workflow is `Crashed`; status 440
 * on the info request is `SessionExpired`.
 */
module Records {
  import opened Base
  import opened PyJson
  import opened Dict
  import opened Responses
  import opened Episodes
  import opened Bands

  /** `download_portrait(char_type, char_id, char_name)`. */
  datatype PortraitRequest = PortraitRequest(charType: string, id: int, name: string)

  /** A dict row, `[]` (no row), an escaped exception, or the session-expired exit. */
  datatype Outcome = NoRow | Row(row: Dict<Json>) | Crashed | SessionExpired

  /** An outcome with the `(folder, name)` directory created and the portrait requested on the way. */
  datatype Effect = Effect(outcome: Outcome, created: Option<(string, string)>, portrait: Option<PortraitRequest>)

  type Folders = set<(string, string)>

  function Stop(o: Outcome): Effect {
    Effect(o, None, None)
  }

  /** `d.get(k) or fallback`. */
  function Or(v: Option<Json>, fallback: Json): Json {
    if v.Some? && Truthy(v.value) then v.value else fallback
  }

  /** The row a character or summon starts from. */
  function CharaRow(name: string, rank: string, info: Json): Dict<Json> {
    [("Name", JStr(name)), ("Rank", JStr(rank)), ("Info", info)]
  }

  lemma {:induction false} CharaRowFields(name: string, rank: string, info: Json)
    ensures Valid(CharaRow(name, rank, info))
    ensures Get(CharaRow(name, rank, info), "Name") == Some(JStr(name))
    ensures Get(CharaRow(name, rank, info), "Rank") == Some(JStr(rank))
  {
    var r := CharaRow(name, rank, info);
    assert Keys(r) == ["Name", "Rank", "Info"];
    ValidGet(r, 0);
    ValidGet(r, 1);
  }

  // ---------------------------------------------------------------------------
  // The episode loop
  // ---------------------------------------------------------------------------

  /**
   * The scenes collected over the episodes: an episode whose response is not
   * 200 or not JSON is passed over; a failed request raises. A chapter that
   * raises keeps what it appended when `tolerant` (characters, whose parsing
   * sits in a `try`) and raises otherwise (summons).
   */
  function Gathered(net: Net, eps: seq<int>, suffix: string, tolerant: bool): (r: Result<seq<Scene>>)
    ensures r.Ok? ==> |r.value| <= 2 * |eps|
  {
    if |eps| == 0 then Ok([])
    else match Gathered(net, eps[..|eps| - 1], suffix, tolerant)
      case Raised => Raised
      case Ok(s) =>
        match net(EpisodeUrl + IntToString(eps[|eps| - 1]) + suffix)
        case Failed => Raised
        case Response(status, body) =>
          if status != 200 || body.None? then Ok(s)
          else
            var x := ChapterScenes(body.value);
            if x.raised && !tolerant then Raised else Ok(s + x.scenes)
  }

  /** For one episode, a character keeps the scenes of a chapter that raised part-way; a summon crashes. */
  lemma {:induction false} GatheredOne(net: Net, ep: int, suffix: string, data: Json)
    requires net(EpisodeUrl + IntToString(ep) + suffix) == Response(200, Some(data))
    ensures Gathered(net, [ep], suffix, true) == Ok(ChapterScenes(data).scenes)
    ensures Gathered(net, [ep], suffix, false) ==
      if ChapterScenes(data).raised then Raised else Ok(ChapterScenes(data).scenes)
  {
    assert [ep][..0] == [];
    assert [ep][0] == ep;
    assert [] + ChapterScenes(data).scenes == ChapterScenes(data).scenes;
  }

  lemma {:induction false} GatheredRaised(net: Net, eps: seq<int>, suffix: string, tolerant: bool, i: nat)
    requires i <= |eps| && Gathered(net, eps[..i], suffix, tolerant).Raised?
    ensures Gathered(net, eps, suffix, tolerant).Raised?
    decreases |eps| - i
  {
    if i < |eps| {
      assert eps[..i + 1][..i] == eps[..i];
      GatheredRaised(net, eps, suffix, tolerant, i + 1);
    } else {
      assert eps[..i] == eps;
    }
  }

  /** The `for ep in eps` loop appending to `scenes`. */
  method GatherScenes(net: Net, eps: seq<int>, suffix: string, tolerant: bool) returns (r: Result<seq<Scene>>)
    ensures r == Gathered(net, eps, suffix, tolerant)
  {
    var scenes := [];
    var i := 0;
    while i < |eps|
      invariant 0 <= i <= |eps|
      invariant Gathered(net, eps[..i], suffix, tolerant) == Ok(scenes)
    {
      assert eps[..i + 1][..i] == eps[..i];
      assert eps[..i + 1][i] == eps[i];
      var reply := net(EpisodeUrl + IntToString(eps[i]) + suffix);
      if reply.Failed? {
        GatheredRaised(net, eps, suffix, tolerant, i + 1);
        return Raised;
      }
      if reply.status == 200 && reply.body.Some? {
        var x := ChapterScenes(reply.body.value);
        if x.raised && !tolerant {
          GatheredRaised(net, eps, suffix, tolerant, i + 1);
          return Raised;
        }
        scenes := scenes + x.scenes;
      }
      i := i + 1;
    }
    assert eps[..i] == eps;
    r := Ok(scenes);
  }

  /** What the scene loop makes of the gathered scenes: no scenes give no row. */
  function SceneRow(net: Net, gathered: Result<seq<Scene>>, row: Dict<Json>, titled: set<nat>): Outcome {
    match gathered
    case Raised => Crashed
    case Ok(scenes) =>
      if scenes == [] then NoRow
      else match KeptEpisodes(net, scenes)
        case Raised => Crashed
        case Ok(eps) => Row(Numbered(row, eps, titled))
  }

  lemma {:induction false} SceneRowKeeps(net: Net, gathered: Result<seq<Scene>>, row: Dict<Json>, titled: set<nat>, k: string)
    requires Valid(row) && !StartsWith(k, "EP") && SceneRow(net, gathered, row, titled).Row?
    ensures Get(SceneRow(net, gathered, row, titled).row, k) == Get(row, k)
  {
    NumberedKeepsOthers(row, KeptEpisodes(net, gathered.value).value, titled, k);
  }

  // ---------------------------------------------------------------------------
  // Characters
  // ---------------------------------------------------------------------------

  const KamihimeTitled: set<nat> := {1, 2, 4}
  const EidolonTitled: set<nat> := {1, 2}

  /**
   * Entering an entity folder: an existing folder gives no row; otherwise the
   * folder is created, the portrait requested, and the rest of the workflow runs.
   */
  function Enter(dirs: Folders, folder: string, name: string, portrait: PortraitRequest, rest: Outcome): Effect {
    if (folder, name) in dirs then Stop(NoRow) else Effect(rest, Some((folder, name)), Some(portrait))
  }

  /** `process_kamihime_id`. */
  function KamihimeRecord(net: Net, id: int, dirs: Folders): Effect {
    match DownloadInfo(net(KamihimeInfoUrl + IntToString(id)))
    case Raised => Stop(Crashed)
    case Ok(Expired) => Stop(SessionExpired)
    case Ok(reply) =>
      if reply.Parsed? && Truthy(reply.value) then KamihimeEntity(net, id, reply.value, dirs) else Stop(NoRow)
  }

  /** `process_kamihime_id` from a record: rarity, safe name, folder, then the scenes. */
  function KamihimeEntity(net: Net, id: int, info: Json, dirs: Folders): Effect {
    var idStr := IntToString(id);
    match info
    case JObj(fields) =>
      var rarity := Or(Lookup(fields, "rare"), Or(Lookup(fields, "rarity"), JStr("")));
      (match Or(Lookup(fields, "name"), JStr("ID_" + idStr))
       case JStr(raw) =>
         var name := SafeName(raw);
         var folder := Str(rarity) + " Kamihime";
         Enter(dirs, folder, name, PortraitRequest("kamihime", id, name),
               KamihimeScenes(net, idStr, fields, CharaRow(name, folder, Field(fields, "description", JStr("")))))
       case _ => Stop(Crashed))
    case _ => Stop(Crashed)
  }

  /** The part of `process_kamihime_id` after the portrait: base episode, episodes, scenes. */
  function KamihimeScenes(net: Net, idStr: string, fields: seq<(string, Json)>, row: Dict<Json>): Outcome {
    match net(KamihimeScenesUrl + idStr)
    case Failed => Crashed
    case Response(status, body) =>
      if status != 200 || body.None? then NoRow
      else match BaseEpisode(body.value)
        case None => NoRow
        case Some(e) =>
          match KamihimeEps(e, Field(fields, "rare", JStr("")), Field(fields, "name", JStr("")))
          case Raised => Crashed
          case Ok(eps) => SceneRow(net, Gathered(net, eps, "_harem-character", true), row, KamihimeTitled)
  }

  method ProcessKamihime(net: Net, id: int, dirs: Folders) returns (e: Effect)
    ensures e == KamihimeRecord(net, id, dirs)
  {
    var idStr := IntToString(id);
    var reply := DownloadInfo(net(KamihimeInfoUrl + idStr));
    if reply.Raised? {
      return Stop(Crashed);
    }
    if reply.value.Expired? {
      return Stop(SessionExpired);
    }
    if !reply.value.Parsed? || !Truthy(reply.value.value) {
      return Stop(NoRow);
    }
    var info := reply.value.value;
    if !info.JObj? {
      return Stop(Crashed);
    }
    var fields := info.fields;
    var rarity := Or(Lookup(fields, "rare"), Or(Lookup(fields, "rarity"), JStr("")));
    var rawName := Or(Lookup(fields, "name"), JStr("ID_" + idStr));
    if !rawName.JStr? {
      return Stop(Crashed);
    }
    var name := SafeName(rawName.s);
    var folder := Str(rarity) + " Kamihime";
    var row := CharaRow(name, folder, Field(fields, "description", JStr("")));
    if (folder, name) in dirs {
      return Stop(NoRow);
    }
    e := Effect(NoRow, Some((folder, name)), Some(PortraitRequest("kamihime", id, name)));
    var scenesReply := net(KamihimeScenesUrl + idStr);
    if scenesReply.Failed? {
      return e.(outcome := Crashed);
    }
    if scenesReply.status != 200 || scenesReply.body.None? {
      return;
    }
    var base := BaseEpisode(scenesReply.body.value);
    if base.None? {
      return;
    }
    var eps := KamihimeEps(base.value, Field(fields, "rare", JStr("")), Field(fields, "name", JStr("")));
    if eps.Raised? {
      return e.(outcome := Crashed);
    }
    var scenes := GatherScenes(net, eps.value, "_harem-character", true);
    if scenes.Raised? {
      return e.(outcome := Crashed);
    }
    if scenes.value == [] {
      return;
    }
    var numbered := NumberEpisodes(net, scenes.value, row, KamihimeTitled);
    if numbered.Raised? {
      return e.(outcome := Crashed);
    }
    e := e.(outcome := Row(numbered.value));
  }

  /** `process_eidolon_id`. */
  function EidolonRecord(net: Net, id: int, dirs: Folders): Effect {
    match DownloadInfo(net(EidolonInfoUrl + IntToString(id)))
    case Raised => Stop(Crashed)
    case Ok(Expired) => Stop(SessionExpired)
    case Ok(reply) =>
      if reply.Parsed? && Truthy(reply.value) then EidolonEntity(net, id, reply.value, dirs) else Stop(NoRow)
  }

  /** `process_eidolon_id` from a record: safe name, folder, then the scenes. */
  function EidolonEntity(net: Net, id: int, info: Json, dirs: Folders): Effect {
    var idStr := IntToString(id);
    match info
    case JObj(fields) =>
      (match Or(Lookup(fields, "name"), JStr("ID_" + idStr))
       case JStr(raw) =>
         var name := SafeName(raw);
         Enter(dirs, "Eidolon", name, PortraitRequest("eidolon", id, name),
               EidolonScenes(net, idStr, CharaRow(name, "Eidolon", Field(fields, "description", JStr("")))))
       case _ => Stop(Crashed))
    case _ => Stop(Crashed)
  }

  function EidolonScenes(net: Net, idStr: string, row: Dict<Json>): Outcome {
    match net(EidolonScenesUrl + idStr)
    case Failed => Crashed
    case Response(status, body) =>
      if status != 200 || body.None? then NoRow
      else match BaseEpisode(body.value)
        case None => NoRow
        case Some(e) => SceneRow(net, Gathered(net, EidolonEps(e), "_harem-summon", false), row, EidolonTitled)
  }

  method ProcessEidolon(net: Net, id: int, dirs: Folders) returns (e: Effect)
    ensures e == EidolonRecord(net, id, dirs)
  {
    var idStr := IntToString(id);
    var reply := DownloadInfo(net(EidolonInfoUrl + idStr));
    if reply.Raised? {
      return Stop(Crashed);
    }
    if reply.value.Expired? {
      return Stop(SessionExpired);
    }
    if !reply.value.Parsed? || !Truthy(reply.value.value) {
      return Stop(NoRow);
    }
    var info := reply.value.value;
    if !info.JObj? {
      return Stop(Crashed);
    }
    var fields := info.fields;
    var rawName := Or(Lookup(fields, "name"), JStr("ID_" + idStr));
    if !rawName.JStr? {
      return Stop(Crashed);
    }
    var name := SafeName(rawName.s);
    var row := CharaRow(name, "Eidolon", Field(fields, "description", JStr("")));
    if ("Eidolon", name) in dirs {
      return Stop(NoRow);
    }
    e := Effect(NoRow, Some(("Eidolon", name)), Some(PortraitRequest("eidolon", id, name)));
    var scenesReply := net(EidolonScenesUrl + idStr);
    if scenesReply.Failed? {
      return e.(outcome := Crashed);
    }
    if scenesReply.status != 200 || scenesReply.body.None? {
      return;
    }
    var base := BaseEpisode(scenesReply.body.value);
    if base.None? {
      return;
    }
    var scenes := GatherScenes(net, EidolonEps(base.value), "_harem-summon", false);
    if scenes.Raised? {
      return e.(outcome := Crashed);
    }
    if scenes.value == [] {
      return;
    }
    var numbered := NumberEpisodes(net, scenes.value, row, EidolonTitled);
    if numbered.Raised? {
      return e.(outcome := Crashed);
    }
    e := e.(outcome := Row(numbered.value));
  }

  // ---------------------------------------------------------------------------
  // Soul skins, memorials and bursts
  // ---------------------------------------------------------------------------

  function AdvSuffix(t: AdvType): string {
    match t
    case Soul => "harem-job"
    case Memorial => "harem-memorial"
    case Burst => "harem-burst"
  }

  /** The folder, which is also the row's rank. */
  function AdvFolder(t: AdvType): string {
    if t == Soul then "Soul Skin" else "Other"
  }

  /** The `dir_name` template filled with the episode id; also the row's name. */
  function AdvDirName(t: AdvType, id: int): string {
    match t
    case Soul => "英霊スキン(" + IntToString(id) + ")"
    case Memorial => "(メモリアル" + IntToString(id) + ")"
    case Burst => "(バースト" + IntToString(id) + ")"
  }

  /** `process_adv_episode_id`. */
  function AdvRecord(net: Net, t: AdvType, id: int, dirs: Folders): Effect {
    var name := AdvDirName(t, id);
    var folder := AdvFolder(t);
    match net(EpisodeUrl + IntToString(id) + "_" + AdvSuffix(t))
    case Failed => Stop(Crashed)
    case Response(status, body) =>
      if status != 200 || body.None? then Stop(NoRow)
      else
        var x := ChapterScenes(body.value);
        if x.raised then Stop(Crashed)
        else if x.scenes == [] then Stop(NoRow)
        else Enter(dirs, folder, name, PortraitRequest(AdvKey(t), id, name), AdvScenesRow(net, x.scenes, name, folder))
  }

  function AdvScenesRow(net: Net, scenes: seq<Scene>, name: string, folder: string): Outcome {
    match AdvScenes(net, scenes)
    case Raised => Crashed
    case Ok(s) => Row(AdvRow(name, folder, Reconcile(s)))
  }

  method ProcessAdv(net: Net, t: AdvType, id: int, dirs: Folders) returns (e: Effect)
    ensures e == AdvRecord(net, t, id, dirs)
  {
    var name := AdvDirName(t, id);
    var folder := AdvFolder(t);
    var reply := net(EpisodeUrl + IntToString(id) + "_" + AdvSuffix(t));
    if reply.Failed? {
      return Stop(Crashed);
    }
    if reply.status != 200 || reply.body.None? {
      return Stop(NoRow);
    }
    var x := ChapterScenes(reply.body.value);
    if x.raised {
      return Stop(Crashed);
    }
    if x.scenes == [] || (folder, name) in dirs {
      return Stop(NoRow);
    }
    e := Effect(Crashed, Some((folder, name)), Some(PortraitRequest(AdvKey(t), id, name)));
    var ep2 := ReconcileScenes(net, x.scenes);
    if ep2.Ok? {
      e := e.(outcome := Row(AdvRow(name, folder, ep2.value)));
    }
  }

  // ---------------------------------------------------------------------------
  // Properties shared by the three workflows
  // ---------------------------------------------------------------------------

  /**
   * A workflow creates at most one folder, one that did not exist, and asks
   * for the portrait under the folder's name exactly then; a row names that
   * folder: its `Name` is the folder name and its `Rank` the parent folder.
   */
  predicate Claims(dirs: Folders, e: Effect) {
    (e.created.None? ==> e.portrait.None? && !e.outcome.Row?) &&
    (e.created.Some? ==> e.created.value !in dirs && e.portrait.Some? && e.portrait.value.name == e.created.value.1) &&
    (e.outcome.Row? ==>
       (e.created.Some? &&
        Get(e.outcome.row, "Name") == Some(JStr(e.created.value.1)) &&
        Get(e.outcome.row, "Rank") == Some(JStr(e.created.value.0))))
  }

  /** The header columns are not EP columns, so the scene stage leaves them alone. */
  lemma {:induction false} HeaderKeys()
    ensures !StartsWith("Name", "EP") && !StartsWith("Rank", "EP")
  {
    assert "Name"[..2][0] == 'N';
    assert "Rank"[..2][0] == 'R';
  }

  lemma {:induction false} EnterClaims(dirs: Folders, folder: string, name: string, portrait: PortraitRequest, rest: Outcome)
    requires portrait.name == name
    requires rest.Row? ==> Get(rest.row, "Name") == Some(JStr(name)) && Get(rest.row, "Rank") == Some(JStr(folder))
    ensures Claims(dirs, Enter(dirs, folder, name, portrait, rest))
  {
  }

  lemma {:induction false} KamihimeScenesKeeps(net: Net, idStr: string, fields: seq<(string, Json)>, row: Dict<Json>, k: string)
    requires Valid(row) && !StartsWith(k, "EP") && KamihimeScenes(net, idStr, fields, row).Row?
    ensures Get(KamihimeScenes(net, idStr, fields, row).row, k) == Get(row, k)
  {
    var body := net(KamihimeScenesUrl + idStr).body.value;
    var eps := KamihimeEps(BaseEpisode(body).value, Field(fields, "rare", JStr("")), Field(fields, "name", JStr(""))).value;
    SceneRowKeeps(net, Gathered(net, eps, "_harem-character", true), row, KamihimeTitled, k);
  }

  lemma {:induction false} EidolonScenesKeeps(net: Net, idStr: string, row: Dict<Json>, k: string)
    requires Valid(row) && !StartsWith(k, "EP") && EidolonScenes(net, idStr, row).Row?
    ensures Get(EidolonScenes(net, idStr, row).row, k) == Get(row, k)
  {
    var body := net(EidolonScenesUrl + idStr).body.value;
    SceneRowKeeps(net, Gathered(net, EidolonEps(BaseEpisode(body).value), "_harem-summon", false), row, EidolonTitled, k);
  }

  lemma {:induction false} KamihimeClaims(net: Net, id: int, dirs: Folders)
    ensures Claims(dirs, KamihimeRecord(net, id, dirs))
  {
    var reply := DownloadInfo(net(KamihimeInfoUrl + IntToString(id)));
    if reply.Ok? && reply.value.Parsed? && Truthy(reply.value.value) {
      KamihimeEntityClaims(net, id, reply.value.value, dirs);
    }
  }

  lemma {:induction false} KamihimeEntityClaims(net: Net, id: int, info: Json, dirs: Folders)
    ensures Claims(dirs, KamihimeEntity(net, id, info, dirs))
  {
    var e := KamihimeEntity(net, id, info, dirs);
    if info.JObj? {
      var fields := info.fields;
      var idStr := IntToString(id);
      var raw := Or(Lookup(fields, "name"), JStr("ID_" + idStr));
      if raw.JStr? {
        var rarity := Or(Lookup(fields, "rare"), Or(Lookup(fields, "rarity"), JStr("")));
        var name := SafeName(raw.s);
        var folder := Str(rarity) + " Kamihime";
        var row := CharaRow(name, folder, Field(fields, "description", JStr("")));
        var rest := KamihimeScenes(net, idStr, fields, row);
        assert e == Enter(dirs, folder, name, PortraitRequest("kamihime", id, name), rest);
        CharaRowFields(name, folder, Field(fields, "description", JStr("")));
        HeaderKeys();
        if rest.Row? {
          KamihimeScenesKeeps(net, idStr, fields, row, "Name");
          KamihimeScenesKeeps(net, idStr, fields, row, "Rank");
        }
        EnterClaims(dirs, folder, name, PortraitRequest("kamihime", id, name), rest);
      } else {
        assert e == Stop(Crashed);
      }
    } else {
      assert e == Stop(Crashed);
    }
  }

  lemma {:induction false} EidolonClaims(net: Net, id: int, dirs: Folders)
    ensures Claims(dirs, EidolonRecord(net, id, dirs))
  {
    var reply := DownloadInfo(net(EidolonInfoUrl + IntToString(id)));
    if reply.Ok? && reply.value.Parsed? && Truthy(reply.value.value) {
      EidolonEntityClaims(net, id, reply.value.value, dirs);
    }
  }

  lemma {:induction false} EidolonEntityClaims(net: Net, id: int, info: Json, dirs: Folders)
    ensures Claims(dirs, EidolonEntity(net, id, info, dirs))
  {
    var e := EidolonEntity(net, id, info, dirs);
    if info.JObj? {
      var fields := info.fields;
      var idStr := IntToString(id);
      var raw := Or(Lookup(fields, "name"), JStr("ID_" + idStr));
      if raw.JStr? {
        var name := SafeName(raw.s);
        var row := CharaRow(name, "Eidolon", Field(fields, "description", JStr("")));
        var rest := EidolonScenes(net, idStr, row);
        assert e == Enter(dirs, "Eidolon", name, PortraitRequest("eidolon", id, name), rest);
        CharaRowFields(name, "Eidolon", Field(fields, "description", JStr("")));
        HeaderKeys();
        if rest.Row? {
          EidolonScenesKeeps(net, idStr, row, "Name");
          EidolonScenesKeeps(net, idStr, row, "Rank");
        }
        EnterClaims(dirs, "Eidolon", name, PortraitRequest("eidolon", id, name), rest);
      } else {
        assert e == Stop(Crashed);
      }
    } else {
      assert e == Stop(Crashed);
    }
  }

  lemma {:induction false} AdvClaims(net: Net, t: AdvType, id: int, dirs: Folders)
    ensures Claims(dirs, AdvRecord(net, t, id, dirs))
  {
    var reply := net(EpisodeUrl + IntToString(id) + "_" + AdvSuffix(t));
    if reply.Failed? {
      assert AdvRecord(net, t, id, dirs) == Stop(Crashed);
    } else if reply.status != 200 || reply.body.None? {
      assert AdvRecord(net, t, id, dirs) == Stop(NoRow);
    } else {
      var x := ChapterScenes(reply.body.value);
      var name, folder := AdvDirName(t, id), AdvFolder(t);
      if x.raised {
        assert AdvRecord(net, t, id, dirs) == Stop(Crashed);
      } else if x.scenes == [] {
        assert AdvRecord(net, t, id, dirs) == Stop(NoRow);
      } else {
        var rest := AdvScenesRow(net, x.scenes, name, folder);
        assert AdvRecord(net, t, id, dirs) == Enter(dirs, folder, name, PortraitRequest(AdvKey(t), id, name), rest);
        if AdvScenes(net, x.scenes).Ok? {
          AdvRowFields(name, folder, Reconcile(AdvScenes(net, x.scenes).value));
        }
        EnterClaims(dirs, folder, name, PortraitRequest(AdvKey(t), id, name), rest);
      }
    }
  }

  /** Running a character again once its folder exists gives no row and creates nothing. */
  lemma {:induction false} KamihimeRerun(net: Net, id: int, dirs: Folders)
    requires KamihimeRecord(net, id, dirs).created.Some?
    ensures KamihimeRecord(net, id, dirs + {KamihimeRecord(net, id, dirs).created.value}) == Stop(NoRow)
  {
  }

  lemma {:induction false} EidolonRerun(net: Net, id: int, dirs: Folders)
    requires EidolonRecord(net, id, dirs).created.Some?
    ensures EidolonRecord(net, id, dirs + {EidolonRecord(net, id, dirs).created.value}) == Stop(NoRow)
  {
  }

  lemma {:induction false} AdvRerun(net: Net, t: AdvType, id: int, dirs: Folders)
    requires AdvRecord(net, t, id, dirs).created.Some?
    ensures AdvRecord(net, t, id, dirs + {AdvRecord(net, t, id, dirs).created.value}) == Stop(NoRow)
  {
  }
}

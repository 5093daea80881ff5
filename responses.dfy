/**
 * The responses the scraper reads while resolving one character, summon or
 * adventure episode, and the decisions it takes on each of them
 * (download_json_core.py): classifying the info response, reading the base
 * episode, extracting scene references from a chapter, and the scene metadata
 * with its fallback `scenario_path`.
 *
 * The network is an oracle `Net` from URL to `Fetch`: the request raised, or a
 * status with a body that `r.json()` may fail to parse.
 */
module Responses {
  import opened Base
  import opened PyJson

  datatype Fetch = Failed | Response(status: int, body: Option<Json>)

  type Net = string -> Fetch

  const KamihimeInfoUrl := "https://r.kamihimeproject.net/v1/characters/"
  const KamihimeScenesUrl := "https://r.kamihimeproject.net/v1/gacha/harem_episodes/characters/"
  const EidolonInfoUrl := "https://r.kamihimeproject.net/v1/summons/"
  const EidolonScenesUrl := "https://r.kamihimeproject.net/v1/gacha/harem_episodes/summons/"
  const EpisodeUrl := "https://r.kamihimeproject.net/v1/episodes/"
  const SceneUrl := "https://r.kamihimeproject.net/v1/scenarios/"
  const StaticUrl := "https://static-r.kamihimeproject.net/scenarios/"

  // ---------------------------------------------------------------------------
  // download_info_nosave
  // ---------------------------------------------------------------------------

  /**
   * What `download_info_nosave` gives back: `None` after a failed request, `[]`
   * for an error status, an unparsable body or a dict with an `errors` key, the
   * parsed value otherwise; status 440 ends the run instead. A list or string
   * body that holds `"errors"` raises when the log message calls `.get` on it.
   */
  datatype InfoReply = Missing | Empty | Expired | Parsed(value: Json)

  function DownloadInfo(f: Fetch): (r: Result<InfoReply>)
    ensures r == Ok(Expired) <==> f.Response? && f.status == 440
    ensures r == Ok(Missing) <==> f.Failed?
    ensures r == Ok(Empty) <==>
      (f.Response? && f.status != 440 &&
       (f.status != 200 || f.body.None? || (f.body.value.JObj? && In("errors", f.body.value) == Ok(true))))
    ensures r.Raised? <==>
      (f.Response? && f.status == 200 && f.body.Some? &&
       (In("errors", f.body.value).Raised? || (In("errors", f.body.value) == Ok(true) && !f.body.value.JObj?)))
    ensures r.Ok? && r.value.Parsed? <==> f.Response? && f.status == 200 && f.body.Some? && In("errors", f.body.value) == Ok(false)
    ensures r.Ok? && r.value.Parsed? ==> r.value.value == f.body.value
  {
    match f
    case Failed => Ok(Missing)
    case Response(status, body) =>
      if status == 440 then Ok(Expired)
      else if status != 200 then Ok(Empty)
      else match body
        case None => Ok(Empty)
        case Some(j) =>
          match In("errors", j)
          case Raised => Raised
          case Ok(true) =>
            // Only a dict has the `.get` the log message calls.
            if j.JObj? then Ok(Empty) else Raised
          case Ok(false) => Ok(Parsed(j))
  }

  /** The record a caller goes on with: only a truthy parsed value. */
  function InfoRecord(r: Result<InfoReply>): Option<Json> {
    if r.Ok? && r.value.Parsed? && Truthy(r.value.value) then Some(r.value.value) else None
  }

  /** A record is exactly a truthy 200 body without an `errors` member. */
  lemma {:induction false} InfoRecordExactly(f: Fetch, j: Json)
    ensures InfoRecord(DownloadInfo(f)) == Some(j) <==>
      f == Response(200, Some(j)) && In("errors", j) == Ok(false) && Truthy(j)
  {
  }

  /** The integer before the first `_` of the body's `episode_id`, or `None` when any step raises. */
  function BaseEpisode(body: Json): Option<int> {
    match Index(body, KStr("episode_id"))
    case Ok(JStr(s)) => ParseInt(Split(s, '_')[0])
    case _ => None
  }

  /** An episode id `"<n>_<rest>"` gives the base episode `n`. */
  lemma {:induction false} BaseEpisodeOf(n: int, rest: string)
    ensures BaseEpisode(JObj([("episode_id", JStr(IntToString(n) + "_" + rest))])) == Some(n)
  {
    var t := IntToString(n);
    var s := t + "_" + rest;
    IntStringNoUnderscore(n);
    SplitHead(t, rest, '_');
    ParseIntOfString(n);
    assert Index(JObj([("episode_id", JStr(s))]), KStr("episode_id")) == Ok(JStr(s));
  }

  lemma {:induction false} IntStringNoUnderscore(n: int)
    ensures '_' !in IntToString(n)
  {
    var t := IntToString(n);
    if n < 0 {
      var d := NatToString(-n);
      assert t == "-" + d;
      forall i | 0 <= i < |t| ensures t[i] != '_' {
        if i > 0 {
          assert t[i] == d[i - 1];
        }
      }
    }
  }

  // ---------------------------------------------------------------------------
  // Scene references of a chapter
  // ---------------------------------------------------------------------------

  /** A scene reference as the scraper collects it: an id and a resource directory. */
  datatype Scene = Scene(id: Json, directory: Json)

  /**
   * The first element of the chapter's `list` member, when the member is
   * present and truthy, made into a scene from its `idKey` member and its
   * `resource_directory` member (`None` when missing).
   */
  function FirstScene(chapter: Json, list: string, idKey: string): Result<Option<Scene>> {
    match In(list, chapter)
    case Raised => Raised
    case Ok(false) => Ok(None)
    case Ok(true) =>
      match Index(chapter, KStr(list))
      case Raised => Raised
      case Ok(v) =>
        if !Truthy(v) then Ok(None)
        else match Index(v, KInt(0))
          case Raised => Raised
          case Ok(first) =>
            match Index(first, KStr(idKey))
            case Raised => Raised
            case Ok(id) =>
              match GetMember(first, "resource_directory")
              case Raised => Raised
              case Ok(d) => Ok(Some(Scene(id, d)))
  }

  /** The scenes appended for one episode before any exception, and whether one was raised. */
  datatype Extracted = Extracted(scenes: seq<Scene>, raised: bool)

  function ChapterScenes(data: Json): (r: Extracted)
    ensures |r.scenes| <= 2
  {
    match Index(data, KStr("chapters"))
    case Raised => Extracted([], true)
    case Ok(chapters) =>
      match Index(chapters, KInt(0))
      case Raised => Extracted([], true)
      case Ok(chapter) =>
        match FirstScene(chapter, "scenarios", "scenario_id")
        case Raised => Extracted([], true)
        case Ok(first) =>
          var s := if first.Some? then [first.value] else [];
          match FirstScene(chapter, "harem_scenes", "harem_scene_id")
          case Raised => Extracted(s, true)
          case Ok(second) => Extracted(s + if second.Some? then [second.value] else [], false)
  }

  /** The `resource_directory` member of a dict, `None` when it is missing. */
  function DirectoryOf(fields: seq<(string, Json)>): Json {
    match Lookup(fields, "resource_directory")
    case Some(d) => d
    case None => JNull
  }

  /** A list member whose first element carries the id gives that scene. */
  lemma {:induction false} FirstSceneOf(fields: seq<(string, Json)>, list: string, idKey: string,
                                        head: seq<(string, Json)>, rest: seq<Json>, id: Json)
    requires Lookup(fields, list) == Some(JArr([JObj(head)] + rest))
    requires Lookup(head, idKey) == Some(id)
    ensures FirstScene(JObj(fields), list, idKey) ==
      Ok(Some(Scene(id, DirectoryOf(head))))
  {
    assert [JObj(head)] + rest != [];
    assert ([JObj(head)] + rest)[0] == JObj(head);
  }

  /** A chapter without the list member, or with an empty one, gives no scene. */
  lemma {:induction false} FirstSceneAbsent(fields: seq<(string, Json)>, list: string, idKey: string)
    requires Lookup(fields, list).None? || !Truthy(Lookup(fields, list).value)
    ensures FirstScene(JObj(fields), list, idKey) == Ok(None)
  {
  }

  /** The first chapter of a well-formed episode gives its scenario, then its harem scene. */
  lemma {:induction false} WellFormedChapter(data: Json, chapter: seq<(string, Json)>,
                                             scenario: seq<(string, Json)>, harem: seq<(string, Json)>)
    requires Index(data, KStr("chapters")) == Ok(JArr([JObj(chapter)]))
    requires Lookup(chapter, "scenarios") == Some(JArr([JObj(scenario)]))
    requires Lookup(chapter, "harem_scenes") == Some(JArr([JObj(harem)]))
    requires Lookup(scenario, "scenario_id").Some? && Lookup(harem, "harem_scene_id").Some?
    ensures ChapterScenes(data) == Extracted([
      Scene(Lookup(scenario, "scenario_id").value, DirectoryOf(scenario)),
      Scene(Lookup(harem, "harem_scene_id").value, DirectoryOf(harem))], false)
  {
    assert [JObj(scenario)] == [JObj(scenario)] + [];
    assert [JObj(harem)] == [JObj(harem)] + [];
    FirstSceneOf(chapter, "scenarios", "scenario_id", scenario, [], Lookup(scenario, "scenario_id").value);
    FirstSceneOf(chapter, "harem_scenes", "harem_scene_id", harem, [], Lookup(harem, "harem_scene_id").value);
  }

  // ---------------------------------------------------------------------------
  // Scene metadata and the fallback scenario path
  // ---------------------------------------------------------------------------

  /** `t` cut into groups of three characters, the last possibly shorter. */
  function Chunks(t: string): (r: seq<string>)
    ensures forall i :: 0 <= i < |r| ==> 1 <= |r[i]| <= 3
    decreases |t|
  {
    if |t| == 0 then []
    else if |t| <= 3 then [t]
    else [t[..3]] + Chunks(t[3..])
  }

  /** The `scenario_path` rebuilt from a resource directory when the scene metadata is not 200. */
  function FallbackPath(d: string): string {
    Join(Chunks(PySlice(d, -6, |d|)), "/") + "/" + d + "/scenario.json"
  }

  /**
   * The fallback path is the directory's last six characters as two groups of
   * three, then the directory itself; a shorter directory gives shorter groups.
   */
  lemma {:induction false} FallbackPathShape(d: string)
    ensures |d| <= 3 ==> FallbackPath(d) == d + "/" + d + "/scenario.json"
    ensures 3 < |d| <= 6 ==> FallbackPath(d) == d[..3] + "/" + d[3..] + "/" + d + "/scenario.json"
    ensures 6 <= |d| ==>
      FallbackPath(d) == d[|d| - 6..|d| - 3] + "/" + d[|d| - 3..] + "/" + d + "/scenario.json"
  {
    var t := PySlice(d, -6, |d|);
    assert t == if |d| <= 6 then d else d[|d| - 6..];
    GroupsOf(t);
    if |d| >= 6 {
      assert t[..3] == d[|d| - 6..|d| - 3] && t[3..] == d[|d| - 3..];
    }
  }

  /** At most six characters make one group, or two with the first of three. */
  lemma {:induction false} GroupsOf(t: string)
    requires |t| <= 6
    ensures Join(Chunks(t), "/") == if |t| <= 3 then t else t[..3] + "/" + t[3..]
  {
    if |t| > 3 {
      assert Chunks(t) == [t[..3]] + Chunks(t[3..]);
      assert Chunks(t[3..]) == [t[3..]];
    } else if |t| > 0 {
      assert Chunks(t) == [t];
    }
  }

  function FallbackMetaOf(path: string, d: Json): Json {
    JObj([("scenario_path", JStr(path)), ("resource_directory", d)])
  }

  /**
   * The metadata the scraper builds itself from `resource_directory`; a value
   * that cannot be sliced and joined (missing, a number, a non-empty list, an
   * object) raises.
   */
  function FallbackMeta(d: Json): Result<Json> {
    match d
    case JStr(s) => Ok(FallbackMetaOf(FallbackPath(s), d))
    case JArr(items) => if items == [] then Ok(FallbackMetaOf("/" + Str(d) + "/scenario.json", d)) else Raised
    case _ => Raised
  }

  /**
   * The scene metadata of the `try` block: the 200 body, else the fallback;
   * `None` when the block raised and the loop goes on with the next scene.
   */
  function SceneMeta(net: Net, file: string, d: Json): Option<Json> {
    match net(SceneUrl + file)
    case Failed => None
    case Response(status, body) =>
      if status == 200 then body
      else match FallbackMeta(d)
        case Ok(m) => Some(m)
        case Raised => None
  }

  /**
   * A failed request skips the scene; a 200 reply gives its body; any other
   * status falls back to the metadata rebuilt from a string directory, and
   * skips the scene when the directory is neither a string nor an empty list.
   */
  lemma {:induction false} SceneMetaCases(net: Net, file: string, d: Json)
    ensures net(SceneUrl + file).Failed? ==> SceneMeta(net, file, d).None?
    ensures net(SceneUrl + file).Response? && net(SceneUrl + file).status == 200 ==>
      SceneMeta(net, file, d) == net(SceneUrl + file).body
    ensures d.JStr? && net(SceneUrl + file).Response? && net(SceneUrl + file).status != 200 ==>
      SceneMeta(net, file, d) == Some(FallbackMetaOf(FallbackPath(d.s), d))
    ensures !d.JStr? && d != JArr([]) && net(SceneUrl + file).Response? && net(SceneUrl + file).status != 200 ==>
      SceneMeta(net, file, d).None?
  {
  }

  /** The member `k` of an object, `default` when it is missing. */
  function Field(fields: seq<(string, Json)>, k: string, default: Json): Json {
    match Lookup(fields, k)
    case Some(v) => v
    case None => default
  }

  // ---------------------------------------------------------------------------
  // Safe names
  // ---------------------------------------------------------------------------

  /** The text with square brackets turned into parentheses. */
  function SafeName(raw: string): (r: string)
    ensures |r| == |raw|
    ensures forall i :: 0 <= i < |r| ==> r[i] == Bracket(raw[i])
    ensures '[' !in r && ']' !in r
  {
    ReplaceChar(raw, '[', '(');
    ReplaceChar(ReplaceAll(raw, "[", "("), ']', ')');
    ReplaceAll(ReplaceAll(raw, "[", "("), "]", ")")
  }

  function Bracket(c: char): char {
    if c == '[' then '(' else if c == ']' then ')' else c
  }

  /** Replacing a one-character pattern maps each character on its own. */
  lemma {:induction false} ReplaceChar(s: string, a: char, b: char)
    ensures |ReplaceAll(s, [a], [b])| == |s|
    ensures forall i :: 0 <= i < |s| ==> ReplaceAll(s, [a], [b])[i] == if s[i] == a then b else s[i]
    decreases |s|
  {
    if |s| > 0 {
      ReplaceChar(s[1..], a, b);
      if s[0] == a {
        assert s[..1] == [a];
      } else {
        assert s[..1] != [a];
      }
    }
  }
}

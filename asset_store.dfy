/**
 * download_assets_core.py, the state side: the per-link download decision,
 * the ignore list it grows, the assets already on disk, the walk over the
 * scenario files and the lines appended to the ignore file at the end.
 *
 * The network is an oracle from a URL to a reply; the disk is the set of
 * asset paths that exist. Links are handled one after another, in order.
 */
module AssetStore {
  import opened Base
  import opened PyJson
  import opened AssetLinks

  /** What a GET returns: a status and a body, or a `requests` exception. */
  datatype Reply = Reply(status: int, text: string) | RequestFailed

  type Web = string -> Reply

  /** What happens to one link. */
  datatype Outcome =
    | AlreadyThere  // the destination exists: no request
    | Ignored       // the link is on the ignore list: no request
    | Saved         // 200 with a body that is not an HTML page: the file is written
    | NotFound      // 404: the link joins the ignore list
    | Logged        // any other reply: only logged
    | Dropped       // the request raised; the handler itself then raises, and the worker's error is never read

  /** The decision for one link, from the destination's existence, the ignore list and the reply. */
  function Decide(present: bool, ignored: bool, reply: Reply): (o: Outcome)
    ensures present <==> o == AlreadyThere
    ensures o == Ignored <==> !present && ignored
    ensures o == Saved <==> !present && !ignored && reply.Reply? && reply.status == 200 && !StartsWith(reply.text, "<html>")
    ensures o == NotFound <==> !present && !ignored && reply.Reply? && reply.status == 404
    ensures o == Dropped <==> !present && !ignored && reply.RequestFailed?
  {
    if present then AlreadyThere
    else if ignored then Ignored
    else match reply
      case RequestFailed => Dropped
      case Reply(status, text) =>
        if status == 200 && !StartsWith(text, "<html>") then Saved
        else if status == 404 then NotFound
        else Logged
  }

  /** The part of the world a download changes: the ignore list and the asset files on disk. */
  datatype Store = Store(ignore: seq<string>, files: set<string>)

  /** A link as it is handled: the URL requested (the link without spaces) and the file it is saved to. */
  datatype Target = Target(url: string, dst: string)

  function TargetOf(assetFolder: string, resourceDirectory: string, link: string): Target {
    Target(Despace(link), Dest(assetFolder, resourceDirectory, link))
  }

  /**
   * The targets of a batch of links. A resource directory that is not a
   * string makes every task raise before it does anything, and the raised
   * errors are never read: such a batch does nothing.
   */
  function Batch(assetFolder: string, resourceDirectory: Option<string>, links: seq<string>): (r: seq<Target>)
    ensures resourceDirectory.None? ==> r == []
    ensures resourceDirectory.Some? ==> (|r| == |links|
      && forall i :: 0 <= i < |links| ==> r[i] == TargetOf(assetFolder, resourceDirectory.value, links[i]))
  {
    match resourceDirectory
    case None => []
    case Some(rd) => seq(|links|, i requires 0 <= i < |links| => TargetOf(assetFolder, rd, links[i]))
  }

  /** One link. */
  function Step(web: Web, st: Store, t: Target): Store {
    match Decide(t.dst in st.files, t.url in st.ignore, web(t.url))
    case Saved => st.(files := st.files + {t.dst})
    case NotFound => st.(ignore := st.ignore + [t.url])
    case _ => st
  }

  /** Links one after another. */
  function Steps(web: Web, st: Store, ts: seq<Target>): Store
    decreases |ts|
  {
    if |ts| == 0 then st else Step(web, Steps(web, st, ts[..|ts| - 1]), ts[|ts| - 1])
  }

  /**
   * One link: the ignore list grows by the link exactly when it was not
   * already handled and the server answered 404; a file appears exactly when
   * the server answered 200 with a non-HTML body; nothing else changes, and
   * nothing at all when the destination exists or the link is ignored.
   */
  lemma {:induction false} StepEffect(web: Web, st: Store, t: Target)
    ensures var st' := Step(web, st, t);
      && (st'.ignore == st.ignore + [t.url] <==> t.dst !in st.files && t.url !in st.ignore && web(t.url).Reply? && web(t.url).status == 404)
      && (st'.ignore == st.ignore || st'.ignore == st.ignore + [t.url])
      && ((st'.files == st.files + {t.dst} && t.dst !in st.files)
            <==> (t.url !in st.ignore && t.dst !in st.files && web(t.url).Reply? && web(t.url).status == 200 && !StartsWith(web(t.url).text, "<html>")))
      && (st'.files == st.files || st'.files == st.files + {t.dst})
      && (t.dst in st.files || t.url in st.ignore ==> st' == st)
  {
    assert st.ignore + [t.url] != st.ignore;
  }

  /** The new entries of the ignore list. */
  function Added(before: seq<string>, after: seq<string>): seq<string>
    requires |before| <= |after|
  {
    after[|before|..]
  }

  /**
   * From `before` to `after` the ignore list only grew at its end, files were
   * only added, and each new ignore entry is distinct, was not on the list
   * before, and is a link the server answered with 404. The entries are
   * distinct because links are handled one at a time here; concurrent
   * workers given the same link could both append it.
   */
  predicate Grown(web: Web, before: Store, after: Store) {
    && StartsWith(after.ignore, before.ignore)
    && before.files <= after.files
    && (forall x :: x in Added(before.ignore, after.ignore) ==> x !in before.ignore && web(x).Reply? && web(x).status == 404)
    && (forall i, j :: |before.ignore| <= i < j < |after.ignore| ==> after.ignore[i] != after.ignore[j])
  }

  lemma {:induction false} GrownTrans(web: Web, a: Store, b: Store, c: Store)
    requires Grown(web, a, b) && Grown(web, b, c)
    ensures Grown(web, a, c)
  {
    assert c.ignore[..|a.ignore|] == b.ignore[..|a.ignore|] == a.ignore;
    assert Added(a.ignore, c.ignore) == Added(a.ignore, b.ignore) + Added(b.ignore, c.ignore);
    forall x | x in Added(b.ignore, c.ignore) ensures x !in a.ignore {
      forall k | 0 <= k < |a.ignore| ensures a.ignore[k] != x {
        assert a.ignore[k] == b.ignore[k];
      }
    }
    forall i, j | |a.ignore| <= i < j < |c.ignore| ensures c.ignore[i] != c.ignore[j] {
      if i < |b.ignore| <= j {
        assert c.ignore[i] == b.ignore[i];
        assert c.ignore[j] in Added(b.ignore, c.ignore);
      } else if j < |b.ignore| {
        assert c.ignore[i] == b.ignore[i] && c.ignore[j] == b.ignore[j];
      }
    }
  }

  lemma {:induction false} GrownRefl(web: Web, a: Store)
    ensures Grown(web, a, a)
  {
    assert a.ignore[..|a.ignore|] == a.ignore;
  }

  /** One link grows the store as a batch does; its only possible new ignore entry is its URL. */
  lemma {:induction false} StepGrows(web: Web, st: Store, t: Target)
    ensures Grown(web, st, Step(web, st, t))
    ensures Added(st.ignore, Step(web, st, t).ignore) <= [t.url]
  {
    StepEffect(web, st, t);
    var st' := Step(web, st, t);
    if st'.ignore == st.ignore {
      GrownRefl(web, st);
      assert Added(st.ignore, st'.ignore) == [];
    } else {
      assert st'.ignore[..|st.ignore|] == st.ignore;
      assert Added(st.ignore, st'.ignore) == [t.url];
    }
  }

  function Urls(ts: seq<Target>): (r: seq<string>)
    ensures |r| == |ts| && forall i :: 0 <= i < |ts| ==> r[i] == ts[i].url
  {
    seq(|ts|, i requires 0 <= i < |ts| => ts[i].url)
  }

  /**
   * Over a batch the store grows as `Grown` says, and every new ignore entry
   * is the URL of one of the batch's links.
   */
  lemma {:induction false} StepsGrow(web: Web, st: Store, ts: seq<Target>)
    ensures Grown(web, st, Steps(web, st, ts))
    ensures forall x :: x in Added(st.ignore, Steps(web, st, ts).ignore) ==> x in Urls(ts)
    decreases |ts|
  {
    if |ts| > 0 {
      var init := ts[..|ts| - 1];
      var mid := Steps(web, st, init);
      var st' := Step(web, mid, ts[|ts| - 1]);
      StepsGrow(web, st, init);
      StepGrows(web, mid, ts[|ts| - 1]);
      GrownTrans(web, st, mid, st');
      assert Steps(web, st, ts) == st';
      assert Added(st.ignore, st'.ignore) == Added(st.ignore, mid.ignore) + Added(mid.ignore, st'.ignore);
      forall x | x in Added(st.ignore, st'.ignore) ensures x in Urls(ts) {
        if x in Added(st.ignore, mid.ignore) {
          assert x in Urls(init);
          var k :| 0 <= k < |init| && Urls(init)[k] == x;
          assert Urls(ts)[k] == x;
        } else {
          assert x == ts[|ts| - 1].url;
          assert Urls(ts)[|ts| - 1] == x;
        }
      }
    } else {
      GrownRefl(web, st);
    }
  }

  // ---------------------------------------------------------------------------
  // The walk over the scenario files
  // ---------------------------------------------------------------------------

  /**
   * A file the walk finds: its name, its content as JSON (`None` when it does
   * not parse) and the text of its script file when that file already exists.
   */
  datatype ScenarioFile = ScenarioFile(filename: string, data: Option<Json>, script: Option<string>)

  /** `json.load`: `None` when the text is not JSON. */
  type Parser = string -> Option<Json>

  /** Where the run stands: the store, and whether an exception has ended it. */
  datatype Progress = Progress(st: Store, crashed: bool)

  /**
   * The script text: the existing file, or the download written to it. A
   * refused download skips the scenario (`Ok(None)`); a request that raises
   * ends the run.
   */
  function ScriptText(web: Web, scenarioPath: string, scriptName: string, onDisk: Option<string>): (r: Result<Option<string>>)
    ensures onDisk.Some? ==> r == Ok(onDisk)
    ensures onDisk.None? ==> (r == Ok(None) <==> web(ScenariosBase + scenarioPath).Reply? && web(ScenariosBase + scenarioPath).status != 200)
  {
    match onDisk
    case Some(t) => Ok(Some(t))
    case None =>
      match web(ScenariosBase + scenarioPath)
      case RequestFailed => Raised
      case Reply(status, text) => if status == 200 then Ok(Some(ScriptContent(scriptName, text))) else Ok(None)
  }

  /** The `resource_directory` member: a missing one raises; a value that is not a string gives `None`. */
  function ResourceDir(data: Json): Result<Option<string>> {
    match Index(data, KStr("resource_directory"))
    case Raised => Raised
    case Ok(JStr(rd)) => Ok(Some(rd))
    case Ok(_) => Ok(None)
  }

  /** A legacy `.ks` scenario: the first batch into the asset folder itself, then the sounds into the resource directory. */
  function LegacyStep(assetFolder: string, web: Web, st: Store, f: ScenarioFile, data: Json, scenarioPath: string): Progress {
    match ScriptText(web, scenarioPath, ScriptName(f.filename, ".ks"), f.script)
    case Raised => Progress(st, true)
    case Ok(None) => Progress(st, false)
    case Ok(Some(text)) =>
      var st1 := Steps(web, st, Batch(assetFolder, Some(""), FirstBatch(text)));
      match ResourceDir(data)
      case Raised => Progress(st1, true)
      case Ok(rd) => Progress(Steps(web, st1, Batch(assetFolder, rd, SoundBatch(text, scenarioPath))), false)
  }

  /** An hscene scenario: its JSON script's links into the resource directory. */
  function HsceneStep(assetFolder: string, web: Web, parse: Parser, st: Store, f: ScenarioFile, data: Json, scenarioPath: string): Progress {
    match ScriptText(web, scenarioPath, ScriptName(f.filename, ".json"), f.script)
    case Raised => Progress(st, true)
    case Ok(None) => Progress(st, false)
    case Ok(Some(text)) =>
      match parse(text)
      case None => Progress(st, true)
      case Some(script) =>
        match HsceneLinks(scenarioPath, script)
        case Raised => Progress(st, true)
        case Ok(links) =>
          match ResourceDir(data)
          case Raised => Progress(st, true)
          case Ok(rd) => Progress(Steps(web, st, Batch(assetFolder, rd, links)), false)
  }

  /**
   * One file of the walk: script files are passed by; the scenario path must
   * be a string, and its `.ks` ending chooses the legacy handling.
   */
  function FileStep(assetFolder: string, web: Web, parse: Parser, st: Store, f: ScenarioFile): Progress {
    if Contains(f.filename, "_script") then Progress(st, false)
    else
      match f.data
      case None => Progress(st, true)
      case Some(data) =>
        match Index(data, KStr("scenario_path"))
        case Ok(JStr(scenarioPath)) =>
          if EndsWith(scenarioPath, ".ks") then LegacyStep(assetFolder, web, st, f, data, scenarioPath)
          else HsceneStep(assetFolder, web, parse, st, f, data, scenarioPath)
        case _ => Progress(st, true)
  }

  /** The files in the order the walk lists them, up to the first exception. */
  function Walk(assetFolder: string, web: Web, parse: Parser, st: Store, files: seq<ScenarioFile>): Progress
    decreases |files|
  {
    if |files| == 0 then Progress(st, false)
    else
      var p := Walk(assetFolder, web, parse, st, files[..|files| - 1]);
      if p.crashed then p else FileStep(assetFolder, web, parse, p.st, files[|files| - 1])
  }

  /** The script file a scenario downloads is itself passed by when the walk reaches it. */
  lemma {:induction false} ScriptFilesPassed(assetFolder: string, web: Web, parse: Parser, st: Store, name: string, ext: string,
                                             data: Option<Json>, script: Option<string>)
    ensures FileStep(assetFolder, web, parse, st, ScenarioFile(ScriptName(name, ext), data, script)) == Progress(st, false)
  {
    ScriptNameSkipped(name, ext);
  }

  lemma {:induction false} LegacyStepGrows(assetFolder: string, web: Web, st: Store, f: ScenarioFile, data: Json, sp: string)
    ensures Grown(web, st, LegacyStep(assetFolder, web, st, f, data, sp).st)
  {
    GrownRefl(web, st);
    var text := ScriptText(web, sp, ScriptName(f.filename, ".ks"), f.script);
    if text.Ok? && text.value.Some? {
      var ts1 := Batch(assetFolder, Some(""), FirstBatch(text.value.value));
      var st1 := Steps(web, st, ts1);
      StepsGrow(web, st, ts1);
      var rd := ResourceDir(data);
      if rd.Ok? {
        var ts2 := Batch(assetFolder, rd.value, SoundBatch(text.value.value, sp));
        StepsGrow(web, st1, ts2);
        GrownTrans(web, st, st1, Steps(web, st1, ts2));
      }
    }
  }

  lemma {:induction false} HsceneStepGrows(assetFolder: string, web: Web, parse: Parser, st: Store, f: ScenarioFile, data: Json, sp: string)
    ensures Grown(web, st, HsceneStep(assetFolder, web, parse, st, f, data, sp).st)
  {
    GrownRefl(web, st);
    var text := ScriptText(web, sp, ScriptName(f.filename, ".json"), f.script);
    if text.Ok? && text.value.Some? && parse(text.value.value).Some? {
      var links := HsceneLinks(sp, parse(text.value.value).value);
      var rd := ResourceDir(data);
      if links.Ok? && rd.Ok? {
        StepsGrow(web, st, Batch(assetFolder, rd.value, links.value));
      }
    }
  }

  /** One file grows the store as `Grown` says, whether or not it ends the run. */
  lemma {:induction false} FileStepGrows(assetFolder: string, web: Web, parse: Parser, st: Store, f: ScenarioFile)
    ensures Grown(web, st, FileStep(assetFolder, web, parse, st, f).st)
  {
    GrownRefl(web, st);
    if !Contains(f.filename, "_script") && f.data.Some? {
      var data := f.data.value;
      var sp := Index(data, KStr("scenario_path"));
      if sp.Ok? && sp.value.JStr? {
        LegacyStepGrows(assetFolder, web, st, f, data, sp.value.s);
        HsceneStepGrows(assetFolder, web, parse, st, f, data, sp.value.s);
      }
    }
  }

  /** The whole walk grows the store as `Grown` says, up to its end or its first exception. */
  lemma {:induction false} WalkGrows(assetFolder: string, web: Web, parse: Parser, st: Store, files: seq<ScenarioFile>)
    ensures Grown(web, st, Walk(assetFolder, web, parse, st, files).st)
    decreases |files|
  {
    if |files| == 0 {
      GrownRefl(web, st);
    } else {
      var p := Walk(assetFolder, web, parse, st, files[..|files| - 1]);
      WalkGrows(assetFolder, web, parse, st, files[..|files| - 1]);
      if !p.crashed {
        FileStepGrows(assetFolder, web, parse, p.st, files[|files| - 1]);
        GrownTrans(web, st, p.st, FileStep(assetFolder, web, parse, p.st, files[|files| - 1]).st);
      }
    }
  }

  /** Once a file raises, the walk ends there: the later files change nothing. */
  lemma {:induction false} WalkStopsAtCrash(assetFolder: string, web: Web, parse: Parser, st: Store, files: seq<ScenarioFile>, n: nat)
    requires n <= |files| && Walk(assetFolder, web, parse, st, files[..n]).crashed
    ensures Walk(assetFolder, web, parse, st, files) == Walk(assetFolder, web, parse, st, files[..n])
    decreases |files|
  {
    if n < |files| {
      var init := files[..|files| - 1];
      assert init[..n] == files[..n];
      WalkStopsAtCrash(assetFolder, web, parse, st, init, n);
    } else {
      assert files[..n] == files;
    }
  }

  /** What the run returns: the size of the ignore list, or the exception that ended it. */
  datatype Report = Report(ignored: nat) | Crash

  /**
   * The ignore file after a run, as written: the entries beyond the count
   * read at start-up are appended. (The file is opened only when the list's
   * length differs from that count; when it does not, there is nothing to
   * append anyway.) The file is taken as its lines, so a file without a final
   * newline, or a link that `splitlines()` would break, is not described.
   */
  function AppendNew(ignoreFile: seq<string>, ignore: seq<string>, loaded: nat): seq<string>
    requires loaded <= |ignore|
  {
    ignoreFile + ignore[loaded..]
  }

  /**
   * The start-up count is never moved on, so a second run in the same
   * session appends the first run's new entries again: the ignore file then
   * holds each of them twice.
   */
  lemma {:induction false} SecondRunRepeats(assetFolder: string, web: Web, parse: Parser, st0: Store,
                                            first: seq<ScenarioFile>, second: seq<ScenarioFile>)
    ensures var loaded := |st0.ignore|;
      var p1 := Walk(assetFolder, web, parse, st0, first);
      var p2 := Walk(assetFolder, web, parse, p1.st, second);
      && loaded <= |p1.st.ignore| <= |p2.st.ignore|
      && var added := p1.st.ignore[loaded..];
         var file2 := AppendNew(AppendNew(st0.ignore, p1.st.ignore, loaded), p2.st.ignore, loaded);
         && loaded + 2 * |added| <= |file2|
         && file2[loaded..loaded + |added|] == added
         && file2[loaded + |added|..loaded + 2 * |added|] == added
  {
    var loaded := |st0.ignore|;
    var p1 := Walk(assetFolder, web, parse, st0, first);
    var p2 := Walk(assetFolder, web, parse, p1.st, second);
    WalkGrows(assetFolder, web, parse, st0, first);
    WalkGrows(assetFolder, web, parse, p1.st, second);
    var added := p1.st.ignore[loaded..];
    var file1 := AppendNew(st0.ignore, p1.st.ignore, loaded);
    assert file1 == st0.ignore + added;
    assert p2.st.ignore[loaded..][..|added|] == added by {
      assert p2.st.ignore[..|p1.st.ignore|] == p1.st.ignore;
    }
    var file2 := file1 + p2.st.ignore[loaded..];
    assert file2[loaded..loaded + |added|] == added;
    assert file2[loaded + |added|..loaded + 2 * |added|] == p2.st.ignore[loaded..][..|added|];
  }

  /**
   * With the count moved on to the list's length after each write, two runs
   * leave the ignore file equal to the list, and every line the runs added
   * is new to the file and appears once, with links handled one at a time.
   */
  lemma {:induction false} SecondRunOnce(assetFolder: string, web: Web, parse: Parser, st0: Store,
                                         first: seq<ScenarioFile>, second: seq<ScenarioFile>)
    ensures var p1 := Walk(assetFolder, web, parse, st0, first);
      var p2 := Walk(assetFolder, web, parse, p1.st, second);
      && |st0.ignore| <= |p1.st.ignore| <= |p2.st.ignore|
      && var file2 := AppendNew(AppendNew(st0.ignore, p1.st.ignore, |st0.ignore|), p2.st.ignore, |p1.st.ignore|);
         && file2 == p2.st.ignore
         && (forall i :: |st0.ignore| <= i < |file2| ==> file2[i] !in st0.ignore)
         && (forall i, j :: |st0.ignore| <= i < j < |file2| ==> file2[i] != file2[j])
  {
    var p1 := Walk(assetFolder, web, parse, st0, first);
    var p2 := Walk(assetFolder, web, parse, p1.st, second);
    WalkGrows(assetFolder, web, parse, st0, first);
    WalkGrows(assetFolder, web, parse, p1.st, second);
    GrownTrans(web, st0, p1.st, p2.st);
    var file2 := AppendNew(AppendNew(st0.ignore, p1.st.ignore, |st0.ignore|), p2.st.ignore, |p1.st.ignore|);
    assert AppendNew(st0.ignore, p1.st.ignore, |st0.ignore|) == p1.st.ignore by {
      assert p1.st.ignore[..|st0.ignore|] == st0.ignore;
    }
    assert file2 == p2.st.ignore by {
      assert p2.st.ignore[..|p1.st.ignore|] == p1.st.ignore;
    }
    forall i | |st0.ignore| <= i < |file2| ensures file2[i] !in st0.ignore {
      assert file2[i] in Added(st0.ignore, p2.st.ignore) by {
        assert Added(st0.ignore, p2.st.ignore)[i - |st0.ignore|] == file2[i];
      }
    }
  }

  /**
   * The ignore list and the asset files, with the ignore file's lines and
   * `loaded`, the count of entries the file is known to hold.
   */
  class Downloader {
    var ignore: seq<string>
    var files: set<string>
    var ignoreFile: seq<string>
    var loaded: nat
    const assetFolder: string

    predicate Valid()
      reads this
    {
      loaded <= |ignore|
    }

    /** The ignore file holds exactly the list's first `loaded` entries. */
    predicate Synced()
      reads this
    {
      loaded <= |ignore| && ignoreFile == ignore[..loaded]
    }

    function Snapshot(): Store
      reads this
    {
      Store(ignore, files)
    }

    /** Start-up: the ignore file's lines (none when it does not exist) and the assets already on disk. */
    constructor (ignoreFileLines: seq<string>, existing: set<string>, assetFolder: string)
      ensures Valid() && Synced()
      ensures ignore == ignoreFileLines && ignoreFile == ignoreFileLines && loaded == |ignoreFileLines| && files == existing
      ensures this.assetFolder == assetFolder
    {
      ignore := ignoreFileLines;
      files := existing;
      ignoreFile := ignoreFileLines;
      loaded := |ignoreFileLines|;
      this.assetFolder := assetFolder;
      assert ignoreFileLines[..|ignoreFileLines|] == ignoreFileLines;
    }

    /** One link: decide, then save the file or extend the ignore list. */
    method DownloadAsset(web: Web, resourceDirectory: string, link: string) returns (o: Outcome)
      requires Valid()
      modifies this
      ensures Valid() && ignoreFile == old(ignoreFile) && loaded == old(loaded)
      ensures Snapshot() == Step(web, old(Snapshot()), TargetOf(assetFolder, resourceDirectory, link))
      ensures o == Decide(old(Dest(assetFolder, resourceDirectory, link) in files), old(Despace(link) in ignore), web(Despace(link)))
    {
      var l := Despace(link);
      var dst := Dest(assetFolder, resourceDirectory, link);
      o := Decide(dst in files, l in ignore, web(l));
      if o == Saved {
        files := files + {dst};
      } else if o == NotFound {
        ignore := ignore + [l];
      }
    }

    /** A batch of links, one after another. */
    method DownloadAssets(web: Web, resourceDirectory: Option<string>, links: seq<string>)
      requires Valid()
      modifies this
      ensures Valid() && ignoreFile == old(ignoreFile) && loaded == old(loaded)
      ensures Snapshot() == Steps(web, old(Snapshot()), Batch(assetFolder, resourceDirectory, links))
    {
      if resourceDirectory.None? {
        return;
      }
      ghost var ts := Batch(assetFolder, resourceDirectory, links);
      var i := 0;
      while i < |links|
        invariant 0 <= i <= |links| && Valid()
        invariant ignoreFile == old(ignoreFile) && loaded == old(loaded)
        invariant Snapshot() == Steps(web, old(Snapshot()), ts[..i])
      {
        assert ts[..i + 1][..i] == ts[..i];
        var _ := DownloadAsset(web, resourceDirectory.value, links[i]);
        i := i + 1;
      }
      assert ts[..i] == ts;
    }

    /** The script text of a scenario: read from disk, or downloaded (and cleaned for JSON) first. */
    method FetchScript(web: Web, scenarioPath: string, scriptName: string, onDisk: Option<string>) returns (r: Result<Option<string>>)
      ensures r == ScriptText(web, scenarioPath, scriptName, onDisk)
    {
      if onDisk.Some? {
        return Ok(onDisk);
      }
      var reply := web(ScenariosBase + scenarioPath);
      if reply.RequestFailed? {
        return Raised;
      }
      if reply.status != 200 {
        return Ok(None);
      }
      r := Ok(Some(ScriptContent(scriptName, reply.text)));
    }

    /** A legacy scenario. */
    method DownloadLegacy(web: Web, f: ScenarioFile, data: Json, scenarioPath: string) returns (crashed: bool)
      requires Valid()
      modifies this
      ensures Valid() && ignoreFile == old(ignoreFile) && loaded == old(loaded)
      ensures Progress(Snapshot(), crashed) == LegacyStep(assetFolder, web, old(Snapshot()), f, data, scenarioPath)
    {
      var text := FetchScript(web, scenarioPath, ScriptName(f.filename, ".ks"), f.script);
      if text.Raised? {
        return true;
      }
      if text.value.None? {
        return false;
      }
      var first, sound := CollectLegacyLinks(text.value.value, scenarioPath);
      DownloadAssets(web, Some(""), first);
      var rd := ResourceDir(data);
      if rd.Raised? {
        return true;
      }
      DownloadAssets(web, rd.value, sound);
      crashed := false;
    }

    /** An hscene scenario. */
    method DownloadHscene(web: Web, parse: Parser, f: ScenarioFile, data: Json, scenarioPath: string) returns (crashed: bool)
      requires Valid()
      modifies this
      ensures Valid() && ignoreFile == old(ignoreFile) && loaded == old(loaded)
      ensures Progress(Snapshot(), crashed) == HsceneStep(assetFolder, web, parse, old(Snapshot()), f, data, scenarioPath)
    {
      var text := FetchScript(web, scenarioPath, ScriptName(f.filename, ".json"), f.script);
      if text.Raised? {
        return true;
      }
      if text.value.None? {
        return false;
      }
      var script := parse(text.value.value);
      if script.None? {
        return true;
      }
      var links := CollectHsceneLinks(scenarioPath, script.value);
      if links.Raised? {
        return true;
      }
      var rd := ResourceDir(data);
      if rd.Raised? {
        return true;
      }
      DownloadAssets(web, rd.value, links.value);
      crashed := false;
    }

    /** One file of the walk. */
    method DownloadFile(web: Web, parse: Parser, f: ScenarioFile) returns (crashed: bool)
      requires Valid()
      modifies this
      ensures Valid() && ignoreFile == old(ignoreFile) && loaded == old(loaded)
      ensures Progress(Snapshot(), crashed) == FileStep(assetFolder, web, parse, old(Snapshot()), f)
    {
      if Contains(f.filename, "_script") {
        return false;
      }
      if f.data.None? {
        return true;
      }
      var sp := Index(f.data.value, KStr("scenario_path"));
      if !(sp.Ok? && sp.value.JStr?) {
        return true;
      }
      if EndsWith(sp.value.s, ".ks") {
        crashed := DownloadLegacy(web, f, f.data.value, sp.value.s);
      } else {
        crashed := DownloadHscene(web, parse, f, f.data.value, sp.value.s);
      }
    }

    /** The files in order, up to the first one that raises. */
    method DownloadFiles(web: Web, parse: Parser, scenarioFiles: seq<ScenarioFile>) returns (crashed: bool)
      requires Valid()
      modifies this
      ensures Valid() && ignoreFile == old(ignoreFile) && loaded == old(loaded)
      ensures Progress(Snapshot(), crashed) == Walk(assetFolder, web, parse, old(Snapshot()), scenarioFiles)
    {
      var i := 0;
      crashed := false;
      while i < |scenarioFiles|
        invariant 0 <= i <= |scenarioFiles| && Valid()
        invariant ignoreFile == old(ignoreFile) && loaded == old(loaded)
        invariant Progress(Snapshot(), false) == Walk(assetFolder, web, parse, old(Snapshot()), scenarioFiles[..i])
      {
        assert scenarioFiles[..i + 1][..i] == scenarioFiles[..i];
        crashed := DownloadFile(web, parse, scenarioFiles[i]);
        if crashed {
          WalkStopsAtCrash(assetFolder, web, parse, old(Snapshot()), scenarioFiles, i + 1);
          return;
        }
        i := i + 1;
      }
      assert scenarioFiles[..i] == scenarioFiles;
    }

    /**
     * The run as written: walk the files, then append the new ignore entries
     * beyond the start-up count, which stays where it was.
     */
    method RunAsWritten(web: Web, parse: Parser, scenarioFiles: seq<ScenarioFile>) returns (r: Report)
      requires Valid()
      modifies this
      ensures Valid() && loaded == old(loaded)
      ensures var p := Walk(assetFolder, web, parse, old(Snapshot()), scenarioFiles);
        && Snapshot() == p.st
        && (p.crashed ==> r == Crash && ignoreFile == old(ignoreFile))
        && (!p.crashed ==> r == Report(|ignore|) && ignoreFile == AppendNew(old(ignoreFile), ignore, loaded))
    {
      var crashed := DownloadFiles(web, parse, scenarioFiles);
      if crashed {
        return Crash;
      }
      if |ignore| != loaded {
        ignoreFile := ignoreFile + ignore[loaded..];
      }
      r := Report(|ignore|);
    }

    /**
     * The run with the count moved on after each write: the ignore file then
     * always holds the list's first `loaded` entries, and after a run that
     * completes it holds the whole list, each new entry once when links
     * are handled one at a time.
     */
    method Run(web: Web, parse: Parser, scenarioFiles: seq<ScenarioFile>) returns (r: Report)
      requires Valid() && Synced()
      modifies this
      ensures Valid() && Synced()
      ensures var p := Walk(assetFolder, web, parse, old(Snapshot()), scenarioFiles);
        && Snapshot() == p.st
        && (p.crashed ==> r == Crash && ignoreFile == old(ignoreFile) && loaded == old(loaded))
        && (!p.crashed ==> r == Report(|ignore|) && ignoreFile == ignore && loaded == |ignore|)
    {
      var crashed := DownloadFiles(web, parse, scenarioFiles);
      WalkGrows(assetFolder, web, parse, old(Snapshot()), scenarioFiles);
      assert ignore[..loaded] == old(ignore)[..loaded];
      if crashed {
        return Crash;
      }
      if |ignore| != loaded {
        ignoreFile := ignoreFile + ignore[loaded..];
        loaded := |ignore|;
      }
      assert ignore[..|ignore|] == ignore;
      r := Report(|ignore|);
    }
  }
}

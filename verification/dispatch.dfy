/** The actions of one run: the bulk import phase, then the per-item loop over the
    matched integrations, each item taking at most one of activate, deactivate or
    export, optionally followed by a delete. Requests are recorded in a log and
    answered by an oracle; the disk is a map from paths to contents. */
module Dispatch {
  import opened Values
  import opened Pattern
  import opened Matcher
  import opened Links
  import opened ExportFiles

  /** The options of the command line the actions depend on. */
  datatype Config = Config(
    arg: string,          // the positional argument; `--add` also uploads the file it names
    exportDir: Path,
    importDir: Path,
    doExport: bool,
    add: bool,
    replace: bool,
    delete: bool,
    activate: bool,
    deactivate: bool,
    list: bool)

  const Activated: string := "ACTIVATED"
  const Configured: string := "CONFIGURED"
  const Ok200: int := 200
  const NoContent204: int := 204

  /** The requests the script sends after fetching the integrations. */
  datatype Request =
    | ImportAdd(file: Path)                     // POST <integrations>/archive, multipart upload
    | ImportReplace(file: Path)                 // PUT <integrations>/archive, multipart upload
    | SetStatus(href: string, status: string)   // POST <href> overridden to PATCH, body {"status": ..}
    | Download(url: string)                     // GET <href>/archive
    | Remove(href: string)                      // DELETE <href>

  datatype Response = Response(code: int, body: Bytes)

  /** Everything outside the script: the regex engine, the server (answering the n-th
      request of the run) and the disk's failures (for the export fetched by the n-th
      request). */
  datatype Env = Env(
    search: Search,
    perform: (nat, Request) -> Response,
    writeFault: nat -> WriteFault)

  /** The requests sent so far, the disk, and whether the global `filename` has been
      assigned yet (by an upload, or by an export that got past creating its directory). */
  datatype State = State(log: seq<Request>, fs: FileSystem, nameBound: bool)

  /** How handling one item ends: on to the next item, or an uncaught exception that
      ends the run. */
  datatype Step = Next(st: State) | Crash(st: State, fault: Fault)

  function Issue(st: State, req: Request): State
  {
    st.(log := st.log + [req])
  }

  function Answer(env: Env, st: State, req: Request): Response
  {
    env.perform(|st.log|, req)
  }

  /** `links['href']` used as a URL: missing (KeyError) or not a string (TypeError). */
  function UrlOf(href: Option<Json>): Result<string>
  {
    match href
    case None => Err(MissingKey("href"))
    case Some(JStr(s)) => Ok(s)
    case Some(_) => Err(NotText("href"))
  }

  /** Where the export of `item` is written. */
  function ArchivePath(cfg: Config, item: Item): Path
    requires "code" in item && "version" in item
  {
    Join(cfg.exportDir, ArchiveName(Render(item["code"]), Render(item["version"])))
  }

  /** The trailing delete, reached only when no earlier branch skipped the item. */
  function DeleteStep(cfg: Config, href: Option<Json>, st: State): Step
  {
    if !cfg.delete then Next(st)
    else
      match UrlOf(href)
      case Err(f) => Crash(st, f)
      case Ok(h) => Next(Issue(st, Remove(h)))
  }

  /** Activating or deactivating: a failed request skips the rest of the item. */
  function ChangeStatus(cfg: Config, href: Option<Json>, status: string, st: State, env: Env): Step
  {
    match UrlOf(href)
    case Err(f) => Crash(st, f)
    case Ok(h) =>
      var req := SetStatus(h, status);
      if Answer(env, st, req).code != Ok200 then Next(Issue(st, req))
      else DeleteStep(cfg, href, Issue(st, req))
  }

  /** Exporting: download the archive, then rotate and write it; a failed download or
      an I/O error skips the rest of the item. The handler for the I/O error names the
      global `filename`, which the export assigns only after creating its directory: a
      failure there, before any upload or earlier export assigned it, raises NameError. */
  function ExportStep(cfg: Config, href: Option<Json>, path: Path, st: State, env: Env): Step
  {
    match UrlOf(href)
    case Err(f) => Crash(st, f)
    case Ok(h) =>
      var req := Download(h + "/archive");
      var resp := Answer(env, st, req);
      var fetched := Issue(st, req);
      if resp.code != Ok200 then Next(fetched)
      else
        var fault := env.writeFault(|st.log|);
        if fault == AtMakedirs then
          if st.nameBound then Next(fetched) else Crash(fetched, Unbound("filename"))
        else
          var saved := State(fetched.log, Save(st.fs, path, resp.body, fault), true);
          if fault != NoFault then Next(saved) else DeleteStep(cfg, href, saved)
  }

  /** The export as its error handler evidently means it: every I/O error skips the
      item, whether or not `filename` was assigned before. */
  function ExportStepIntended(cfg: Config, href: Option<Json>, path: Path, st: State, env: Env): (step: Step)
    ensures UrlOf(href).Ok? ==> step.Next?
    ensures UrlOf(href).Ok? && Answer(env, st, Download(UrlOf(href).value + "/archive")).code == Ok200 &&
            env.writeFault(|st.log|) != NoFault ==>
      step.st.log == st.log + [Download(UrlOf(href).value + "/archive")]
    ensures st.nameBound ==> step == ExportStep(cfg, href, path, st, env)
  {
    match UrlOf(href)
    case Err(f) => Crash(st, f)
    case Ok(h) =>
      var req := Download(h + "/archive");
      var resp := Answer(env, st, req);
      var fetched := Issue(st, req);
      if resp.code != Ok200 then Next(fetched)
      else
        var fault := env.writeFault(|st.log|);
        if fault == AtMakedirs then Next(fetched)
        else
          var saved := State(fetched.log, Save(st.fs, path, resp.body, fault), true);
          if fault != NoFault then Next(saved) else DeleteStep(cfg, href, saved)
  }

  /** One pass of the per-item loop. */
  function ItemStep(cfg: Config, item: Item, st: State, env: Env): Step
  {
    if "name" !in item then Crash(st, MissingKey("name"))
    else if "code" !in item then Crash(st, MissingKey("code"))
    else if "version" !in item then Crash(st, MissingKey("version"))
    else if "links" !in item then Crash(st, MissingKey("links"))
    else
      var href := HrefOf(item["links"]);
      if cfg.list then
        if "status" in item then Next(st) else Crash(st, MissingKey("status"))
      else if cfg.activate then ChangeStatus(cfg, href, Activated, st, env)
      else if "status" !in item then Crash(st, MissingKey("status"))
      else if item["status"] == JStr(Activated) && (cfg.deactivate || cfg.delete) then
        ChangeStatus(cfg, href, Configured, st, env)
      else if cfg.doExport then ExportStep(cfg, href, ArchivePath(cfg, item), st, env)
      else DeleteStep(cfg, href, st)
  }

  /** The per-item loop over `items`, stopping at the first crash. */
  function RunItems(cfg: Config, items: seq<Item>, st: State, env: Env): Step
  {
    if items == [] then Next(st)
    else
      match RunItems(cfg, items[..|items| - 1], st, env)
      case Crash(s, f) => Crash(s, f)
      case Next(s) => ItemStep(cfg, items[|items| - 1], s, env)
  }

  /** The bulk phase: how its two uploads were judged (None when not requested). */
  datatype BulkResult = BulkResult(st: State, added: Option<bool>, replaced: Option<bool>)

  function ReplacePath(cfg: Config): Path
  {
    Join(cfg.importDir, ReplaceArchive)
  }

  function Bulk(cfg: Config, st: State, env: Env): BulkResult
  {
    var addReq := ImportAdd(cfg.arg);
    var st1 := if cfg.add then Issue(st, addReq).(nameBound := true) else st;
    var added := if cfg.add then Some(Answer(env, st, addReq).code == NoContent204) else None;
    var replaceReq := ImportReplace(ReplacePath(cfg));
    var st2 := if cfg.replace then Issue(st1, replaceReq).(nameBound := true) else st1;
    var replaced := if cfg.replace then Some(Answer(env, st1, replaceReq).code == Ok200) else None;
    BulkResult(st2, added, replaced)
  }

  /** What a whole run leaves behind: the requests sent, the disk, the judgement of the
      bulk uploads, and the exception that ended it early, if any. */
  datatype RunResult = RunResult(st: State, added: Option<bool>, replaced: Option<bool>, crash: Option<Fault>)

  function Run(cfg: Config, items: seq<Item>, fs: FileSystem, env: Env): RunResult
  {
    var target := Resolve(cfg.arg);
    match Select(items, target.field, target.pattern, env.search)
    case Err(f) => RunResult(State([], fs, false), None, None, Some(f))
    case Ok(matched) =>
      var bulk := Bulk(cfg, State([], fs, false), env);
      match RunItems(cfg, matched, bulk.st, env)
      case Next(s) => RunResult(s, bulk.added, bulk.replaced, None)
      case Crash(s, f) => RunResult(s, bulk.added, bulk.replaced, Some(f))
  }

  /** The delete at the end of an item's pass. */
  method DeleteItem(cfg: Config, href: Option<Json>, st: State) returns (step: Step)
    ensures step == DeleteStep(cfg, href, st)
  {
    if !cfg.delete {
      return Next(st);
    }
    var url := UrlOf(href);
    if url.Err? {
      return Crash(st, url.fault);
    }
    step := Next(st.(log := st.log + [Remove(url.value)]));
  }

  /** One pass of the per-item loop, branch for branch as the script does it. */
  method DispatchItem(cfg: Config, item: Item, st: State, env: Env) returns (step: Step)
    ensures step == ItemStep(cfg, item, st, env)
  {
    var log, fs, bound := st.log, st.fs, st.nameBound;
    if "name" !in item { return Crash(st, MissingKey("name")); }
    if "code" !in item { return Crash(st, MissingKey("code")); }
    if "version" !in item { return Crash(st, MissingKey("version")); }
    var objfile := ArchiveName(Render(item["code"]), Render(item["version"]));
    if "links" !in item { return Crash(st, MissingKey("links")); }
    var href := ExtractHref(item["links"]);
    if cfg.list {
      if "status" !in item { return Crash(st, MissingKey("status")); }
      return Next(st);
    } else if cfg.activate || ("status" in item && item["status"] == JStr(Activated) && (cfg.deactivate || cfg.delete)) {
      var status := if cfg.activate then Activated else Configured;
      var url := UrlOf(href);
      if url.Err? { return Crash(st, url.fault); }
      var req := SetStatus(url.value, status);
      var resp := env.perform(|log|, req);
      log := log + [req];
      if resp.code != Ok200 {
        return Next(State(log, fs, bound));
      }
    } else if "status" !in item {
      return Crash(st, MissingKey("status"));
    } else if cfg.doExport {
      var url := UrlOf(href);
      if url.Err? { return Crash(st, url.fault); }
      var req := Download(url.value + "/archive");
      var resp := env.perform(|log|, req);
      var fault := env.writeFault(|log|);
      log := log + [req];
      if resp.code != Ok200 {
        return Next(State(log, fs, bound));
      }
      if fault == AtMakedirs {
        if !bound {
          return Crash(State(log, fs, bound), Unbound("filename"));
        }
        return Next(State(log, fs, bound));
      }
      var path := Join(cfg.exportDir, objfile);
      bound := true;
      if fault == AtRename {
        return Next(State(log, fs, bound));
      }
      if path in fs {
        fs := (fs - {path})[BackupPath(path) := fs[path]];
      }
      if fault == AtOpen {
        return Next(State(log, fs, bound));
      }
      fs := fs[path := resp.body];
    }
    step := DeleteItem(cfg, href, State(log, fs, bound));
  }

  /** The per-item loop. */
  method DispatchAll(cfg: Config, items: seq<Item>, st: State, env: Env) returns (step: Step)
    ensures step == RunItems(cfg, items, st, env)
  {
    var cur := st;
    var i := 0;
    while i < |items|
      invariant 0 <= i <= |items|
      invariant RunItems(cfg, items[..i], st, env) == Next(cur)
    {
      assert items[..i + 1][..i] == items[..i];
      var s := DispatchItem(cfg, items[i], cur, env);
      if s.Crash? {
        RunItemsCrashExtends(cfg, items, i + 1, st, env);
        return s;
      }
      cur := s.st;
      i := i + 1;
    }
    assert items[..i] == items;
    step := Next(cur);
  }

  /** Once the loop has crashed on a prefix, the rest of the items are never handled. */
  lemma {:induction false} RunItemsCrashExtends(cfg: Config, items: seq<Item>, n: nat, st: State, env: Env)
    requires n <= |items|
    requires RunItems(cfg, items[..n], st, env).Crash?
    ensures RunItems(cfg, items, st, env) == RunItems(cfg, items[..n], st, env)
    decreases |items| - n
  {
    if n < |items| {
      assert items[..n + 1][..n] == items[..n];
      RunItemsCrashExtends(cfg, items, n + 1, st, env);
    } else {
      assert items[..n] == items;
    }
  }

  /** The bulk phase: add, then replace, each at most once. */
  method RunBulk(cfg: Config, st: State, env: Env) returns (r: BulkResult)
    ensures r == Bulk(cfg, st, env)
  {
    var log, bound := st.log, st.nameBound;
    var added: Option<bool> := None;
    var replaced: Option<bool> := None;
    if cfg.add {
      var req := ImportAdd(cfg.arg);
      var resp := env.perform(|log|, req);
      log := log + [req];
      bound := true;
      added := Some(resp.code == NoContent204);
    }
    if cfg.replace {
      var req := ImportReplace(Join(cfg.importDir, ReplaceArchive));
      var resp := env.perform(|log|, req);
      log := log + [req];
      bound := true;
      replaced := Some(resp.code == Ok200);
    }
    r := BulkResult(State(log, st.fs, bound), added, replaced);
  }

  /** The whole script after argument parsing and the initial fetch. */
  method RunScript(cfg: Config, items: seq<Item>, fs: FileSystem, env: Env) returns (r: RunResult)
    ensures r == Run(cfg, items, fs, env)
  {
    var target := Resolve(cfg.arg);
    var matched := FindMatches(items, target.field, target.pattern, env.search);
    if matched.Err? {
      return RunResult(State([], fs, false), None, None, Some(matched.fault));
    }
    var bulk := RunBulk(cfg, State([], fs, false), env);
    var step := DispatchAll(cfg, matched.value, bulk.st, env);
    r := RunResult(step.st, bulk.added, bulk.replaced,
                   if step.Crash? then Some(step.fault) else None);
  }
}

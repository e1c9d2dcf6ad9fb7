/** What the per-item loop and the whole run guarantee, proved about their
    specifications in module Dispatch. */
module DispatchProps {
  import opened Values
  import opened Pattern
  import opened Matcher
  import opened Links
  import opened ExportFiles
  import opened Dispatch

  /** Activate, deactivate and export: the requests that change an integration or the disk. */
  predicate IsBranchRequest(r: Request)
  {
    r.SetStatus? || r.Download?
  }

  /** The requests `step` added after those already in `st`. */
  function Added(st: State, step: Step): seq<Request>
  {
    if |st.log| <= |step.st.log| then step.st.log[|st.log|..] else []
  }

  /** The fields every pass reads before it sends anything. */
  predicate WellFormed(item: Item)
  {
    "name" in item && "code" in item && "version" in item && "links" in item && "status" in item
  }

  /** The item's status is ACTIVATED and a deactivate or delete was asked for. */
  predicate MustDeactivate(cfg: Config, item: Item)
  {
    "status" in item && item["status"] == JStr(Activated) && (cfg.deactivate || cfg.delete)
  }

  /** A branch request counts as done: answered 200 and, for an export, written to disk. */
  predicate Succeeded(env: Env, n: nat, r: Request)
  {
    env.perform(n, r).code == Ok200 && (r.Download? ==> env.writeFault(n) == NoFault)
  }

  /** One pass only appends to the log, and appends at most one branch request followed
      at most by one delete; it never uploads. */
  lemma ItemStepShape(cfg: Config, item: Item, st: State, env: Env)
    ensures var step := ItemStep(cfg, item, st, env);
      var added := Added(st, step);
      && step.st.log == st.log + added
      && |added| <= 2
      && (|added| == 2 ==> IsBranchRequest(added[0]) && added[1].Remove?)
      && (|added| == 1 ==> IsBranchRequest(added[0]) || added[0].Remove?)
  {
  }

  /** With --list set, no request is sent for any item and the disk is left alone. */
  lemma {:induction false} ListSendsNothing(cfg: Config, items: seq<Item>, st: State, env: Env)
    requires cfg.list
    ensures RunItems(cfg, items, st, env).st == st
  {
    if items != [] {
      ListSendsNothing(cfg, items[..|items| - 1], st, env);
    }
  }

  /** The branch precedence: activate, then deactivate an ACTIVATED item when deactivate
      or delete was asked for, then export, and every request uses the item's own href. */
  lemma Precedence(cfg: Config, item: Item, st: State, env: Env, h: string)
    requires WellFormed(item) && !cfg.list
    requires UrlOf(HrefOf(item["links"])) == Ok(h)
    ensures var added := Added(st, ItemStep(cfg, item, st, env));
      && (cfg.activate ==> added[0] == SetStatus(h, Activated))
      && (!cfg.activate && MustDeactivate(cfg, item) ==> added[0] == SetStatus(h, Configured))
      && (!cfg.activate && !MustDeactivate(cfg, item) && cfg.doExport ==>
            added[0] == Download(h + "/archive"))
      && (!cfg.activate && !MustDeactivate(cfg, item) && !cfg.doExport ==>
            added == if cfg.delete then [Remove(h)] else [])
      && forall r :: r in added ==>
           r == SetStatus(h, Activated) || r == SetStatus(h, Configured) ||
           r == Download(h + "/archive") || r == Remove(h)
  {
  }

  /** An ACTIVATED item with export and delete asked for is deactivated, not exported. */
  lemma ActivatedItemIsNotExported(cfg: Config, item: Item, st: State, env: Env)
    requires WellFormed(item) && item["status"] == JStr(Activated)
    requires cfg.doExport && cfg.delete && !cfg.activate && !cfg.list
    ensures forall r :: r in Added(st, ItemStep(cfg, item, st, env)) ==> !r.Download?
  {
  }

  /** The delete is sent exactly when delete was asked for, --list was not, and the branch
      request before it, if any, succeeded. */
  lemma DeleteOnlyAfterSuccess(cfg: Config, item: Item, st: State, env: Env)
    requires ItemStep(cfg, item, st, env).Next?
    ensures var added := Added(st, ItemStep(cfg, item, st, env));
      (|added| > 0 && added[|added| - 1].Remove?) <==>
        (cfg.delete && !cfg.list &&
         (|added| > 0 && IsBranchRequest(added[0]) ==> Succeeded(env, |st.log|, added[0])))
  {
  }

  /** An item without an href gets no request: the pass either needs none or ends the
      run with the KeyError; the href of an earlier item is never used. */
  lemma NoHrefNoRequest(cfg: Config, item: Item, st: State, env: Env)
    requires WellFormed(item) && HrefOf(item["links"]).None?
    ensures ItemStep(cfg, item, st, env).st == st
    ensures ItemStep(cfg, item, st, env).Crash? <==>
      !cfg.list && (cfg.activate || MustDeactivate(cfg, item) || cfg.doExport || cfg.delete)
    ensures ItemStep(cfg, item, st, env).Crash? ==>
      ItemStep(cfg, item, st, env).fault == MissingKey("href")
  {
  }

  /** A pass touches the disk only by exporting its own archive: after a successful
      download the disk is the rotation of the downloaded bytes into the archive path,
      and otherwise it is unchanged. */
  lemma ItemDiskEffect(cfg: Config, item: Item, st: State, env: Env)
    ensures var step := ItemStep(cfg, item, st, env);
      var added := Added(st, step);
      if |added| > 0 && added[0].Download? && env.perform(|st.log|, added[0]).code == Ok200 then
        "code" in item && "version" in item &&
        step.st.fs == Save(st.fs, ArchivePath(cfg, item), env.perform(|st.log|, added[0]).body,
                           env.writeFault(|st.log|))
      else step.st.fs == st.fs
  {
  }

  /** No upload among `reqs`. */
  predicate NoUploads(reqs: seq<Request>)
  {
    forall k :: 0 <= k < |reqs| ==> !reqs[k].ImportAdd? && !reqs[k].ImportReplace?
  }

  lemma ItemStepNoUploads(cfg: Config, item: Item, st: State, env: Env)
    ensures var step := ItemStep(cfg, item, st, env);
      step.st.log == st.log + Added(st, step) && NoUploads(Added(st, step))
  {
  }

  lemma ExtendNoUploads(base: seq<Request>, mid: seq<Request>, added: seq<Request>)
    requires |base| <= |mid| && mid[..|base|] == base && NoUploads(mid[|base|..])
    requires NoUploads(added)
    ensures |base| <= |mid + added| && (mid + added)[..|base|] == base
    ensures NoUploads((mid + added)[|base|..])
  {
    assert (mid + added)[|base|..] == mid[|base|..] + added;
  }

  /** The loop only appends, and never uploads. */
  lemma {:induction false} RunItemsAppends(cfg: Config, items: seq<Item>, st: State, env: Env)
    ensures var s := RunItems(cfg, items, st, env).st;
      |st.log| <= |s.log| && s.log[..|st.log|] == st.log && NoUploads(s.log[|st.log|..])
  {
    if items != [] {
      var init := items[..|items| - 1];
      RunItemsAppends(cfg, init, st, env);
      var prev := RunItems(cfg, init, st, env);
      if prev.Next? {
        var s := prev.st;
        var step := ItemStep(cfg, items[|items| - 1], s, env);
        assert RunItems(cfg, items, st, env) == step;
        ItemStepNoUploads(cfg, items[|items| - 1], s, env);
        ExtendNoUploads(st.log, s.log, Added(s, step));
      }
    }
  }

  /** The uploads a run sends, in order: add, then replace. */
  function BulkRequests(cfg: Config): seq<Request>
  {
    (if cfg.add then [ImportAdd(cfg.arg)] else []) +
    (if cfg.replace then [ImportReplace(ReplacePath(cfg))] else [])
  }

  /** A run that gets past the matcher sends the uploads first, each at most once, and
      judges add by 204 and replace by 200; every later request is a per-item one. */
  lemma BulkComesFirst(cfg: Config, items: seq<Item>, fs: FileSystem, env: Env)
    requires Select(items, Resolve(cfg.arg).field, Resolve(cfg.arg).pattern, env.search).Ok?
    ensures var r := Run(cfg, items, fs, env);
      var n := |BulkRequests(cfg)|;
      && n <= |r.st.log| && r.st.log[..n] == BulkRequests(cfg)
      && NoUploads(r.st.log[n..])
      && r.added == (if cfg.add then Some(env.perform(0, ImportAdd(cfg.arg)).code == 204) else None)
      && r.replaced == (if cfg.replace
                        then Some(env.perform(if cfg.add then 1 else 0, ImportReplace(ReplacePath(cfg))).code == 200)
                        else None)
  {
    var t := Resolve(cfg.arg);
    var matched := Select(items, t.field, t.pattern, env.search).value;
    var bulk := Bulk(cfg, State([], fs, false), env);
    assert bulk.st.log == BulkRequests(cfg);
    RunItemsAppends(cfg, matched, bulk.st, env);
  }

  /** With --list set, a run sends nothing but the uploads, and sends even those only
      when the matcher succeeds; the disk is left alone. */
  lemma ListRunSendsOnlyUploads(cfg: Config, items: seq<Item>, fs: FileSystem, env: Env)
    requires cfg.list
    ensures Run(cfg, items, fs, env).st.fs == fs
    ensures Run(cfg, items, fs, env).st.log ==
      if Select(items, Resolve(cfg.arg).field, Resolve(cfg.arg).pattern, env.search).Ok?
      then BulkRequests(cfg) else []
  {
    var t := Resolve(cfg.arg);
    match Select(items, t.field, t.pattern, env.search)
    case Err(_) =>
    case Ok(matched) =>
      var bulk := Bulk(cfg, State([], fs, false), env);
      assert bulk.st.log == BulkRequests(cfg);
      ListSendsNothing(cfg, matched, bulk.st, env);
  }

  /** A run whose matcher fails sends nothing and reports the fault of the first item
      whose target field is missing or not a string. */
  lemma MatcherFailureStopsRun(cfg: Config, items: seq<Item>, fs: FileSystem, env: Env)
    requires exists i :: 0 <= i < |items| && TextAt(items[i], Resolve(cfg.arg).field).Err?
    ensures Run(cfg, items, fs, env).st == State([], fs, false)
    ensures exists i :: 0 <= i < |items| && TextAt(items[i], Resolve(cfg.arg).field).Err? &&
                        (forall j :: 0 <= j < i ==> TextAt(items[j], Resolve(cfg.arg).field).Ok?) &&
                        Run(cfg, items, fs, env).crash == Some(TextAt(items[i], Resolve(cfg.arg).field).fault)
  {
    SelectFailsIff(items, Resolve(cfg.arg).field, Resolve(cfg.arg).pattern, env.search);
  }

  /** The uploads assign the global `filename`; nothing else before the loop does. */
  lemma BulkBindsName(cfg: Config, st: State, env: Env)
    ensures Bulk(cfg, st, env).st.nameBound == (st.nameBound || cfg.add || cfg.replace)
    ensures Bulk(cfg, st, env).st.fs == st.fs
  {
  }

  /** As written, an export whose link is usable ends the run exactly when the download
      succeeds, creating the export directory fails, and `filename` was never assigned. */
  lemma ExportCrashIff(cfg: Config, href: Option<Json>, path: Path, st: State, env: Env, h: string)
    requires UrlOf(href) == Ok(h)
    ensures ExportStep(cfg, href, path, st, env).Crash? <==>
      Answer(env, st, Download(h + "/archive")).code == Ok200 &&
      env.writeFault(|st.log|) == AtMakedirs && !st.nameBound
    ensures ExportStep(cfg, href, path, st, env).Crash? ==>
      ExportStep(cfg, href, path, st, env).fault == Unbound("filename")
  {
  }

  /** The input that shows it: in a run without --add or --replace, the first matched
      item is exported, its download answers 200 and creating the export directory
      fails; the warning handler's NameError ends the run. */
  lemma MakedirsFaultEndsRun(cfg: Config, item: Item, fs: FileSystem, env: Env, h: string)
    requires !cfg.add && !cfg.replace && !cfg.list && !cfg.activate && cfg.doExport
    requires WellFormed(item) && !MustDeactivate(cfg, item)
    requires UrlOf(HrefOf(item["links"])) == Ok(h)
    requires env.perform(0, Download(h + "/archive")).code == Ok200
    requires env.writeFault(0) == AtMakedirs
    ensures RunItems(cfg, [item], Bulk(cfg, State([], fs, false), env).st, env) ==
      Crash(State([Download(h + "/archive")], fs, false), Unbound("filename"))
  {
    var st := Bulk(cfg, State([], fs, false), env).st;
    assert st == State([], fs, false);
    assert [item][..0] == [];
  }
}

# Integration export client — verified model of its core

`exportintegrations.py` is a command-line client for an integration-management REST
service. It fetches the list of integrations, keeps those whose target field matches a
regular expression, optionally uploads archives (import-add, import-replace), and then for
each matched integration lists its status, activates it, deactivates it, exports its
archive to disk (keeping one `.bak` generation) and/or deletes it.

This project models the deterministic part of that script in Dafny:

- **Pattern** (`pattern.dfy`): the positional argument `[field:]pattern` is split with
  `rpartition(":")`; an empty field defaults to `name`, an empty pattern to the
  regular expression `^$`, which a search finds only in an empty value or a lone newline.
- **Matcher** (`matcher.dfy`): the loop that keeps, in order, the items whose target field
  the pattern is found in. A missing field (KeyError) or a non-string field (TypeError from
  the regex search) ends the run.
- **Links** (`links.dfy`): the per-item extraction of `href` from the `links` list into a
  dictionary that starts empty for every item; the last element with an `href` wins.
- **ExportFiles** (`export_files.dfy`): the archive name `<code>-<version>.iar`, the path in
  the export directory, and the rotation that moves an existing archive to `<path>.bak`
  before the new bytes are written. The disk is a map from paths to contents.
- **Dispatch** (`dispatch.dfy`): the bulk upload phase and the per-item loop with its
  `if/elif` precedence (list, activate, deactivate an ACTIVATED item, export) and the
  trailing delete that any `continue` skips. Requests are appended to a log; the server is
  an oracle answering the n-th request of the run; disk failures are an oracle too. Every
  loop is a method proved equal to a specification function.
- **DispatchProps** (`dispatch_props.dfy`): what the loop and the run guarantee.

An uncaught Python exception ends the whole script. The model returns the KeyError,
TypeError and NameError cases it covers as `Crash` / `crash` values (`Values.Fault`),
together with everything done before them; the other uncaught exceptions are listed under
"Left out".

An item whose `links` yield no `href` does not reuse an earlier item's href: `links={}` at
exportintegrations.py:173 gives every item a fresh dictionary, so `links['href']` raises
KeyError and the run stops (`DispatchProps.NoHrefNoRequest`).

## Model

| member | source | states |
|---|---|---|
| Values.TextAt | exportintegrations.py:111 | `d[key]` used as a string succeeds iff the key is present with a string value; otherwise KeyError (missing) or TypeError (not a string) |
| Pattern.LastIndexOf | exportintegrations.py:73 | the result is an occurrence of the character with none after it, and is absent iff the character does not occur |
| Pattern.RPartition | exportintegrations.py:73 | head + separator + tail is the input, the tail holds no colon, the separator is present iff the input has a colon, and without one the whole input is the tail |
| Pattern.Resolve | exportintegrations.py:73-80 | without a colon the field is `name` and the pattern is the input (or `^$` if empty); field and pattern are never empty |
| Pattern.ResolveAtLastColon | exportintegrations.py:73-80 | for `head:tail` with a colon-free tail, the field is `head` (colons included) or `name` if empty, and the pattern is `tail` or `^$` if empty |
| Pattern.LastColonAt | exportintegrations.py:73 | in `head:tail` with a colon-free tail the last colon is at position `|head|` |
| Pattern.ResolveRoundTrip | exportintegrations.py:73-80 | for `head:tail` with a colon-free tail and both sides non-empty, `field + ":" + pattern` gives back `head:tail` |
| Pattern.EmptySuffixSelectsDefault | exportintegrations.py:78-80 | an empty argument or a trailing colon gives exactly the pattern `^$` |
| Pattern.ResolveExample | exportintegrations.py:73-80 | `a:b:c` resolves to field `a:b` and pattern `c` |
| Pattern.ResolveEdgeCases | exportintegrations.py:73-80 | `:x` gives field `name`; `f:` gives pattern `^$`; the empty argument gives `name` and `^$`; `abc` gives `name` and `abc` |
| Matcher.FindMatches | exportintegrations.py:107-112 | the loop's result is the selection specified by `Select` |
| Matcher.SelectFailsIff | exportintegrations.py:110-111 | the matcher fails iff some item's target field is missing or not a string, with the fault of the first such item |
| Matcher.SelectIsOrderedFilter | exportintegrations.py:107-112 | the kept items are the items at strictly increasing positions, and a position is kept iff the pattern is found in that item's field |
| Links.ExtractHref | exportintegrations.py:173-180 | the loop over a fresh dictionary yields `LastHref` of a list, and nothing for a non-list |
| Links.LastHrefIsLast | exportintegrations.py:174-178 | no href is found iff no element has one; a found href is that of an element after which no element has one |
| Links.LastWithHrefIsExtracted | exportintegrations.py:174-178 | conversely, the href of the last element that has one is the one extracted |
| ExportFiles.Save | exportintegrations.py:220-233 | on success the archive path holds the new bytes and its old contents (if any) are at `.bak`; a fault at makedirs or at the rename changes nothing; a fault at open leaves the path absent with the old contents at `.bak`; no other path changes |
| ExportFiles.SaveTwiceKeepsOneGeneration | exportintegrations.py:225-229 | two exports leave the second bytes at the path and the first at `.bak`, nothing else changed |
| ExportFiles.BackupIsNoArchive | exportintegrations.py:224-226 | a backup path is never any item's archive path |
| ExportFiles.ArchiveNameInjective | exportintegrations.py:172 | for codes without `-`, different code/version pairs give different archive names |
| Dispatch.DeleteItem | exportintegrations.py:234-246 | the trailing delete as specified by `DeleteStep` |
| Dispatch.DispatchItem | exportintegrations.py:167-246 | one pass of the loop, branch by branch, equals the specification `ItemStep`, including the NameError when creating the export directory fails before `filename` was assigned |
| Dispatch.ExportStepIntended | exportintegrations.py:208-233 | the corrected export: with a usable link it never ends the run, an I/O error leaves only the download in the log, and it agrees with the as-written export whenever `filename` is already assigned |
| Dispatch.DispatchAll | exportintegrations.py:167-248 | the loop over the matched items equals `RunItems`, stopping at the first uncaught exception |
| Dispatch.RunItemsCrashExtends | exportintegrations.py:167 | after an uncaught exception no later item is handled |
| Dispatch.RunBulk | exportintegrations.py:115-165 | the bulk phase equals `Bulk`: add then replace, each at most once |
| Dispatch.RunScript | exportintegrations.py:107-248 | the whole run after the fetch equals `Run`: resolve, match, upload, per-item loop |
| DispatchProps.ItemStepShape | exportintegrations.py:181-246 | a pass only appends requests: at most one of activate, deactivate or export, optionally followed by one delete, and no upload |
| DispatchProps.ItemStepNoUploads | exportintegrations.py:167-246 | a pass appends to the log and never uploads |
| DispatchProps.ListSendsNothing | exportintegrations.py:181-183 | with `--list` the loop sends no request for any item and leaves the disk unchanged |
| DispatchProps.Precedence | exportintegrations.py:184-215 | activate wins, then deactivate of an ACTIVATED item when deactivate or delete is set, then export, else only the delete; every request uses the item's own href |
| DispatchProps.ActivatedItemIsNotExported | exportintegrations.py:196-208 | an ACTIVATED item with export and delete set is deactivated, never exported |
| DispatchProps.DeleteOnlyAfterSuccess | exportintegrations.py:192-246 | a delete is sent iff delete is set, list is not, and the branch request before it was answered 200 and (for an export) written without I/O error |
| DispatchProps.NoHrefNoRequest | exportintegrations.py:173-237 | an item without an href gets no request; the pass fails with KeyError `href` exactly when some action needs the link |
| DispatchProps.ItemDiskEffect | exportintegrations.py:208-233 | a pass changes the disk only by rotating a successfully downloaded archive into its own path |
| DispatchProps.RunItemsAppends | exportintegrations.py:167-248 | the loop only appends to the log and never uploads |
| DispatchProps.BulkComesFirst | exportintegrations.py:115-167 | the uploads come first, add before replace, each at most once; add is judged by 204 and replace by 200; every later request is a per-item one |
| DispatchProps.ListRunSendsOnlyUploads | exportintegrations.py:115-183 | with `--list` a run sends exactly the uploads when the matcher succeeds and nothing when it fails, and leaves the disk unchanged |
| DispatchProps.MatcherFailureStopsRun | exportintegrations.py:110-111 | if any item lacks a string target field the run sends nothing and reports the fault of the first such item |
| DispatchProps.BulkBindsName | exportintegrations.py:115-140 | after the bulk phase `filename` is assigned iff it was before or an add or replace ran; the disk is unchanged |
| DispatchProps.ExportCrashIff | exportintegrations.py:220-233 | as written, an export with a usable link ends the run iff the download answered 200, `os.makedirs` failed and `filename` was unassigned, and then with NameError |
| DispatchProps.MakedirsFaultEndsRun | exportintegrations.py:220-232 | in a run without add or replace, a first item whose download succeeds and whose `os.makedirs` fails ends the run with NameError after the download |

## Left out

- HTTP transport (pycurl options, TLS settings, basic authentication, headers, URLs of the
  bulk endpoints) and the initial fetch and JSON decoding: the fetched `items` are an input
  and each request is answered by `Env.perform`. Options left on the reused curl handle
  from one request to the next are not modelled.
- The regular-expression engine: `Env.search` stands for `re.compile(p).search(v)`, so the
  fact that `^$` finds only an empty value or a lone newline is not proved.
- `re.error` from `re.compile` at exportintegrations.py:81 on an invalid pattern (with
  `--add` the argument is also a file name, so it must be a valid regular expression too):
  the model assumes every pattern compiles.
- Argument parsing, logging, `print` calls, the log/console handlers and the unused
  `importdir` URL at exportintegrations.py:120.
- Real filesystem semantics: `os.path.abspath` normalisation, directories themselves,
  partial writes, a path that exists as a directory. I/O errors happen at one of three
  points (the `AtMakedirs`, `AtRename` and `AtOpen` values of `ExportFiles.WriteFault`),
  chosen by `Env.writeFault`.
- ExportFiles.Join: `os.path.join` drops the directory when the name is absolute (a `code`
  starting with `/`); the model always prefixes the export directory.
- Values.Render: JSON arrays and objects used as `code` or `version` are rendered as the
  empty string, where Python's `str.format` would print their repr.
- `pycurl.error` from any `c.perform()` (a missing local upload file for add or replace, or
  a transport failure of an upload or of a per-item request at exportintegrations.py:190,
  202, 215 and 241): the server oracle answers every request with a response code.

## Findings

| source | as written | input that shows it | evidently intended | confidence | as-written member | corrected member |
|---|---|---|---|---|---|---|
| exportintegrations.py:220-233 | the `except IOError` handler logs the global `filename`, which is assigned only at lines 121, 140 and 224; an `os.makedirs` failure at line 222 before any of them ran raises NameError, which nothing catches | a run without `--add` or `--replace` whose first export downloads with 200 and then fails to create the export directory | log the warning and skip the item, like every other I/O error | high (not executed) | DispatchProps.MakedirsFaultEndsRun | Dispatch.ExportStepIntended |

The rest of the model follows the code as written (`Dispatch.ExportStep`); the corrected
export differs from it only when `filename` is still unassigned, as the third `ensures` of
`Dispatch.ExportStepIntended` states.

/**
 * The backend's own logic, around the Dropbox calls it makes: the
 * pre-order walk that creates a folder structure from an uploaded JSON
 * descriptor, the request validation of the upload, folder and structure
 * routes, the composition of upload file names and paths, and the shaping
 * of the folder-listing response.
 *
 * The Dropbox account is a set of existing paths; the SDK calls that read
 * or change it are methods of the `Dropbox` class, and calls whose result
 * the backend only passes on are inputs.
 */
module Backend {
  import opened Common

  /** An error answer: an HTTP status and the `error` text of the body. */
  datatype HttpError = HttpError(status: nat, message: string)

  const AuthError: HttpError := HttpError(401, "Error de autenticación con Dropbox")

  // ---------------------------------------------------------------------
  // The Dropbox account
  // ---------------------------------------------------------------------

  /**
   * The account seen as the set of paths that exist in it. `refused` are
   * the paths for which folder creation fails (an invalid name, say): the
   * SDK raises for them.
   */
  class Dropbox {
    var paths: set<string>
    const refused: set<string>

    constructor (paths: set<string>, refused: set<string>)
      ensures this.paths == paths && this.refused == refused
    {
      this.paths := paths;
      this.refused := refused;
    }

    /** `files_get_metadata`: succeeds exactly when the path exists. */
    method GetMetadata(path: string) returns (found: bool)
      ensures found <==> path in paths
    {
      found := path in paths;
    }

    /** `files_create_folder_v2`: creates the folder, or raises. */
    method CreateFolderV2(path: string) returns (ok: bool)
      modifies this
      ensures ok <==> path !in old(paths) && path !in refused
      ensures paths == if ok then old(paths) + {path} else old(paths)
    {
      ok := path !in paths && path !in refused;
      if ok {
        paths := paths + {path};
      }
    }
  }

  // ---------------------------------------------------------------------
  // Structure creation: the walk and what it does to the account
  // ---------------------------------------------------------------------

  /**
   * A node of the uploaded JSON descriptor. `name` is `None` when the
   * object has no `name` key; a missing or empty `folders` is `[]`.
   */
  datatype JsonFolder = JsonFolder(name: Option<string>, folders: seq<JsonFolder>)

  /**
   * The paths a walk visits, in order, and whether it stopped by raising
   * (a node without `name`: the lookup on the path line fails).
   */
  datatype Walk = Walk(paths: seq<string>, raised: bool)

  /** The pre-order walk of `create_folders_recursive(node, parentPath)`. */
  function WalkPaths(node: JsonFolder, parentPath: string): (w: Walk)
    ensures w.paths != [] <==> node.name.Some?
    ensures node.name.None? ==> w.raised
    decreases node, 1
  {
    if node.name.None? then Walk([], true)
    else
      var current := parentPath + "/" + node.name.value;
      var sub := WalkAll(node.folders, current);
      Walk([current] + sub.paths, sub.raised)
  }

  /** The walk of a list of siblings, left to right, stopping at the first raise. */
  function WalkAll(nodes: seq<JsonFolder>, parentPath: string): (w: Walk)
    ensures !w.raised ==> forall k :: 0 <= k < |nodes| ==> nodes[k].name.Some?
    decreases nodes, 0
  {
    if nodes == [] then Walk([], false)
    else
      var w := WalkPaths(nodes[0], parentPath);
      if w.raised then w
      else
        var rest := WalkAll(nodes[1..], parentPath);
        Walk(w.paths + rest.paths, rest.raised)
  }

  lemma {:induction false} WalkAllAppend(a: seq<JsonFolder>, b: seq<JsonFolder>, parentPath: string)
    ensures WalkAll(a + b, parentPath) ==
      var wa := WalkAll(a, parentPath);
      if wa.raised then wa
      else var wb := WalkAll(b, parentPath); Walk(wa.paths + wb.paths, wb.raised)
    decreases |a|
  {
    if a == [] {
      assert a + b == b;
    } else {
      assert (a + b)[0] == a[0] && (a + b)[1..] == a[1..] + b;
      WalkAllAppend(a[1..], b, parentPath);
      var w := WalkPaths(a[0], parentPath);
      if !w.raised {
        var wa' := WalkAll(a[1..], parentPath);
        if !wa'.raised {
          var wb := WalkAll(b, parentPath);
          assert w.paths + (wa'.paths + wb.paths) == (w.paths + wa'.paths) + wb.paths;
        }
      }
    }
  }

  /**
   * Every path a walk visits lies strictly below the parent path: it
   * extends `parentPath + "/"` by at least one character of name or path
   * (so a walk started at `""` only yields absolute paths).
   */
  lemma {:induction false} WalkStaysBelow(node: JsonFolder, parentPath: string)
    ensures forall p :: p in WalkPaths(node, parentPath).paths ==> parentPath + "/" <= p
    decreases node, 1
  {
    if node.name.Some? {
      var current := parentPath + "/" + node.name.value;
      WalkAllStaysBelow(node.folders, current);
      forall p | p in WalkAll(node.folders, current).paths
        ensures parentPath + "/" <= p
      {
        assert (parentPath + "/") <= current;
        assert current + "/" <= p;
        assert p[..|parentPath| + 1] == current[..|parentPath| + 1];
      }
    }
  }

  lemma {:induction false} WalkAllStaysBelow(nodes: seq<JsonFolder>, parentPath: string)
    ensures forall p :: p in WalkAll(nodes, parentPath).paths ==> parentPath + "/" <= p
    decreases nodes, 0
  {
    if nodes != [] {
      WalkStaysBelow(nodes[0], parentPath);
      WalkAllStaysBelow(nodes[1..], parentPath);
    }
  }

  /**
   * The walk visits a node first, at `parentPath + "/" + name`, and then
   * its children's subtrees, each child one level below it.
   */
  lemma WalkVisitsParentFirst(node: JsonFolder, parentPath: string)
    requires node.name.Some?
    ensures var w := WalkPaths(node, parentPath);
      && w.paths != []
      && w.paths[0] == parentPath + "/" + node.name.value
      && forall p :: p in w.paths[1..] ==> w.paths[0] + "/" <= p
  {
    var current := parentPath + "/" + node.name.value;
    WalkAllStaysBelow(node.folders, current);
  }

  /**
   * Walking one more sibling extends the walk of the siblings before it,
   * and a raise there ends the walk of all of them.
   */
  lemma WalkAllStep(children: seq<JsonFolder>, i: nat, parentPath: string)
    requires i < |children| && !WalkAll(children[..i], parentPath).raised
    ensures var before := WalkAll(children[..i], parentPath);
      var w := WalkPaths(children[i], parentPath);
      && WalkAll(children[..i + 1], parentPath) == Walk(before.paths + w.paths, w.raised)
      && (w.raised ==> WalkAll(children, parentPath) == w.(paths := before.paths + w.paths))
  {
    assert children[..i + 1] == children[..i] + [children[i]];
    WalkAllAppend(children[..i], [children[i]], parentPath);
    assert [children[i]][1..] == [];
    assert children == children[..i + 1] + children[i + 1..];
    WalkAllAppend(children[..i + 1], children[i + 1..], parentPath);
  }

  /** The account's paths and the two lists the run fills. */
  datatype RunState = RunState(store: set<string>, created: seq<string>, errors: seq<string>)

  /**
   * One visited path: nothing happens if it exists; otherwise it is created
   * and recorded, or its creation fails and the failure is recorded.
   */
  function Visit(st: RunState, path: string, refused: set<string>): (r: RunState)
    ensures st.store <= r.store && (path in r.store || path in refused)
    ensures st.created <= r.created && st.errors <= r.errors
  {
    if path in st.store then st
    else if path in refused then st.(errors := st.errors + [path])
    else RunState(st.store + {path}, st.created + [path], st.errors)
  }

  /** The visits of a sequence of paths, in order. */
  function Run(st: RunState, paths: seq<string>, refused: set<string>): (r: RunState)
    ensures st.store <= r.store
    ensures st.created <= r.created && st.errors <= r.errors
    decreases |paths|
  {
    if paths == [] then st
    else Run(Visit(st, paths[0], refused), paths[1..], refused)
  }

  lemma {:induction false} RunAppend(st: RunState, a: seq<string>, b: seq<string>, refused: set<string>)
    ensures Run(st, a + b, refused) == Run(Run(st, a, refused), b, refused)
    decreases |a|
  {
    if a == [] {
      assert a + b == b;
    } else {
      assert (a + b)[0] == a[0] && (a + b)[1..] == a[1..] + b;
      RunAppend(Visit(st, a[0], refused), a[1..], b, refused);
    }
  }

  /**
   * The paths a run creates, in visit order: each visited path that is
   * neither in the account (as it stands by then) nor refused.
   */
  function CreatedBy(store: set<string>, paths: seq<string>, refused: set<string>): (c: seq<string>)
    ensures |c| <= |paths|
    ensures forall p :: p in c ==> p !in refused
    decreases |paths|
  {
    if paths == [] then []
    else if paths[0] in store || paths[0] in refused then CreatedBy(store, paths[1..], refused)
    else [paths[0]] + CreatedBy(store + {paths[0]}, paths[1..], refused)
  }

  /** The elements of a sequence of paths. */
  function Elems(s: seq<string>): set<string>
  {
    set p | p in s
  }

  /**
   * A run appends to `created` exactly the paths it creates, and the
   * account gains exactly those paths.
   */
  lemma {:induction false} RunAppendsCreated(st: RunState, paths: seq<string>, refused: set<string>)
    ensures Run(st, paths, refused).created == st.created + CreatedBy(st.store, paths, refused)
    ensures Run(st, paths, refused).store == st.store + Elems(CreatedBy(st.store, paths, refused))
    decreases |paths|
  {
    if paths != [] {
      var p := paths[0];
      RunAppendsCreated(Visit(st, p, refused), paths[1..], refused);
      if p !in st.store && p !in refused {
        var rest := CreatedBy(st.store + {p}, paths[1..], refused);
        assert st.created + [p] + rest == st.created + ([p] + rest);
        assert Elems([p] + rest) == {p} + Elems(rest);
      }
    }
  }

  /**
   * What a run creates: only visited paths, in visit order, each absent
   * from the account and not refused beforehand, none twice; and after it
   * every visited path exists or is refused.
   */
  lemma {:induction false} CreatedBySpec(store: set<string>, paths: seq<string>, refused: set<string>)
    ensures var c := CreatedBy(store, paths, refused);
      && IsSubsequence(c, paths)
      && (forall p :: p in c ==> p !in store && p !in refused)
      && (forall i, j :: 0 <= i < j < |c| ==> c[i] != c[j])
      && (forall p :: p in paths ==> p in store || p in c || p in refused)
    decreases |paths|
  {
    if paths != [] {
      var p := paths[0];
      assert paths == [p] + paths[1..];
      if p in store || p in refused {
        CreatedBySpec(store, paths[1..], refused);
        SubsequenceWeaken(CreatedBy(store, paths[1..], refused), paths[1..], p);
      } else {
        CreatedBySpec(store + {p}, paths[1..], refused);
        var rest := CreatedBy(store + {p}, paths[1..], refused);
        var c := [p] + rest;
        assert c[0] == paths[0] && c[1..] == rest;
        forall i, j | 0 <= i < j < |c| ensures c[i] != c[j] {
          if i == 0 {
            assert c[j] == rest[j - 1];
          } else {
            assert c[i] == rest[i - 1] && c[j] == rest[j - 1];
          }
        }
      }
    }
  }

  /** When every path already exists or is refused, a run creates nothing. */
  lemma {:induction false} RunOverCoveredCreatesNothing(st: RunState, paths: seq<string>, refused: set<string>)
    requires forall p :: p in paths ==> p in st.store || p in refused
    ensures Run(st, paths, refused).created == st.created
    ensures Run(st, paths, refused).store == st.store
    decreases |paths|
  {
    if paths != [] {
      RunOverCoveredCreatesNothing(Visit(st, paths[0], refused), paths[1..], refused);
    }
  }

  /**
   * Running the same structure a second time against the account the first
   * run left creates no folder and leaves the account as it is.
   */
  lemma SecondRunCreatesNothing(store: set<string>, node: JsonFolder, refused: set<string>)
    ensures var paths := WalkPaths(node, "").paths;
      var first := Run(RunState(store, [], []), paths, refused);
      var second := Run(RunState(first.store, [], []), paths, refused);
      second.created == [] && second.store == first.store
  {
    var paths := WalkPaths(node, "").paths;
    RunAppendsCreated(RunState(store, [], []), paths, refused);
    CreatedBySpec(store, paths, refused);
    var first := Run(RunState(store, [], []), paths, refused);
    RunOverCoveredCreatesNothing(RunState(first.store, [], []), paths, refused);
  }

  /**
   * One structure-creation request in progress: the account it works on
   * and the `created_folders` and `errors` lists it fills.
   */
  class StructureJob {
    const dbx: Dropbox
    var created: seq<string>
    var errors: seq<string>

    constructor (dbx: Dropbox)
      ensures this.dbx == dbx && created == [] && errors == []
    {
      this.dbx := dbx;
      created := [];
      errors := [];
    }

    function State(): RunState
      reads this, dbx
    {
      RunState(dbx.paths, created, errors)
    }

    /**
     * The first step of `create_folders_recursive`: look the path up and,
     * when it is missing, create it and record it as created, or record
     * the failure.
     */
    method VisitFolder(current: string)
      modifies this, dbx
      ensures State() == Visit(old(State()), current, dbx.refused)
    {
      var found := dbx.GetMetadata(current);
      if !found {
        var ok := dbx.CreateFolderV2(current);
        if ok {
          created := created + [current];
        } else {
          errors := errors + [current];
        }
      }
    }

    /**
     * `create_folders_recursive`: visit the node (create its folder unless
     * it exists, recording the creation or the failure), then each child
     * under the node's path. A node without a name raises, which ends the
     * whole walk; `raised` reports it.
     */
    method CreateFoldersRecursive(structure: JsonFolder, parentPath: string) returns (raised: bool)
      modifies this, dbx
      ensures raised == WalkPaths(structure, parentPath).raised
      ensures State() == Run(old(State()), WalkPaths(structure, parentPath).paths, dbx.refused)
      decreases structure
    {
      if structure.name.None? {
        return true;
      }
      var current := parentPath + "/" + structure.name.value;
      ghost var s0 := State();
      VisitFolder(current);
      assert State() == Run(s0, [current], dbx.refused);
      raised := false;
      var children := structure.folders;
      for i := 0 to |children|
        invariant !WalkAll(children[..i], current).raised
        invariant State() == Run(s0, [current] + WalkAll(children[..i], current).paths, dbx.refused)
      {
        ghost var before := [current] + WalkAll(children[..i], current).paths;
        raised := CreateFoldersRecursive(children[i], current);
        WalkAllStep(children, i, current);
        RunAppend(s0, before, WalkPaths(children[i], current).paths, dbx.refused);
        assert before + WalkPaths(children[i], current).paths
            == [current] + WalkAll(children[..i + 1], current).paths;
        if raised {
          return;
        }
      }
      assert children[..|children|] == children;
    }
  }

  // ---------------------------------------------------------------------
  // The structure route
  // ---------------------------------------------------------------------

  /** An uploaded file part; an empty filename makes it falsy. */
  datatype UploadedFile = UploadedFile(filename: string)

  /** The success body of the structure route. */
  datatype StructureResponse = StructureResponse(
    message: string,
    createdFolders: seq<string>,
    totalFolders: nat,
    errors: Option<seq<string>>)

  /**
   * The checks of the structure route before any folder is touched, in the
   * source's order. `parsed` is `json.load`'s result, `None` for a decoding
   * error.
   */
  function ValidateStructureRequest(file: Option<UploadedFile>, parsed: Option<JsonFolder>, authenticated: bool)
    : (r: Result<JsonFolder, HttpError>)
    ensures r.Ok? <==>
      && file.Some? && file.value.filename != "" && EndsWith(file.value.filename, ".json")
      && parsed.Some? && parsed.value.name.Some? && authenticated
    ensures r.Ok? ==> r.value == parsed.value
    ensures r.Err? ==> r.error.status == (if file.Some? && file.value.filename != ""
                                            && EndsWith(file.value.filename, ".json")
                                            && parsed.Some? && parsed.value.name.Some?
                                          then 401 else 400)
  {
    if file.None? then Err(HttpError(400, "No se ha enviado ningún archivo JSON"))
    else if file.value.filename == "" then Err(HttpError(400, "No se ha seleccionado ningún archivo"))
    else if !EndsWith(file.value.filename, ".json") then Err(HttpError(400, "El archivo debe ser un JSON"))
    else if parsed.None? then Err(HttpError(400, "El archivo JSON no tiene un formato válido"))
    else if parsed.value.name.None? then
      Err(HttpError(400, "El JSON debe tener un campo 'name' para la carpeta raíz"))
    else if !authenticated then Err(AuthError)
    else Ok(parsed.value)
  }

  /** The number a string of decimal digits denotes. */
  function DigitsValue(s: string): int
  {
    if s == [] then 0 else DigitsValue(s[..|s| - 1]) * 10 + (s[|s| - 1] as int - '0' as int)
  }

  /** Decimal digits of a count, as an f-string prints it: no leading zero. */
  function DecimalString(n: nat): (s: string)
    ensures |s| >= 1
    ensures forall i :: 0 <= i < |s| ==> '0' <= s[i] <= '9'
    ensures DigitsValue(s) == n
    ensures |s| > 1 ==> s[0] != '0'
  {
    var d := ['0' + (n % 10) as char];
    if n < 10 then d else DecimalString(n / 10) + d
  }

  /** The success body: the counts are those of the created list; no errors is `None`. */
  function StructureSuccess(created: seq<string>, errors: seq<string>): (r: StructureResponse)
    ensures r.createdFolders == created && r.totalFolders == |created|
    ensures r.errors.None? <==> errors == []
    ensures r.errors.Some? ==> r.errors.value == errors
  {
    StructureResponse(
      "Estructura creada correctamente: " + DecimalString(|created|) + " carpetas",
      created, |created|, if errors == [] then None else Some(errors))
  }

  /**
   * `create_structure_from_json`: validate, then walk the descriptor from
   * the root with an empty parent path. A nested node without a name aborts
   * with a 500 (the folders created before it stay created).
   */
  method CreateStructureFromJson(dbx: Dropbox, file: Option<UploadedFile>, parsed: Option<JsonFolder>, authenticated: bool)
    returns (r: Result<StructureResponse, HttpError>)
    modifies dbx
    ensures var v := ValidateStructureRequest(file, parsed, authenticated);
      && (v.Err? ==> r == Err(v.error) && dbx.paths == old(dbx.paths))
      && (v.Ok? ==>
            var w := WalkPaths(v.value, "");
            var run := Run(RunState(old(dbx.paths), [], []), w.paths, dbx.refused);
            && dbx.paths == run.store
            && r == if w.raised then Err(HttpError(500, "'name'"))
                    else Ok(StructureSuccess(run.created, run.errors)))
  {
    var v := ValidateStructureRequest(file, parsed, authenticated);
    if v.Err? {
      return Err(v.error);
    }
    var job := new StructureJob(dbx);
    var raised := job.CreateFoldersRecursive(v.value, "");
    if raised {
      return Err(HttpError(500, "'name'"));
    }
    r := Ok(StructureSuccess(job.created, job.errors));
  }

  // ---------------------------------------------------------------------
  // Upload names and paths
  // ---------------------------------------------------------------------

  /** Index of the last `c` in `s`, or -1. */
  function LastIndexOf(s: string, c: char): (i: int)
    ensures -1 <= i < |s|
    ensures i >= 0 ==> s[i] == c
    ensures forall j :: i < j < |s| ==> s[j] != c
  {
    if s == [] then -1
    else if s[|s| - 1] == c then |s| - 1
    else LastIndexOf(s[..|s| - 1], c)
  }

  /**
   * `os.path.splitext` on POSIX: the extension starts at the last dot,
   * provided that dot lies after the last slash and some character before
   * it in the last path component is not a dot (so `.bashrc` has none).
   */
  function SplitExt(p: string): (r: (string, string))
    ensures r.0 + r.1 == p
    ensures r.1 != "" ==> r.1[0] == '.' && forall i :: 1 <= i < |r.1| ==> r.1[i] != '.' && r.1[i] != '/'
    ensures r.1 != "" <==>
      exists i, k :: LastIndexOf(p, '/') < k < i < |p| && p[i] == '.' && p[k] != '.'
  {
    var sep := LastIndexOf(p, '/');
    var dot := LastIndexOf(p, '.');
    if dot > sep && exists k :: sep < k < dot && p[k] != '.' then (p[..dot], p[dot..])
    else (p, "")
  }

  /** The extension is empty, or a suffix of the name that starts with a dot. */
  function Extension(filename: string): (ext: string)
    ensures ext != "" ==> ext[0] == '.' && |ext| <= |filename| && filename[|filename| - |ext|..] == ext
  {
    SplitExt(filename).1
  }

  /**
   * A stem with a character that is neither a dot nor a slash after its
   * last slash, followed by an extension, splits back into the two.
   */
  lemma SplitExtOfStem(stem: string, ext: string, u: nat)
    requires u < |stem| && stem[u] != '.' && stem[u] != '/'
    requires forall j :: u < j < |stem| ==> stem[j] != '/'
    requires ext != "" && ext[0] == '.'
    requires forall i :: 1 <= i < |ext| ==> ext[i] != '.' && ext[i] != '/'
    ensures SplitExt(stem + ext) == (stem, ext)
  {
    var name := stem + ext;
    assert name[u] == stem[u];
    assert name[|stem|] == '.';
    forall j | |stem| < j < |name| ensures name[j] != '.' {
      assert name[j] == ext[j - |stem|];
    }
    assert LastIndexOf(name, '.') == |stem|;
    forall j | u <= j < |name| ensures name[j] != '/' {
      if j < |stem| {
        assert name[j] == stem[j];
      } else {
        assert name[j] == ext[j - |stem|];
      }
    }
    assert LastIndexOf(name, '/') < u;
    assert name[..|stem|] == stem && name[|stem|..] == ext;
  }

  /**
   * `f"{client_name}_{document_type}_{date_str}{file_extension}"`. The
   * stored name keeps the original's extension whenever the original has
   * one (for a date without a slash, as the date picker gives).
   */
  function UploadFilename(client: string, docType: string, date: string, original: string): (n: string)
    ensures Extension(original) != "" && '/' !in date ==> Extension(n) == Extension(original)
  {
    var stem := client + "_" + docType + "_" + date;
    var ext := Extension(original);
    if ext != "" && '/' !in date then
      var u := |client| + |docType| + 1;
      assert stem[u] == '_';
      assert forall j :: u < j < |stem| ==> stem[j] == date[j - u - 1];
      SplitExtOfStem(stem, ext, u);
      stem + ext
    else
      stem + ext
  }

  /** A slash-free name joined to a folder is everything after the last slash. */
  lemma LastSlashOfJoin(folder: string, filename: string)
    requires '/' !in filename
    ensures var p := folder + "/" + filename;
      var i := LastIndexOf(p, '/');
      i == |folder| && p[..i] == folder && p[i + 1..] == filename
  {
    var p := folder + "/" + filename;
    assert p[|folder|] == '/';
    forall j | |folder| < j < |p| ensures p[j] != '/' {
      assert p[j] == filename[j - |folder| - 1];
    }
  }

  /**
   * `f"{folder_path}/{new_filename}"`, and the root upload's `f"/{filename}"`.
   * For a slash-free name the path splits at its last slash back into the
   * folder and the name.
   */
  function UploadPath(folder: string, filename: string): (p: string)
    ensures '/' !in filename ==>
      var i := LastIndexOf(p, '/');
      i == |folder| && p[..i] == folder && p[i + 1..] == filename
  {
    if '/' !in filename then
      LastSlashOfJoin(folder, filename);
      folder + "/" + filename
    else
      folder + "/" + filename
  }

  /** Where an accepted upload goes, and under which name. */
  datatype UploadTarget = UploadTarget(filename: string, path: string)

  /**
   * `upload_file` up to the SDK call: a missing file part, an empty
   * filename, client name, document type or folder is a 400; then an
   * unauthenticated session is a 401. `date` is `None` when the form has no
   * date field, and then `today` is used.
   */
  function UploadFile(file: Option<UploadedFile>, clientName: string, documentType: string,
                      date: Option<string>, today: string, folder: string, authenticated: bool)
    : (r: Result<UploadTarget, HttpError>)
    ensures r.Err? && r.error.status == 400 <==>
      file.None? || file.value.filename == "" || clientName == "" || documentType == "" || folder == ""
    ensures r.Err? && r.error.status == 401 <==>
      file.Some? && file.value.filename != "" && clientName != "" && documentType != "" && folder != ""
      && !authenticated
    ensures r.Ok? ==>
      var d := if date.Some? then date.value else today;
      && r.value.filename == clientName + "_" + documentType + "_" + d + Extension(file.value.filename)
      && r.value.path == folder + "/" + r.value.filename
    ensures r.Ok? <==>
      file.Some? && file.value.filename != "" && clientName != "" && documentType != "" && folder != ""
      && authenticated
  {
    if file.None? then Err(HttpError(400, "No se ha enviado ningún archivo"))
    else if file.value.filename == "" || clientName == "" || documentType == "" || folder == "" then
      Err(HttpError(400, "Faltan datos requeridos"))
    else
      var d := if date.Some? then date.value else today;
      var name := UploadFilename(clientName, documentType, d, file.value.filename);
      if !authenticated then Err(AuthError)
      else Ok(UploadTarget(name, UploadPath(folder, name)))
  }

  /**
   * `upload_file_to_root`: the file keeps its own name and goes to
   * `"/" + filename`.
   */
  function UploadFileToRoot(file: Option<UploadedFile>, authenticated: bool): (r: Result<UploadTarget, HttpError>)
    ensures r.Err? && r.error.status == 400 <==> file.None? || file.value.filename == ""
    ensures r.Err? && r.error.status == 401 <==> file.Some? && file.value.filename != "" && !authenticated
    ensures r.Ok? ==> r.value == UploadTarget(file.value.filename, "/" + file.value.filename)
    ensures r.Ok? <==> file.Some? && file.value.filename != "" && authenticated
  {
    if file.None? then Err(HttpError(400, "No se ha enviado ningún archivo"))
    else if file.value.filename == "" then Err(HttpError(400, "No se ha seleccionado ningún archivo"))
    else if !authenticated then Err(AuthError)
    else Ok(UploadTarget(file.value.filename, UploadPath("", file.value.filename)))
  }

  /** The success body of the folder-creation route. */
  datatype CreatedFolder = CreatedFolder(path: string, name: string)

  /**
   * `create_folder`: 401 without a session, 400 without a (non-empty)
   * `folderName`; otherwise the folder `"/" + name` is created, and a
   * failing SDK call (the folder exists, or is refused) is a 500 carrying
   * the SDK's error text `failure`.
   */
  method CreateFolder(dbx: Dropbox, authenticated: bool, folderName: Option<string>, failure: string)
    returns (r: Result<CreatedFolder, HttpError>)
    modifies dbx
    ensures !authenticated ==> r == Err(AuthError) && dbx.paths == old(dbx.paths)
    ensures authenticated && (folderName.None? || folderName.value == "") ==>
      r.Err? && r.error.status == 400 && dbx.paths == old(dbx.paths)
    ensures authenticated && folderName.Some? && folderName.value != "" ==>
      var path := "/" + folderName.value;
      var ok := path !in old(dbx.paths) && path !in dbx.refused;
      && dbx.paths == (if ok then old(dbx.paths) + {path} else old(dbx.paths))
      && (r.Ok? <==> ok)
      && (r.Ok? ==> r.value == CreatedFolder(path, folderName.value))
      && (r.Err? ==> r.error == HttpError(500, failure))
  {
    if !authenticated {
      return Err(AuthError);
    }
    if folderName.None? || folderName.value == "" {
      return Err(HttpError(400, "Se requiere un nombre para la carpeta"));
    }
    var path := "/" + folderName.value;
    var ok := dbx.CreateFolderV2(path);
    if ok {
      r := Ok(CreatedFolder(path, folderName.value));
    } else {
      r := Err(HttpError(500, failure));
    }
  }

  // ---------------------------------------------------------------------
  // Folder listing
  // ---------------------------------------------------------------------

  /** The entry kinds a Dropbox folder listing returns. */
  datatype Metadata =
    | FolderMetadata(id: string, name: string, pathDisplay: string)
    | FileMetadata(id: string, name: string, pathDisplay: string)
    | DeletedMetadata(name: string, pathDisplay: string)

  /** One page of `files_list_folder` / `files_list_folder_continue`. */
  datatype ListFolderResult = ListFolderResult(entries: seq<Metadata>, cursor: string, hasMore: bool)

  /** A folder as the route reports it: `{id, name, path}`. */
  datatype RemoteFolder = RemoteFolder(id: string, name: string, path: string)

  /** The route's body; `cursor` is `None` when the key is absent. */
  datatype FolderListing = FolderListing(folders: seq<RemoteFolder>, hasMore: bool, cursor: Option<string>)

  /** The folder entries of a listing, in their order, as reported folders. */
  function FoldersOnly(entries: seq<Metadata>): (r: seq<RemoteFolder>)
    ensures |r| <= |entries|
    ensures |r| == |entries| <==> forall k :: 0 <= k < |entries| ==> entries[k].FolderMetadata?
  {
    if entries == [] then []
    else
      var e := entries[0];
      (if e.FolderMetadata? then [RemoteFolder(e.id, e.name, e.pathDisplay)] else [])
      + FoldersOnly(entries[1..])
  }

  lemma {:induction false} FoldersOnlyAppend(a: seq<Metadata>, b: seq<Metadata>)
    ensures FoldersOnly(a + b) == FoldersOnly(a) + FoldersOnly(b)
    decreases |a|
  {
    if a == [] {
      assert a + b == b;
    } else {
      assert (a + b)[0] == a[0] && (a + b)[1..] == a[1..] + b;
      FoldersOnlyAppend(a[1..], b);
    }
  }

  /**
   * Exactly the folder entries are reported: each reported folder comes
   * from a folder entry with the same id, name and path, and every folder
   * entry is reported.
   */
  lemma {:induction false} FoldersOnlyKeepsExactlyFolders(entries: seq<Metadata>)
    ensures forall f :: f in FoldersOnly(entries) ==> FolderMetadata(f.id, f.name, f.path) in entries
    ensures forall e :: e in entries && e.FolderMetadata? ==> RemoteFolder(e.id, e.name, e.pathDisplay) in FoldersOnly(entries)
    decreases |entries|
  {
    if entries != [] {
      FoldersOnlyKeepsExactlyFolders(entries[1..]);
      assert entries == [entries[0]] + entries[1..];
    }
  }

  /** The loop of `get_folders` that collects the folder entries. */
  method CollectFolders(entries: seq<Metadata>) returns (folders: seq<RemoteFolder>)
    ensures folders == FoldersOnly(entries)
  {
    folders := [];
    for i := 0 to |entries|
      invariant folders == FoldersOnly(entries[..i])
    {
      var entry := entries[i];
      assert entries[..i + 1] == entries[..i] + [entry];
      FoldersOnlyAppend(entries[..i], [entry]);
      if entry.FolderMetadata? {
        folders := folders + [RemoteFolder(entry.id, entry.name, entry.pathDisplay)];
      }
    }
    assert entries[..|entries|] == entries;
  }

  /** The `limit` query argument: absent (100 is used), an integer, or text `int` rejects. */
  datatype LimitArg = NoLimit | Limit(n: int) | BadLimit(text: string)

  /** The SDK call the route makes. */
  datatype ListCall = ListFolder(path: string, limit: int) | ListFolderContinue(cursor: string)

  /**
   * Which listing call `get_folders` makes: continue from a non-empty
   * cursor, else list the root with the limit (100 by default). A limit
   * that is not an integer fails first, with or without a cursor.
   */
  function ListCallFor(cursor: Option<string>, limit: LimitArg): (r: Option<ListCall>)
    ensures r.None? <==> limit.BadLimit?
    ensures r.Some? && cursor.Some? && cursor.value != "" ==> r.value == ListFolderContinue(cursor.value)
    ensures r.Some? && (cursor.None? || cursor.value == "") ==>
      r.value == ListFolder("", if limit.Limit? then limit.n else 100)
  {
    if limit.BadLimit? then None
    else
      var n := if limit.Limit? then limit.n else 100;
      if cursor.Some? && cursor.value != "" then Some(ListFolderContinue(cursor.value))
      else Some(ListFolder("", n))
  }

  /**
   * `get_folders`: 401 without a session; 500 when the limit is not an
   * integer or the SDK call fails; otherwise the folder entries in order,
   * `has_more`, and `cursor` exactly when `has_more` is true. `sdk` answers
   * each listing call.
   */
  method GetFolders(authenticated: bool, cursor: Option<string>, limit: LimitArg,
                    sdk: ListCall -> Result<ListFolderResult, string>)
    returns (r: Result<FolderListing, HttpError>)
    ensures !authenticated ==> r == Err(AuthError)
    ensures authenticated && limit.BadLimit? ==> r.Err? && r.error.status == 500
    ensures authenticated && !limit.BadLimit? ==>
      var call := ListCallFor(cursor, limit).value;
      match sdk(call)
      case Err(e) => r == Err(HttpError(500, e))
      case Ok(page) =>
        && r.Ok?
        && r.value.folders == FoldersOnly(page.entries)
        && r.value.hasMore == page.hasMore
        && (r.value.cursor.Some? <==> page.hasMore)
        && (r.value.cursor.Some? ==> r.value.cursor.value == page.cursor)
  {
    if !authenticated {
      return Err(AuthError);
    }
    var call := ListCallFor(cursor, limit);
    if call.None? {
      return Err(HttpError(500, "invalid literal for int() with base 10: '" + limit.text + "'"));
    }
    var result := sdk(call.value);
    if result.Err? {
      return Err(HttpError(500, result.error));
    }
    var page := result.value;
    var folders := CollectFolders(page.entries);
    var responseCursor := if page.hasMore then Some(page.cursor) else None;
    r := Ok(FolderListing(folders, page.hasMore, responseCursor));
  }
}

/**
 * The editor's download and the backend's structure route meet in one
 * format: the `{name, folders}` JSON the editor writes is what the route
 * walks. Every node the editor writes has a name, so the walk never
 * raises, and it visits one path per folder of the edited tree.
 */
module ExportImport {
  import opened Common
  import opened StructureBuilder
  import opened Backend

  /** The parsed form of one written node. */
  function ToJson(c: CleanFolder): (j: JsonFolder)
    ensures j.name == Some(c.name) && |j.folders| == |c.folders|
    decreases c, 1
  {
    JsonFolder(Some(c.name), ToJsonAll(c.folders))
  }

  function ToJsonAll(cs: seq<CleanFolder>): (js: seq<JsonFolder>)
    ensures |js| == |cs|
    ensures forall k :: 0 <= k < |cs| ==> js[k] == ToJson(cs[k])
    decreases cs, 0
  {
    if cs == [] then [] else [ToJson(cs[0])] + ToJsonAll(cs[1..])
  }

  lemma {:induction false} WalkOfWrittenForest(cs: seq<CleanFolder>, parentPath: string)
    ensures !WalkAll(ToJsonAll(cs), parentPath).raised
    ensures |WalkAll(ToJsonAll(cs), parentPath).paths| == |CleanPreOrder(cs)|
    decreases cs
  {
    if cs != [] {
      var js := ToJsonAll(cs);
      var current := parentPath + "/" + cs[0].name;
      WalkOfWrittenForest(cs[0].folders, current);
      WalkOfWrittenForest(cs[1..], parentPath);
      assert js[1..] == ToJsonAll(cs[1..]);
      assert js[0] == ToJson(cs[0]);
    }
  }

  /** The file name the editor uploads passes the route's name checks. */
  lemma SentFileIsAccepted(j: JsonFolder)
    requires j.name.Some?
    ensures ValidateStructureRequest(Some(UploadedFile("estructura.json")), Some(j), true) == Ok(j)
  {
    var n := "estructura.json";
    assert n[|n| - 5..] == ".json";
  }

  /**
   * The JSON the editor builds for "create in Dropbox", named
   * `estructura.json`: with a session the route accepts it, and the walk
   * does not raise, starts at `"/" + ` the root's name and visits exactly as
   * many paths as the tree has folders.
   */
  lemma SentStructureIsWalkedWhole(s: Folder)
    ensures ValidateStructureRequest(Some(UploadedFile("estructura.json")), Some(ToJson(Clean(s))), true)
            == Ok(ToJson(Clean(s)))
    ensures var w := WalkPaths(ToJson(Clean(s)), "");
      && !w.raised
      && |w.paths| == Size([s])
      && w.paths[0] == "/" + s.name
  {
    var j := ToJson(Clean(s));
    SentFileIsAccepted(j);
    CleanKeepsShape(s);
    WalkOfWrittenForest([Clean(s)], "");
    assert ToJsonAll([Clean(s)]) == [j];
    assert WalkAll([j], "") == WalkPaths(j, "") by {
      assert [j][1..] == [];
    }
  }

  // ---------------------------------------------------------------------
  // The editor's "create in Dropbox" action
  // ---------------------------------------------------------------------

  /** The banner `createStructureInDropbox` leaves: outcome, text, created folders. */
  datatype CreateStatus = CreateStatus(success: bool, message: string, details: seq<string>)

  const CreateFailurePrefix := "Error al crear la estructura: "

  /**
   * The action as the editor has it. The API client defines no
   * `createStructure`, so the call throws a `TypeError` before any request
   * leaves, and the handler's catch shows a failure banner carrying the
   * error's message (`typeError`, in the engine's wording). Neither the
   * tree nor the session plays any part.
   */
  function CreateInDropboxAsWritten(s: Folder, typeError: string): (status: CreateStatus)
    ensures !status.success && status.details == []
    ensures status.message == CreateFailurePrefix + typeError
  {
    CreateStatus(false, CreateFailurePrefix + typeError, [])
  }

  /**
   * For every tree the request the editor builds would be accepted by the
   * structure route with a session, yet as written the action always fails.
   */
  lemma CreateActionNeverReachesRoute(s: Folder, typeError: string)
    ensures ValidateStructureRequest(Some(UploadedFile("estructura.json")), Some(ToJson(Clean(s))), true).Ok?
    ensures !CreateInDropboxAsWritten(s, typeError).success
  {
    SentFileIsAccepted(ToJson(Clean(s)));
  }

  /** The banner for the route's answer, as the handler builds it. */
  function StatusFor(answer: Result<StructureResponse, HttpError>): (status: CreateStatus)
    ensures status.success <==> answer.Ok?
    ensures answer.Ok? ==> status.message == answer.value.message && status.details == answer.value.createdFolders
    ensures answer.Err? ==> status.message == CreateFailurePrefix + answer.error.message && status.details == []
  {
    match answer
    case Ok(resp) => CreateStatus(true, resp.message, resp.createdFolders)
    case Err(e) => CreateStatus(false, CreateFailurePrefix + e.message, [])
  }

  /**
   * The action with the missing client call supplied: post the written tree
   * as `estructura.json` to the structure route and show its answer. With a
   * session it succeeds and lists exactly the folders the run over the
   * tree's walk created; without one it fails with the authentication error
   * and the account is unchanged.
   */
  method CreateInDropbox(dbx: Dropbox, s: Folder, authenticated: bool) returns (status: CreateStatus)
    modifies dbx
    ensures var w := WalkPaths(ToJson(Clean(s)), "");
      var run := Run(RunState(old(dbx.paths), [], []), w.paths, dbx.refused);
      && (authenticated ==> status.success && status.details == run.created && dbx.paths == run.store)
      && (!authenticated ==>
            && !status.success && status.message == CreateFailurePrefix + AuthError.message
            && dbx.paths == old(dbx.paths))
  {
    var j := ToJson(Clean(s));
    SentStructureIsWalkedWhole(s);
    var n := "estructura.json";
    assert n[|n| - 5..] == ".json";
    var answer := CreateStructureFromJson(dbx, Some(UploadedFile(n)), Some(j), authenticated);
    status := StatusFor(answer);
  }
}

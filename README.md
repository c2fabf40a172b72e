# Dropbox connector: folder-tree editor, structure creation and folder paging

This project models the three pieces of logic of the Dropbox document
connector that go beyond form wiring, and proves what each of them promises.

- **The folder-tree editor** (`StructureBuilder`, `structure_builder.dfy`).
  The user edits a tree of `{id, name, folders}` nodes under a root whose id
  is `root`. Adding, deleting and renaming rebuild the tree and return a new
  one. The tree is written out as `{name, folders}` without ids, and a reset
  puts back the empty root. The tree is a `datatype`, each operation is a
  function, and pre-order is the reference order that the lemmas speak about.
- **The backend** (`Backend`, `backend.dfy`). The Dropbox account is a
  `Dropbox` object whose `paths` set the folder-creation calls change.
  `create_folders_recursive` is a recursive method of a `StructureJob` object
  that fills `created` and `errors` as it walks. It is proved against a
  pre-order walk (`WalkPaths`) and a fold of single visits (`Run`). The
  request checks of the structure, upload, root-upload and folder-creation
  routes are functions returning `Result`. So are the upload name and path
  composition (with `os.path.splitext` written out) and the choice of
  listing call. The loop of the folder-listing route is a method proved
  against `FoldersOnly`.
- **The folder picker** (`FolderSelector`, `folder_selector.dfy`). It is a
  class with the component's state fields. `fetchFolders` and
  `handleCreateFolder` are methods that receive each awaited network
  answer as a parameter. The list they leave is specified by `AfterFetch`.
- `ExportImport` (`export_import.dfy`) joins the editor to the backend: the
  JSON the editor builds as `estructura.json` passes the route's checks, and
  the walk of it visits one path per folder. The editor's "Crear en Dropbox"
  action never sends it, though (see Findings); the model has both the
  action as written and the action with the missing client call supplied.
- `Common` (`common.dfy`) holds `Option`, `Result`, suffix tests,
  subsequences, and JavaScript's `trim` with the ECMAScript whitespace set.

The source spells the initial and reset root name `Carpeta Ra√≠z`. That is
`Raíz` encoded as UTF-8 and then read as Mac Roman. The model keeps the
source's characters (`RootName`).

## Model

| member | source | states |
|---|---|---|
| StructureBuilder.FindFolderById | App_Dropbox/src/components/StructureBuilder.jsx:111-120 | returns the first node in pre-order (parent before children, siblings left to right) whose id matches, and returns nothing exactly when no node has that id |
| StructureBuilder.LookupNoneIffAbsent | App_Dropbox/src/components/StructureBuilder.jsx:111-120 | the search finds nothing if and only if the id occurs nowhere in the tree |
| StructureBuilder.LookupAppend | App_Dropbox/src/components/StructureBuilder.jsx:112-118 | searching a concatenated list searches the left part first, and the right part only when the left has no match |
| StructureBuilder.AddToChildren | App_Dropbox/src/components/StructureBuilder.jsx:135-151 | `updateFolders`: every sibling in the list passed in keeps its id and name, and the list keeps its length; which ids the whole forest gains and where the child lands is stated by `AddToChildrenIds` and `AddToChildrenLookup` |
| StructureBuilder.AddSubfolder | App_Dropbox/src/components/StructureBuilder.jsx:122-158 | `addSubfolder` keeps the root's id and name; what it adds is stated by `AddAtRootAppendsLast`, `AddSubfolderAppendsChild` and `AddSubfolderKeepsWellFormed` |
| StructureBuilder.AddAtRootAppendsLast | App_Dropbox/src/components/StructureBuilder.jsx:122-133 | adding under `root` keeps the root's id, name and existing children, and the pre-order gains exactly one `Nueva Carpeta` node with no children, at the end |
| StructureBuilder.AddUnderAbsentParentIsNoOp | App_Dropbox/src/components/StructureBuilder.jsx:135-156 | adding under an id that matches no node leaves the tree unchanged |
| StructureBuilder.AddToAbsentParentIsNoOp | App_Dropbox/src/components/StructureBuilder.jsx:135-151 | the recursive rebuild changes nothing when no node carries the parent id |
| StructureBuilder.AddToChildrenIds | App_Dropbox/src/components/StructureBuilder.jsx:135-151 | when the parent id occurs once, the ids of the rebuilt list are the old ids plus the new child's id |
| StructureBuilder.AddToChildrenLookup | App_Dropbox/src/components/StructureBuilder.jsx:136-142 | when the parent id occurs once, the parent found afterwards is the old parent with the child appended at the end of its children |
| StructureBuilder.AddSubfolderAppendsChild | App_Dropbox/src/components/StructureBuilder.jsx:122-158 | with unique ids and an existing non-root parent, that parent gains the new node as its last child and the node count grows by exactly one |
| StructureBuilder.DeleteFromTree | App_Dropbox/src/components/StructureBuilder.jsx:161-168 | `deleteFolderFromTree`: no sibling left carries the id and the list never grows; which nodes go and in what order the rest stay is stated by `DeleteRemovesSubtree`, `DeleteKeepsOrder` and `DeleteRemovesEveryMatch` |
| StructureBuilder.DeleteFolder | App_Dropbox/src/components/StructureBuilder.jsx:160-174 | `deleteFolder` keeps the root's id and name, and the root's child list never grows |
| StructureBuilder.DeleteRemovesEveryMatch | App_Dropbox/src/components/StructureBuilder.jsx:160-168 | after deletion no node anywhere carries the deleted id |
| StructureBuilder.DeleteAbsentIsNoOp | App_Dropbox/src/components/StructureBuilder.jsx:160-168 | deleting an id that occurs nowhere leaves the forest unchanged |
| StructureBuilder.DeleteKeepsOrder | App_Dropbox/src/components/StructureBuilder.jsx:160-168 | the surviving nodes keep their ids, names, depths and pre-order order: the result's (id, name, depth) labels are a subsequence of the old ones, so a survivor whose parent survives stays under it |
| StructureBuilder.DeleteRemovesSubtree | App_Dropbox/src/components/StructureBuilder.jsx:160-168 | with unique ids, deletion removes exactly the matched node's whole subtree: the ids left are the old ids minus exactly that subtree's ids, and the node count drops by its size |
| StructureBuilder.LookupSubtreeIds | App_Dropbox/src/components/StructureBuilder.jsx:111-120 | the ids of the subtree found for an existing id all occur in the forest |
| StructureBuilder.DeleteRemovesSubtreeIds | App_Dropbox/src/components/StructureBuilder.jsx:161-168 | with unique ids, the ids left after deleting an existing id are the old ids minus exactly those of the matched node's subtree |
| StructureBuilder.DeleteSubtreeIdsAtFirst | App_Dropbox/src/components/StructureBuilder.jsx:161-168 | when the first sibling is the match, the ids lose exactly that node and its subtree |
| StructureBuilder.DeleteSubtreeIdsInChildren | App_Dropbox/src/components/StructureBuilder.jsx:161-168 | when the match is below the first sibling, the ids lose exactly the matched subtree |
| StructureBuilder.DeleteSubtreeIdsInRest | App_Dropbox/src/components/StructureBuilder.jsx:161-168 | when the match is in a later sibling, the ids lose exactly the matched subtree |
| StructureBuilder.DeleteShrinksIds | App_Dropbox/src/components/StructureBuilder.jsx:160-168 | deletion only removes ids and never introduces one |
| StructureBuilder.DeleteFolderSpec | App_Dropbox/src/components/StructureBuilder.jsx:160-174 | the root is never removed and keeps its id and name, the id is gone, survivors keep their depths and order, and an absent id leaves the tree unchanged |
| StructureBuilder.AddThenDeleteRestores | App_Dropbox/src/components/StructureBuilder.jsx:122-174 | adding a folder with a fresh id and then deleting that id gives back the original tree |
| StructureBuilder.AddThenDeleteChildren | App_Dropbox/src/components/StructureBuilder.jsx:135-168 | the same round trip on a forest below the root |
| StructureBuilder.RenameInTree | App_Dropbox/src/components/StructureBuilder.jsx:182-195 | `renameFolderInTree`: the list keeps its length and every sibling its id; the whole-tree promise is `RenameInTreeSpec` |
| StructureBuilder.RenameFolder | App_Dropbox/src/components/StructureBuilder.jsx:176-201 | `renameFolder` keeps the root's id and child count, and changes the root's name exactly when the id is `root` |
| StructureBuilder.RenameInTreeSpec | App_Dropbox/src/components/StructureBuilder.jsx:182-195 | with unique ids, the rebuilt forest has the same nodes in pre-order, with the same ids and child counts, and only the matching node's name changes |
| StructureBuilder.RenameFolderChangesOnlyName | App_Dropbox/src/components/StructureBuilder.jsx:176-201 | on a well-formed tree, renaming `root` or any other id changes only that node's name; all ids, child lists and other names stay the same |
| StructureBuilder.AddSubfolderKeepsWellFormed | App_Dropbox/src/components/StructureBuilder.jsx:122-158 | adding with a fresh id keeps the root id `root` and all ids distinct |
| StructureBuilder.DeleteFolderKeepsWellFormed | App_Dropbox/src/components/StructureBuilder.jsx:160-174 | deletion keeps the root id and the distinctness of ids |
| StructureBuilder.RenameFolderKeepsWellFormed | App_Dropbox/src/components/StructureBuilder.jsx:176-201 | renaming keeps the root id and the distinctness of ids |
| StructureBuilder.ResetStructure | App_Dropbox/src/components/StructureBuilder.jsx:266-273 | the reset tree is well formed and consists of the root alone |
| StructureBuilder.Clean | App_Dropbox/src/components/StructureBuilder.jsx:204-210 | `cleanStructure` keeps the node's name and number of children; the whole-tree promise is `CleanKeepsShape` and `CleanCommutesWithPreOrder` |
| StructureBuilder.CleanCommutesWithPreOrder | App_Dropbox/src/components/StructureBuilder.jsx:204-212 | the pre-order of the written tree is the written form of the pre-order of the tree |
| StructureBuilder.CleanKeepsShape | App_Dropbox/src/components/StructureBuilder.jsx:232-240 | the written tree has as many nodes as the tree, and pointwise in pre-order the same names and child counts |
| StructureBuilder.HandleRename | App_Dropbox/src/components/StructureBuilder.jsx:11-16 | a rename is issued exactly when the trimmed edit is non-empty and the edit differs from the current name, and it passes the untrimmed edit |
| StructureBuilder.ApplyRenameEdit | App_Dropbox/src/components/StructureBuilder.jsx:11-16 | a blank or unchanged edit leaves the tree as it is; otherwise the tree is renamed with the edit |
| Backend.Dropbox.GetMetadata | backend/app.py:307 | the metadata lookup succeeds exactly when the path exists |
| Backend.Dropbox.CreateFolderV2 | backend/app.py:311 | creation succeeds exactly when the path is absent and not refused, and only then adds the path |
| Backend.WalkPaths | backend/app.py:299-319 | `create_folders_recursive` as a walk: a node visits at least its own path exactly when it has a `name`, and a node without one raises |
| Backend.WalkAll | backend/app.py:317-319 | the loop over the subfolders: a run of siblings walked without raising has a `name` on every sibling |
| Backend.WalkAllAppend | backend/app.py:317-319 | walking two runs of siblings is walking the first and, unless it raised, then the second |
| Backend.WalkStaysBelow | backend/app.py:299-319 | every path a walk visits extends `parent + "/"`, so a walk from the empty parent gives absolute paths |
| Backend.WalkVisitsParentFirst | backend/app.py:299-319 | a named node's own path `parent + "/" + name` comes first and every later path lies below it |
| Backend.Visit | backend/app.py:304-314 | one visit never removes a path, leaves the visited path existing unless it is refused, and only appends to the two lists |
| Backend.Run | backend/app.py:299-319 | a run of visits never removes a path and only appends to `created_folders` and `errors`; what it appends is stated by `RunAppendsCreated` and `CreatedBySpec` |
| Backend.CreatedBy | backend/app.py:304-314 | the created paths are at most as many as the visits and never refused ones; `CreatedBySpec` states the rest |
| Backend.RunAppendsCreated | backend/app.py:304-314 | a run appends to `created_folders` exactly the paths it created, and the account gains exactly those paths |
| Backend.CreatedBySpec | backend/app.py:304-314 | the created paths are visited paths, in visit order, each absent and creatable when visited and none twice, and after the run every visited path exists or was refused |
| Backend.RunOverCoveredCreatesNothing | backend/app.py:306-308 | when every visited path already exists or is refused, nothing is created and the account is unchanged |
| Backend.SecondRunCreatesNothing | backend/app.py:299-322 | walking the same structure again against the account the first run left creates nothing |
| Backend.StructureJob.VisitFolder | backend/app.py:304-314 | one visit: an existing path is left alone, otherwise it is created and recorded, or the failure is recorded |
| Backend.StructureJob.CreateFoldersRecursive | backend/app.py:299-319 | it raises exactly when the pre-order walk meets a node without `name`, and the account, `created` and `errors` end as the fold of single visits over the walk's paths |
| Backend.ValidateStructureRequest | backend/app.py:267-293 | the structure is accepted exactly when a file with a non-empty name ending in `.json` parses with a top-level `name` and a session exists; the failed file checks give 400 and a missing session 401 |
| Backend.StructureSuccess | backend/app.py:324-330 | the response lists the created folders, `total_folders` is their number, and `errors` is null exactly when there were none |
| Backend.DecimalString | backend/app.py:326 | the count is printed as decimal digits without a leading zero that denote exactly the count |
| Backend.CreateStructureFromJson | backend/app.py:254-332 | rejected requests leave the account unchanged; accepted ones end with the account and lists of the run over the walk, and a nested node without `name` gives 500 |
| Backend.LastIndexOf | backend/app.py:181 | the index returned holds the character and no later index does, or no index holds it |
| Backend.SplitExt | backend/app.py:181 | stem and extension concatenate to the name; the extension is non-empty exactly when the last path component has a dot after some non-dot character, and then it starts with a dot and holds no further dot or slash, so it begins at the last dot |
| Backend.Extension | backend/app.py:181 | `os.path.splitext(...)[1]` is empty or a suffix of the name that starts with a dot |
| Backend.SplitExtOfStem | backend/app.py:181-182 | a stem with a non-dot, non-slash character after its last slash, followed by an extension, splits back into that stem and that extension |
| Backend.UploadFilename | backend/app.py:180-182 | `client_doctype_date + ext`; the stored name has the original's extension whenever the original has one and the date has no slash |
| Backend.UploadPath | backend/app.py:195 | `folder + "/" + name` (and `"/" + name` for the root upload at line 237); for a slash-free name it splits at its last slash back into the folder and the name |
| Backend.LastSlashOfJoin | backend/app.py:195 | in `folder + "/" + name` with a slash-free name the last slash is the joining one |
| Backend.UploadFile | backend/app.py:164-210 | 400 exactly when the file part, the filename, the client name, the document type or the folder is missing or empty; then 401 exactly when there is no session; a complete request with a session succeeds, with the name `client_doctype_date + ext` and the path `folder/name` |
| Backend.UploadFileToRoot | backend/app.py:212-252 | 400 exactly when there is no file or its name is empty; then 401 without a session; a named file with a session succeeds, keeps its name and goes to `"/" + name` |
| Backend.CreateFolder | backend/app.py:135-162 | 401 without a session, then 400 for a missing or empty name; otherwise `"/" + name` is created when absent and creatable, and a failed creation gives 500 |
| Backend.FoldersOnly | backend/app.py:113-120 | the folder entries as reported folders: never more than the entries, and as many exactly when every entry is a folder; `FoldersOnlyKeepsExactlyFolders` states which |
| Backend.FoldersOnlyAppend | backend/app.py:113-120 | filtering a concatenation is concatenating the filtered parts |
| Backend.FoldersOnlyKeepsExactlyFolders | backend/app.py:113-120 | every reported folder comes from a folder entry with the same id, name and path, and every folder entry is reported |
| Backend.CollectFolders | backend/app.py:112-120 | the loop collects exactly the folder entries, in their order |
| Backend.ListCallFor | backend/app.py:103-110 | a limit that is not an integer fails; otherwise a non-empty cursor continues the listing and no cursor lists the root with the limit, 100 by default |
| Backend.GetFolders | backend/app.py:96-133 | 401 without a session, 500 on a bad limit or a failed listing; otherwise only folder entries, `has_more` as listed, and a `cursor` exactly when `has_more` holds |
| ExportImport.WalkOfWrittenForest | backend/app.py:299-319 | the walk of a written forest never raises and visits one path per node |
| ExportImport.SentFileIsAccepted | backend/app.py:267-293 | a file named `estructura.json` whose parsed content has a top-level name is accepted when a session exists |
| ExportImport.SentStructureIsWalkedWhole | App_Dropbox/src/components/StructureBuilder.jsx:232-244 | the JSON the editor builds as `estructura.json` passes the structure route's checks, and its walk does not raise, starts at `"/" + ` the root's name and visits as many paths as the tree has folders |
| ExportImport.CreateInDropboxAsWritten | App_Dropbox/src/components/StructureBuilder.jsx:226-264 | as written, "Crear en Dropbox" always ends with a failure banner carrying the `TypeError`'s message and no created folders |
| ExportImport.CreateActionNeverReachesRoute | App_Dropbox/src/components/StructureBuilder.jsx:249 | for every tree, the request the editor builds would be accepted by the structure route with a session, yet the action as written fails |
| ExportImport.StatusFor | App_Dropbox/src/components/StructureBuilder.jsx:251-260 | the banner reports success exactly for a success answer, with the route's message and created folders, and otherwise the route's error after `Error al crear la estructura: ` |
| ExportImport.CreateInDropbox | App_Dropbox/src/components/StructureBuilder.jsx:226-264 | with the client call supplied: with a session the action succeeds and lists exactly the folders the run over the tree's walk created; without one it shows the authentication error and the account is unchanged |
| FolderSelector.AfterFetch | App_Dropbox/src/components/FolderSelector.jsx:22-42 | a page fetched with a cursor is appended after the existing list, a first page replaces the list, a failure keeps a non-empty list, and a failure on an empty list shows exactly the five example folders |
| FolderSelector.LoadPages | App_Dropbox/src/components/FolderSelector.jsx:16-29 | a first load replaces whatever was listed, and after pages fetched with cursors the last page fetched is shown last; `LoadPagesConcatenates` states the whole list |
| FolderSelector.LoadPagesConcatenates | App_Dropbox/src/components/FolderSelector.jsx:16-29 | a first page followed by pages fetched with non-empty cursors shows every page's folders, in page order |
| FolderSelector.FolderSelector.constructor | App_Dropbox/src/components/FolderSelector.jsx:7-14 | the first render: no folders, loading, no error, the form closed and empty, no cursor, no more pages |
| FolderSelector.FolderSelector.FetchFolders | App_Dropbox/src/components/FolderSelector.jsx:16-46 | the list ends as `AfterFetch` says (the five example folders after a failed first load); a success clears the error and takes the page's cursor and `has_more`; a failure sets the load error and keeps the cursor; loading is off at the end; a cursor is present whenever more pages are offered |
| FolderSelector.FolderSelector.LoadMore | App_Dropbox/src/components/FolderSelector.jsx:124-127 | "load more" fetches from the stored cursor, appending the page when that cursor is non-empty; a success takes the page's cursor and `has_more` and clears the error, a failure sets the load error and keeps them; the form fields are unchanged |
| FolderSelector.FolderSelector.HandleCreateFolder | App_Dropbox/src/components/FolderSelector.jsx:52-68 | a blank name changes nothing; on success the name is cleared, the form closed and the list reloaded from the first page, taking the page's cursor and `has_more`, or keeping them with the load error when the reload fails; on failure the create error is shown and the list kept |
| Common.TrimmedIsEmpty | App_Dropbox/src/components/FolderSelector.jsx:53 | the guard `!name.trim()` holds exactly when every character of the name is whitespace |
| Common.TrimEmptyIffBlank | App_Dropbox/src/components/FolderSelector.jsx:53 | `trim()` gives the empty string exactly when every character is whitespace |

## Findings

| source | as written | input that shows it | evidently intended | confidence | as-written member | corrected member |
|---|---|---|---|---|---|---|
| App_Dropbox/src/components/StructureBuilder.jsx:249 | `createStructureInDropbox` awaits `api.createStructure(formData)`, but the API client (`App_Dropbox/src/services/api.js:5-98`) defines no `createStructure`; the call throws a `TypeError`, the catch at lines 256-260 shows "Error al crear la estructura: ...", and no request reaches `/api/structure/create` (`StructureUploader.jsx:48` makes the same call) | any tree, e.g. the initial root alone, with an authenticated session | post the `estructura.json` form to `/api/structure/create` and show the route's answer | high (not executed) | ExportImport.CreateInDropboxAsWritten | ExportImport.CreateInDropbox |

## Left out

- Ids of new tree nodes come from `Date.now()`. Here they are a parameter, and the lemmas that need a fresh id require one.
- Writing the JSON text and the Blob, and the browser download, are left out. The model stops at the `{name, folders}` value.
- The HTTP transport of the editor's create request, its `isCreating` flag and the banner's fallback text are left out. The fallback text is never shown, because the route's success message is never empty.
- Rendering, animations, the inline editing flag and the dropzone configuration are UI only. The other components, the REST client and the OAuth flow and session files of the backend are not part of this model.
- The Dropbox account is a set of paths compared exactly. Dropbox's case-insensitive matching of paths, and any reason a creation fails other than an existing path, are reduced to the fixed `refused` set.
- The bytes of uploaded files, the temporary file and `files_upload` are left out. The upload routes are modelled up to the target name and path.
- JSON decoding is an input: `None` stands for a decoding error. A top level that is not an object, names that are not strings and `folders` that are not lists are not modelled.
- `create_folder` reads `folderName` from a body that may not be JSON. That failure is not modelled.
- The text of 500 errors is taken from the failing call, and the text of recorded folder errors is reduced to the failing path.
- Backend.StructureJob.VisitFolder: any failure of the metadata lookup is treated as "absent", as the source does. An existing path whose lookup fails for another reason is not modelled.
- FolderSelector.FolderSelector.FetchFolders: each response is applied atomically. Interleaved requests are not modelled, and neither is the fallback check reading a stale copy of the list.
- FolderSelector.FolderSelector.HandleCreateFolder: the create request's own payload, the untrimmed name, is not modelled. Only its success or failure is an input.

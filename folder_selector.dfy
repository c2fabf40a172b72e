/**
 * The folder picker's state: the folders listed so far, the paging cursor,
 * the loading and error flags, and the small "new folder" form. Each
 * network answer the component awaits is a parameter of the method that
 * awaits it.
 */
module FolderSelector {
  import opened Common
  import opened Backend

  const LoadError := "No se pudieron cargar las carpetas. Por favor, intenta de nuevo."
  const CreateError := "No se pudo crear la carpeta. Por favor, intenta de nuevo."

  /** The example folders shown when the first load fails. */
  const Fallback: seq<RemoteFolder> := [
    RemoteFolder("folder1", "Documentos Personales", "/Documentos Personales"),
    RemoteFolder("folder2", "Contratos", "/Contratos"),
    RemoteFolder("folder3", "Facturas", "/Facturas"),
    RemoteFolder("folder4", "Informes", "/Informes"),
    RemoteFolder("folder5", "Proyectos", "/Proyectos")
  ]

  /** A cursor that JavaScript treats as true: present and not empty. */
  predicate Truthy(cursor: Option<string>)
  {
    cursor.Some? && cursor.value != ""
  }

  /**
   * The folder list after one load: a page fetched with a cursor is
   * appended, a first page replaces the list, and a failed load keeps the
   * list unless it was empty, in which case the examples are shown.
   */
  function AfterFetch(prev: seq<RemoteFolder>, nextCursor: Option<string>,
                      response: Result<FolderListing, string>): (r: seq<RemoteFolder>)
    ensures response.Ok? && Truthy(nextCursor) ==> prev <= r && r[|prev|..] == response.value.folders
    ensures response.Ok? && !Truthy(nextCursor) ==> r == response.value.folders
    ensures response.Err? ==> r != [] && (prev != [] ==> r == prev)
    ensures response.Err? && prev == [] ==> r == Fallback
  {
    match response
    case Ok(page) => if Truthy(nextCursor) then prev + page.folders else page.folders
    case Err(_) => if |prev| == 0 then Fallback else prev
  }

  /**
   * A first page followed by pages each fetched with a cursor. Whatever was
   * listed before, the first page replaces it, and the last page fetched is
   * always shown last.
   */
  function LoadPages(prev: seq<RemoteFolder>, first: FolderListing, more: seq<(string, FolderListing)>)
    : (r: seq<RemoteFolder>)
    ensures more == [] ==> r == first.folders
    ensures more != [] ==>
      var page := more[|more| - 1].1.folders;
      |page| <= |r| && r[|r| - |page|..] == page
  {
    if more == [] then AfterFetch(prev, None, Ok(first))
    else
      var last := more[|more| - 1];
      AfterFetch(LoadPages(prev, first, more[..|more| - 1]), Some(last.0), Ok(last.1))
  }

  /** The folders of a first page and of the pages after it, in order. */
  function AllFolders(first: FolderListing, more: seq<(string, FolderListing)>): seq<RemoteFolder>
  {
    if more == [] then first.folders
    else AllFolders(first, more[..|more| - 1]) + more[|more| - 1].1.folders
  }

  /**
   * Loading a first page and then "more" with non-empty cursors shows
   * every page's folders, in page order, whatever was listed before.
   */
  lemma {:induction false} LoadPagesConcatenates(prev: seq<RemoteFolder>, first: FolderListing,
                                                 more: seq<(string, FolderListing)>)
    requires forall k :: 0 <= k < |more| ==> more[k].0 != ""
    ensures LoadPages(prev, first, more) == AllFolders(first, more)
    decreases |more|
  {
    if more != [] {
      LoadPagesConcatenates(prev, first, more[..|more| - 1]);
    }
  }

  /** The backend answers with a cursor exactly when more pages remain. */
  predicate CursorMatchesMore(page: FolderListing)
  {
    page.cursor.Some? <==> page.hasMore
  }

  /** The component's state. */
  class FolderSelector {
    var folders: seq<RemoteFolder>
    var isLoading: bool
    var error: Option<string>
    var isCreatingFolder: bool
    var newFolderName: string
    var cursor: Option<string>
    var hasMore: bool

    /** Whenever "load more" is offered, a cursor is there to continue from. */
    predicate CanContinue()
      reads this
    {
      hasMore ==> cursor.Some?
    }

    /** The state of the first render, before the mount-time load. */
    constructor ()
      ensures folders == [] && isLoading && error.None?
      ensures !isCreatingFolder && newFolderName == ""
      ensures cursor.None? && !hasMore
      ensures CanContinue()
    {
      folders := [];
      isLoading := true;
      error := None;
      isCreatingFolder := false;
      newFolderName := "";
      cursor := None;
      hasMore := false;
    }

    /**
     * `fetchFolders(nextCursor)`: with `response` the backend's answer
     * (`Err` when the request fails), update the list, the paging state
     * and the error banner; loading is off at the end.
     */
    method FetchFolders(nextCursor: Option<string>, response: Result<FolderListing, string>)
      modifies this
      ensures folders == AfterFetch(old(folders), nextCursor, response)
      ensures response.Ok? ==>
        error.None? && cursor == response.value.cursor && hasMore == response.value.hasMore
      ensures response.Err? ==>
        error == Some(LoadError) && cursor == old(cursor) && hasMore == old(hasMore)
      ensures old(CanContinue()) && (response.Ok? ==> CursorMatchesMore(response.value)) ==> CanContinue()
      ensures !isLoading
      ensures isCreatingFolder == old(isCreatingFolder) && newFolderName == old(newFolderName)
    {
      isLoading := true;
      error := None;
      match response {
        case Ok(page) =>
          if Truthy(nextCursor) {
            folders := folders + page.folders;
          } else {
            folders := page.folders;
          }
          cursor := page.cursor;
          hasMore := page.hasMore;
        case Err(_) =>
          error := Some(LoadError);
          if |folders| == 0 {
            folders := Fallback;
          }
      }
      isLoading := false;
    }

    /** The "load more" button: fetch the next page from the stored cursor. */
    method LoadMore(response: Result<FolderListing, string>)
      modifies this
      ensures folders == AfterFetch(old(folders), old(cursor), response)
      ensures response.Ok? && old(cursor).Some? && old(cursor).value != "" ==>
        folders == old(folders) + response.value.folders
      ensures response.Ok? ==>
        error.None? && cursor == response.value.cursor && hasMore == response.value.hasMore
      ensures response.Err? ==>
        error == Some(LoadError) && cursor == old(cursor) && hasMore == old(hasMore)
      ensures !isLoading
      ensures isCreatingFolder == old(isCreatingFolder) && newFolderName == old(newFolderName)
    {
      FetchFolders(cursor, response);
    }

    /**
     * `handleCreateFolder`: a blank name does nothing. Otherwise the folder
     * is requested (`created` says whether that succeeded); on success the
     * form is cleared and closed and the list reloaded from the first page
     * (`reload` is that answer); on failure the error banner shows.
     */
    method HandleCreateFolder(created: bool, reload: Result<FolderListing, string>)
      modifies this
      ensures IsBlank(old(newFolderName)) ==> unchanged(this)
      ensures !IsBlank(old(newFolderName)) && created ==>
        && newFolderName == "" && !isCreatingFolder && !isLoading
        && folders == AfterFetch(old(folders), None, reload)
        && (reload.Ok? ==> error.None? && cursor == reload.value.cursor && hasMore == reload.value.hasMore)
        && (reload.Err? ==> error == Some(LoadError) && cursor == old(cursor) && hasMore == old(hasMore))
      ensures !IsBlank(old(newFolderName)) && !created ==>
        && error == Some(CreateError) && !isLoading
        && folders == old(folders) && newFolderName == old(newFolderName)
        && isCreatingFolder == old(isCreatingFolder)
        && cursor == old(cursor) && hasMore == old(hasMore)
    {
      var blank := TrimmedIsEmpty(newFolderName);
      if blank {
        return;
      }
      isLoading := true;
      if created {
        newFolderName := "";
        isCreatingFolder := false;
        FetchFolders(None, reload);
      } else {
        error := Some(CreateError);
      }
      isLoading := false;
    }
  }
}

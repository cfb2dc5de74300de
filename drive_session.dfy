/** `GoogleDriveSession`: the path walker, directory creation, the paged
    listing, and the create, update, delete and upload retry loops over the
    Drive service. Each operation is first defined as a function of the
    service state (`Remote`) that follows the source's control flow, then
    implemented by a method of the session class that performs the calls
    one by one and is proved to agree with that function. */
module DriveSession {
  import opened Wrappers
  import opened Strings
  import opened DrivePaths
  import opened DriveUtils
  import opened DriveRemote

  /** `self.max_attempts`. */
  const MaxAttempts: nat := 5

  // ---------------------------------------------------------------------
  // googledrive_list

  /** One attempt of `googledrive_list`: the pages from the one asked for
      with `pageToken` on, concatenated; the first failing call ends the
      attempt. */
  function ListPages(d: Remote, query: string, pageToken: Option<string>): Step<Result<seq<DriveItem>, HttpError>>
    decreases |d.listReplies|
  {
    var call := ExecuteList(d, query, pageToken);
    match call.result
    case Err(e) => Step(Err(e), call.drive)
    case Ok(page) =>
      if Truthy(page.nextPageToken) then
        var rest := ListPages(call.drive, query, page.nextPageToken);
        Step(if rest.result.Ok? then Ok(page.files + rest.result.value) else rest.result, rest.drive)
      else Step(Ok(page.files), call.drive)
  }

  /** The retry loop of `googledrive_list` from attempt `attempts` on. */
  function ListAttempts(d: Remote, query: string, attempts: nat): Step<Result<seq<DriveItem>, DriveError>>
    decreases MaxAttempts - attempts
  {
    if attempts >= MaxAttempts then Step(Err(MaxAttemptsReached("list")), d)
    else
      var pages := ListPages(d, query, None);
      if pages.result.Ok? then Step(Ok(pages.result.value), pages.drive)
      else
        var handled := HandleErrors(pages.drive, pages.result.error, "list");
        if handled.result.Err? then Step(Err(handled.result.error), handled.drive)
        else ListAttempts(handled.drive, query, attempts + 1)
  }

  function List(d: Remote, query: string): Step<Result<seq<DriveItem>, DriveError>> {
    ListAttempts(d, query, 0)
  }

  /** `directory`: the untrashed children of a folder. */
  function FolderListing(d: Remote, item: DriveItem): Step<Result<seq<DriveItem>, DriveError>> {
    List(d, Query([item.id], None, None, Some(false)))
  }

  // ---------------------------------------------------------------------
  // get_item_from_path

  /** The descriptor returned for a path of a single token. */
  function RootItem(rootId: string): DriveItem {
    DriveItem(rootId, "/", Folder, [], Some(0), Missing)
  }

  /** One level of `get_item_from_path`: the untrashed children of
      `parentIds` whose name contains `token`, narrowed to those named
      exactly `token`. */
  function Matching(d: Remote, token: string, parentIds: seq<string>): (r: Step<Result<seq<DriveItem>, DriveError>>)
    ensures r.result.Ok? ==> forall i :: 0 <= i < |r.result.value| ==> r.result.value[i].name == token
  {
    var listed := List(d, Query(parentIds, None, Some(token), Some(false)));
    if listed.result.Err? then listed
    else
      MatchedAreNamed(listed.result.value, token);
      Step(Ok(Kept(Kept(listed.result.value, None, Some(token)), Some(token), None)), listed.drive)
  }

  /** The loop of `get_item_from_path` over the remaining tokens, with the
      parent ids of the current level and the files matched last (`None`
      while no token has been looked up). */
  function Walk(d: Remote, tokens: seq<string>, parentIds: seq<string>, files: Option<seq<DriveItem>>)
    : (r: Step<Result<Option<DriveItem>, DriveError>>)
    requires files.Some? ==> files.value != []
    ensures tokens != [] && tokens[|tokens| - 1] != "/" && r.result.Ok? && r.result.value.Some? ==>
      r.result.value.value.name == tokens[|tokens| - 1]
    decreases |tokens|
  {
    if tokens == [] then
      if files.None? then Step(Err(Unbound("files")), d) else Step(Ok(Some(files.value[0])), d)
    else if tokens[0] == "/" then Walk(d, tokens[1..], parentIds, files)
    else
      var found := Matching(d, tokens[0], parentIds);
      if found.result.Err? then Step(Err(found.result.error), found.drive)
      else if found.result.value == [] then Step(Ok(None), found.drive)
      else Walk(found.drive, tokens[1..], RemoveDuplicates(Ids(found.result.value)), Some(found.result.value))
  }

  /** `get_item_from_path` once the path is split: a single token is the
      root, anything else is walked from the root. */
  function ItemFromTokens(d: Remote, rootId: string, tokens: seq<string>): Step<Result<Option<DriveItem>, DriveError>> {
    if |tokens| == 1 then Step(Ok(Some(RootItem(rootId))), d)
    else Walk(d, tokens, [rootId], None)
  }

  function ItemFromPath(d: Remote, rootId: string, path: string): Step<Result<Option<DriveItem>, DriveError>> {
    ItemFromTokens(d, rootId, SplitSpec(path))
  }

  // ---------------------------------------------------------------------
  // googledrive_create / googledrive_update / googledrive_delete

  /** The body `googledrive_create` sends: its parents replaced by
      `[parent_id]` when `parent_id` is given and non-empty. */
  function CreateBody(body: Metadata, parentId: Option<string>): Metadata {
    if Truthy(parentId) then body.(parents := Some([parentId.value])) else body
  }

  function CreateAttempts(d: Remote, body: Metadata, media: Option<Media>, attempts: nat): Step<Result<string, DriveError>>
    decreases MaxAttempts - attempts
  {
    if attempts >= MaxAttempts then Step(Err(MaxAttemptsReached("create")), d)
    else
      var call := ExecuteCreate(d, body, media);
      if call.result.Ok? then Step(Ok(call.result.value), call.drive)
      else
        var handled := HandleErrors(call.drive, call.result.error, "create");
        if handled.result.Err? then Step(Err(handled.result.error), handled.drive)
        else CreateAttempts(handled.drive, body, media, attempts + 1)
  }

  /** `googledrive_create`: the id of the created file. */
  function Create(d: Remote, body: Metadata, media: Option<Media>, parentId: Option<string>): Step<Result<string, DriveError>> {
    CreateAttempts(d, CreateBody(body, parentId), media, 0)
  }

  /** `create_directory`: a folder named `name` under `parentIds`. */
  function NewFolder(d: Remote, name: string, parentIds: seq<string>): Step<Result<string, DriveError>> {
    Create(d, Metadata(name, Some(Folder), Some(parentIds)), None, None)
  }

  function UpdateAttempts(d: Remote, fileId: string, body: Metadata, media: Option<Media>, parentId: Option<string>, attempts: nat)
    : Step<Result<string, DriveError>>
    decreases MaxAttempts - attempts
  {
    if attempts >= MaxAttempts then Step(Err(MaxAttemptsReached("update")), d)
    else
      var call := ExecuteUpdate(d, fileId, body, media);
      if call.result.Ok? then Step(Ok(call.result.value), call.drive)
      else if call.result.error.status == 404 then Create(call.drive, body, media, parentId)
      else
        var handled := HandleErrors(call.drive, call.result.error, "update");
        if handled.result.Err? then Step(Err(handled.result.error), handled.drive)
        else UpdateAttempts(handled.drive, fileId, body, media, parentId, attempts + 1)
  }

  /** `googledrive_update`: the id of the updated (or, after a 404, created) file. */
  function Update(d: Remote, fileId: string, body: Metadata, media: Option<Media>, parentId: Option<string>)
    : Step<Result<string, DriveError>>
  {
    UpdateAttempts(d, fileId, body, media, parentId, 0)
  }

  /** Whether `googledrive_delete` deletes the file outright rather than
      detaching it from `parent_id`. */
  predicate DeletesOutright(item: DriveItem, parentId: Option<string>) {
    |item.parents| == 1 || parentId.None?
  }

  function DeleteCall(d: Remote, item: DriveItem, parentId: Option<string>): Step<Option<HttpError>> {
    if DeletesOutright(item, parentId) then ExecuteDelete(d, item.id)
    else ExecuteRemoveParent(d, item.id, parentId.value)
  }

  /** The loop of `googledrive_delete`: a success does not leave the loop,
      only a 404 returns. */
  function DeleteAttempts(d: Remote, item: DriveItem, parentId: Option<string>, attempts: nat): Step<Result<(), DriveError>>
    decreases MaxAttempts - attempts
  {
    if attempts >= MaxAttempts then Step(Err(MaxAttemptsReached("delete")), d)
    else
      var call := DeleteCall(d, item, parentId);
      if call.result.None? then DeleteAttempts(call.drive, item, parentId, attempts + 1)
      else if call.result.value.status == 404 then Step(Ok(()), call.drive)
      else
        var handled := HandleErrors(call.drive, call.result.value, "delete");
        if handled.result.Err? then Step(Err(handled.result.error), handled.drive)
        else DeleteAttempts(handled.drive, item, parentId, attempts + 1)
  }

  function Delete(d: Remote, item: DriveItem, parentId: Option<string>): Step<Result<(), DriveError>> {
    DeleteAttempts(d, item, parentId, 0)
  }

  // ---------------------------------------------------------------------
  // create_directory_from_path

  /** One segment of `create_directory_from_path`: the id of the folder at
      `path`, created under `parentIds` with the name `name` when the path
      does not resolve. */
  function Segment(d: Remote, rootId: string, path: string, name: string, parentIds: seq<string>)
    : Step<Result<string, DriveError>>
  {
    var found := ItemFromPath(d, rootId, path);
    if found.result.Err? then Step(Err(found.result.error), found.drive)
    else if found.result.value.None? then NewFolder(found.drive, name, parentIds)
    else Step(Ok(found.result.value.value.id), found.drive)
  }

  /** The loop of `create_directory_from_path` over the remaining tokens:
      each prefix of the path is resolved from the root, and a folder is
      created under the previous segment when it does not resolve. */
  function MakeDirectories(d: Remote, rootId: string, tokens: seq<string>, currentPath: string,
                           parentIds: seq<string>, lastId: Option<string>): Step<Result<string, DriveError>>
    decreases |tokens|
  {
    if tokens == [] then
      if lastId.None? then Step(Err(Unbound("new_directory_id")), d) else Step(Ok(lastId.value), d)
    else
      var path := PosixJoin(currentPath, tokens[0]);
      var segment := Segment(d, rootId, path, tokens[0], parentIds);
      if segment.result.Err? then Step(Err(segment.result.error), segment.drive)
      else MakeDirectories(segment.drive, rootId, tokens[1..], path, [segment.result.value], Some(segment.result.value))
  }

  function MakeDirectoryPath(d: Remote, rootId: string, path: string): Step<Result<string, DriveError>> {
    MakeDirectories(d, rootId, SplitSpec(path), "", [rootId], None)
  }

  // ---------------------------------------------------------------------
  // googledrive_upload

  /** ASCII lower case of one character. */
  function LowerChar(c: char): char {
    if 'A' <= c <= 'Z' then (c as int + 32) as char else c
  }

  function Lower(s: string): (r: string)
    ensures |r| == |s|
    ensures forall k :: 0 <= k < |s| ==> r[k] == LowerChar(s[k])
  {
    if s == [] then [] else Lower(s[..|s| - 1]) + [LowerChar(s[|s| - 1])]
  }

  /** The metadata `googledrive_upload` sends: a CSV upload written as a
      Google document becomes a spreadsheet, and its name, when it ends in
      ".csv" in any case, gets ".csv" appended. */
  function UploadMetadata(writeAsGoogleDoc: bool, filename: string, guessedType: Option<string>): (m: Metadata)
    ensures m.parents.None?
    ensures m.mimeType.Some? <==> writeAsGoogleDoc && guessedType == Some(Csv)
    ensures m.mimeType.Some? ==> m.mimeType.value == Spreadsheet
    ensures m.name == filename || m.name == filename + ".csv"
    ensures m.name != filename <==> m.mimeType.Some? && EndsWith(Lower(filename), ".csv")
  {
    if writeAsGoogleDoc && guessedType == Some(Csv) then
      Metadata(if EndsWith(Lower(filename), ".csv") then filename + ".csv" else filename, Some(Spreadsheet), None)
    else Metadata(filename, None, None)
  }

  /** The media mimetype: the guessed type, or binary when none is guessed. */
  function UploadMedia(guessedType: Option<string>): Media {
    Media(if guessedType.Some? then guessedType.value else "binary/octet-stream")
  }

  /** `"'{}'".format(parent_id)` of an optional id. */
  function IdText(parentId: Option<string>): string {
    if parentId.Some? then parentId.value else "None"
  }

  /** `googledrive_upload`: list the parent folder for the file name, then
      create the file when nothing matches, or update the first match. The
      mimetype guess is a parameter. */
  function Upload(d: Remote, writeAsGoogleDoc: bool, filename: string, guessedType: Option<string>,
                  parentId: Option<string>): Step<Result<(), DriveError>>
  {
    var metadata := UploadMetadata(writeAsGoogleDoc, filename, guessedType);
    var media := UploadMedia(guessedType);
    var listed := List(d, Query([IdText(parentId)], Some(filename), None, Some(false)));
    if listed.result.Err? then Step(Err(listed.result.error), listed.drive)
    else if listed.result.value == [] then
      var created := Create(listed.drive, metadata, Some(media), parentId);
      Step(if created.result.Err? then Err(created.result.error) else Ok(()), created.drive)
    else
      var updated := Update(listed.drive, listed.result.value[0].id, metadata, Some(media), parentId);
      Step(if updated.result.Err? then Err(updated.result.error) else Ok(()), updated.drive)
  }

  // ---------------------------------------------------------------------
  // googledrive_download

  /** Which request `googledrive_download` makes. */
  datatype Download = Export(fileId: string, mimeType: string) | RawMedia(fileId: string)

  /** A Google document is exported in its equivalent format; any other
      file is downloaded as it is. */
  function DownloadPlan(item: DriveItem, outputAsXlsx: bool): (r: Download)
    ensures r.fileId == item.id
    ensures r.Export? <==> IsFileGoogleDoc(item)
    ensures r.Export? ==> r.mimeType == GetGoogleDocMimeEquivalence(item.mimeType, outputAsXlsx)
  {
    if IsFileGoogleDoc(item) then Export(item.id, GetGoogleDocMimeEquivalence(item.mimeType, outputAsXlsx))
    else RawMedia(item.id)
  }

  // ---------------------------------------------------------------------
  // The session object

  /** What remains of one listing attempt after `files` have been gathered. */
  function Resume(files: seq<DriveItem>, s: Step<Result<seq<DriveItem>, HttpError>>): Step<Result<seq<DriveItem>, HttpError>> {
    Step(if s.result.Ok? then Ok(files + s.result.value) else s.result, s.drive)
  }

  lemma ResumeNothing(s: Step<Result<seq<DriveItem>, HttpError>>)
    ensures Resume([], s) == s
  {
    if s.result.Ok? {
      assert [] + s.result.value == s.result.value;
    }
  }

  lemma ResumeAppend(a: seq<DriveItem>, b: seq<DriveItem>, s: Step<Result<seq<DriveItem>, HttpError>>)
    ensures Resume(a, Resume(b, s)) == Resume(a + b, s)
  {
    if s.result.Ok? {
      ItemsAssoc(a, b, s.result.value);
    }
  }

  /** One page of `ListPages`. */
  lemma ListPagesUnfold(d: Remote, query: string, pageToken: Option<string>)
    ensures var call := ExecuteList(d, query, pageToken);
      ListPages(d, query, pageToken)
      == if call.result.Err? then Step(Err(call.result.error), call.drive)
         else if Truthy(call.result.value.nextPageToken) then
           Resume(call.result.value.files, ListPages(call.drive, query, call.result.value.nextPageToken))
         else Step(Ok(call.result.value.files), call.drive)
  {
  }

  /** A session: its configuration, fixed at construction, and the Drive
      service it calls, whose state each operation advances. */
  class GoogleDriveSession {
    const rootId: string
    const writeAsGoogleDoc: bool
    const outputGoogleSheetsAsXlsx: bool
    var drive: Remote

    /** The root id is the configured one, or "root" when it is missing or
        empty. */
    constructor(configuredRootId: Option<string>, writeAsGoogleDoc: bool, outputGoogleSheetsAsXlsx: bool, drive: Remote)
      ensures this.rootId == GetRootId(configuredRootId) && this.rootId != ""
      ensures this.writeAsGoogleDoc == writeAsGoogleDoc
      ensures this.outputGoogleSheetsAsXlsx == outputGoogleSheetsAsXlsx
      ensures this.drive == drive
    {
      this.rootId := GetRootId(configuredRootId);
      this.writeAsGoogleDoc := writeAsGoogleDoc;
      this.outputGoogleSheetsAsXlsx := outputGoogleSheetsAsXlsx;
      this.drive := drive;
    }

    method ExecuteListCall(query: string, pageToken: Option<string>) returns (reply: Result<Page, HttpError>)
      modifies this
      ensures Step(reply, drive) == ExecuteList(old(drive), query, pageToken)
    {
      var s := ExecuteList(drive, query, pageToken);
      reply, drive := s.result, s.drive;
    }

    method ExecuteCreateCall(body: Metadata, media: Option<Media>) returns (reply: Result<string, HttpError>)
      modifies this
      ensures Step(reply, drive) == ExecuteCreate(old(drive), body, media)
    {
      var s := ExecuteCreate(drive, body, media);
      reply, drive := s.result, s.drive;
    }

    method ExecuteUpdateCall(fileId: string, body: Metadata, media: Option<Media>) returns (reply: Result<string, HttpError>)
      modifies this
      ensures Step(reply, drive) == ExecuteUpdate(old(drive), fileId, body, media)
    {
      var s := ExecuteUpdate(drive, fileId, body, media);
      reply, drive := s.result, s.drive;
    }

    method ExecuteDeleteCall(item: DriveItem, parentId: Option<string>) returns (failure: Option<HttpError>)
      modifies this
      ensures Step(failure, drive) == DeleteCall(old(drive), item, parentId)
    {
      if |item.parents| == 1 || parentId.None? {
        var s := ExecuteDelete(drive, item.id);
        failure, drive := s.result, s.drive;
      } else {
        var s := ExecuteRemoveParent(drive, item.id, parentId.value);
        failure, drive := s.result, s.drive;
      }
    }

    /** `handle_googledrive_errors`. */
    method HandleGoogledriveErrors(err: HttpError, context: string) returns (r: Result<(), DriveError>)
      modifies this
      ensures Step(r, drive) == HandleErrors(old(drive), err, context)
    {
      if IsTransient(err.status) {
        drive := SleepRandom(drive);
        r := Ok(());
      } else {
        var reason := "";
        if err.jsonReason.Some? {
          reason := err.jsonReason.value;
        }
        r := Err(ServiceError(context, reason));
      }
    }

    /** The body of the `try` in `googledrive_list`: follow `nextPageToken`
        until it is absent, gathering the files of every page. */
    method ListPagesOnce(query: string) returns (r: Result<seq<DriveItem>, HttpError>)
      modifies this
      ensures Step(r, drive) == ListPages(old(drive), query, None)
    {
      var files: seq<DriveItem> := [];
      var pageToken: Option<string> := None;
      var initialCall := true;
      var nextPageToken: Option<string> := None;
      ResumeNothing(ListPages(drive, query, None));
      while initialCall || Truthy(nextPageToken)
        invariant initialCall ==> nextPageToken.None? && pageToken.None?
        invariant initialCall || Truthy(nextPageToken) ==>
          ListPages(old(drive), query, None)
          == Resume(files, ListPages(drive, query, if initialCall then None else nextPageToken))
        invariant !initialCall && !Truthy(nextPageToken) ==>
          ListPages(old(drive), query, None) == Step(Ok(files), drive)
        decreases |drive.listReplies|
      {
        initialCall := false;
        if Truthy(nextPageToken) {
          pageToken := nextPageToken;
        }
        ghost var before := drive;
        var response := ExecuteListCall(query, pageToken);
        ListPagesUnfold(before, query, pageToken);
        if response.Err? {
          return Err(response.error);
        }
        ResumeAppend(files, response.value.files, ListPages(drive, query, response.value.nextPageToken));
        files := files + response.value.files;
        nextPageToken := response.value.nextPageToken;
      }
      r := Ok(files);
    }

    /** `googledrive_list`: up to five attempts at the paged listing. */
    method GoogledriveList(query: string) returns (r: Result<seq<DriveItem>, DriveError>)
      modifies this
      ensures Step(r, drive) == List(old(drive), query)
    {
      var attempts := 0;
      while attempts < MaxAttempts
        invariant 0 <= attempts <= MaxAttempts
        invariant ListAttempts(drive, query, attempts) == List(old(drive), query)
        decreases MaxAttempts - attempts
      {
        var pages := ListPagesOnce(query);
        if pages.Ok? {
          return Ok(pages.value);
        }
        var handled := HandleGoogledriveErrors(pages.error, "list");
        if handled.Err? {
          return Err(handled.error);
        }
        attempts := attempts + 1;
      }
      r := Err(MaxAttemptsReached("list"));
    }

    /** `directory`: the untrashed children of a folder. */
    method Directory(item: DriveItem) returns (r: Result<seq<DriveItem>, DriveError>)
      modifies this
      ensures Step(r, drive) == FolderListing(old(drive), item)
    {
      var query := QueryParentsIn([item.id], None, None, Some(false));
      r := GoogledriveList(query);
    }

    /** The listing and filtering of one token in `get_item_from_path`. */
    method MatchToken(token: string, parentIds: seq<string>) returns (r: Result<seq<DriveItem>, DriveError>)
      modifies this
      ensures Step(r, drive) == Matching(old(drive), token, parentIds)
    {
      var query := QueryParentsIn(parentIds, None, Some(token), Some(false));
      var listed := GoogledriveList(query);
      if listed.Err? {
        return Err(listed.error);
      }
      var kept := KeepFilesWith(listed.value, None, Some(token));
      kept := KeepFilesWith(kept, Some(token), None);
      r := Ok(kept);
    }

    /** `get_item_from_path`. */
    method GetItemFromPath(pathAndFile: string) returns (r: Result<Option<DriveItem>, DriveError>)
      modifies this
      ensures Step(r, drive) == ItemFromPath(old(drive), rootId, pathAndFile)
    {
      var tokens := SplitPath(pathAndFile);
      r := GetItemFromTokens(tokens);
    }

    /** The body of `get_item_from_path` after `split_path`. */
    method GetItemFromTokens(tokens: seq<string>) returns (r: Result<Option<DriveItem>, DriveError>)
      modifies this
      ensures Step(r, drive) == ItemFromTokens(old(drive), rootId, tokens)
    {
      if |tokens| == 1 {
        return Ok(Some(RootItem(rootId)));
      }
      var parentIds := [rootId];
      var files: Option<seq<DriveItem>> := None;
      for i := 0 to |tokens|
        invariant files.Some? ==> files.value != []
        invariant Walk(drive, tokens[i..], parentIds, files) == Walk(old(drive), tokens, [rootId], None)
      {
        var token := tokens[i];
        assert tokens[i..][1..] == tokens[i + 1..];
        if token == "/" {
          continue;
        }
        var matched := MatchToken(token, parentIds);
        if matched.Err? {
          return Err(matched.error);
        }
        var kept := matched.value;
        if |kept| == 0 {
          return Ok(None);
        }
        parentIds := GetFilesIds(kept);
        files := Some(kept);
      }
      assert tokens[|tokens|..] == [];
      if files.None? {
        return Err(Unbound("files"));
      }
      r := Ok(Some(files.value[0]));
    }

    /** `googledrive_create`: the caller's body gets `parents` replaced
        when `parent_id` is given. */
    method GoogledriveCreate(body: Metadata, media: Option<Media>, parentId: Option<string>) returns (r: Result<string, DriveError>)
      modifies this
      ensures Step(r, drive) == Create(old(drive), body, media, parentId)
    {
      var attempts := 0;
      var sent := body;
      if Truthy(parentId) {
        sent := sent.(parents := Some([parentId.value]));
      }
      while attempts < MaxAttempts
        invariant 0 <= attempts <= MaxAttempts
        invariant CreateAttempts(drive, sent, media, attempts) == Create(old(drive), body, media, parentId)
        decreases MaxAttempts - attempts
      {
        var reply := ExecuteCreateCall(sent, media);
        if reply.Ok? {
          return Ok(reply.value);
        }
        var handled := HandleGoogledriveErrors(reply.error, "create");
        if handled.Err? {
          return Err(handled.error);
        }
        attempts := attempts + 1;
      }
      r := Err(MaxAttemptsReached("create"));
    }

    /** `create_directory`. */
    method CreateDirectory(name: string, parentIds: seq<string>) returns (r: Result<string, DriveError>)
      modifies this
      ensures Step(r, drive) == NewFolder(old(drive), name, parentIds)
    {
      r := GoogledriveCreate(Metadata(name, Some(Folder), Some(parentIds)), None, None);
    }

    /** `create_directory_from_path`. */
    method CreateDirectoryFromPath(path: string) returns (r: Result<string, DriveError>)
      modifies this
      ensures Step(r, drive) == MakeDirectoryPath(old(drive), rootId, path)
    {
      var tokens := SplitPath(path);
      r := CreateDirectories(tokens);
    }

    /** The loop of `create_directory_from_path` over the split path. */
    method CreateDirectories(tokens: seq<string>) returns (r: Result<string, DriveError>)
      modifies this
      ensures Step(r, drive) == MakeDirectories(old(drive), rootId, tokens, "", [rootId], None)
    {
      var parentIds := [rootId];
      var currentPath := "";
      var newDirectoryId: Option<string> := None;
      for i := 0 to |tokens|
        invariant MakeDirectories(drive, rootId, tokens[i..], currentPath, parentIds, newDirectoryId)
                  == MakeDirectories(old(drive), rootId, tokens, "", [rootId], None)
      {
        var token := tokens[i];
        assert tokens[i..][1..] == tokens[i + 1..];
        currentPath := PosixJoin(currentPath, token);
        var id := ResolveSegment(currentPath, token, parentIds);
        if id.Err? {
          return Err(id.error);
        }
        newDirectoryId := Some(id.value);
        parentIds := [id.value];
      }
      assert tokens[|tokens|..] == [];
      if newDirectoryId.None? {
        return Err(Unbound("new_directory_id"));
      }
      r := Ok(newDirectoryId.value);
    }

    /** One iteration of `create_directory_from_path`: look the path up,
        and create the folder when it is missing. */
    method ResolveSegment(currentPath: string, token: string, parentIds: seq<string>) returns (r: Result<string, DriveError>)
      modifies this
      ensures Step(r, drive) == Segment(old(drive), rootId, currentPath, token, parentIds)
    {
      var item := GetItemFromPath(currentPath);
      if item.Err? {
        return Err(item.error);
      }
      if item.value.None? {
        r := CreateDirectory(token, parentIds);
      } else {
        r := Ok(item.value.value.id);
      }
    }

    /** `googledrive_update`: a 404 turns into one `googledrive_create`. */
    method GoogledriveUpdate(fileId: string, body: Metadata, media: Option<Media>, parentId: Option<string>)
      returns (r: Result<string, DriveError>)
      modifies this
      ensures Step(r, drive) == Update(old(drive), fileId, body, media, parentId)
    {
      var attempts := 0;
      while attempts < MaxAttempts
        invariant 0 <= attempts <= MaxAttempts
        invariant UpdateAttempts(drive, fileId, body, media, parentId, attempts) == Update(old(drive), fileId, body, media, parentId)
        decreases MaxAttempts - attempts
      {
        var done;
        done, r := UpdateAttempt(fileId, body, media, parentId, attempts);
        if done {
          return;
        }
        attempts := attempts + 1;
      }
      r := Err(MaxAttemptsReached("update"));
    }

    /** One pass of the loop of `googledrive_update`; `done` when it returns. */
    method UpdateAttempt(fileId: string, body: Metadata, media: Option<Media>, parentId: Option<string>, ghost attempts: nat)
      returns (done: bool, r: Result<string, DriveError>)
      requires attempts < MaxAttempts
      modifies this
      ensures done ==> Step(r, drive) == UpdateAttempts(old(drive), fileId, body, media, parentId, attempts)
      ensures !done ==> UpdateAttempts(drive, fileId, body, media, parentId, attempts + 1)
                        == UpdateAttempts(old(drive), fileId, body, media, parentId, attempts)
    {
      var reply := ExecuteUpdateCall(fileId, body, media);
      if reply.Ok? {
        return true, Ok(reply.value);
      }
      if reply.error.status == 404 {
        r := GoogledriveCreate(body, media, parentId);
        return true, r;
      }
      var handled := HandleGoogledriveErrors(reply.error, "update");
      if handled.Err? {
        return true, Err(handled.error);
      }
      done, r := false, Ok("");
    }

    /** `googledrive_delete`. */
    method GoogledriveDelete(item: DriveItem, parentId: Option<string>) returns (r: Result<(), DriveError>)
      modifies this
      ensures Step(r, drive) == Delete(old(drive), item, parentId)
    {
      var attempts := 0;
      while attempts < MaxAttempts
        invariant 0 <= attempts <= MaxAttempts
        invariant DeleteAttempts(drive, item, parentId, attempts) == Delete(old(drive), item, parentId)
        decreases MaxAttempts - attempts
      {
        var done;
        done, r := DeleteAttempt(item, parentId, attempts);
        if done {
          return;
        }
        attempts := attempts + 1;
      }
      r := Err(MaxAttemptsReached("delete"));
    }

    /** One pass of the loop of `googledrive_delete`; `done` when it returns. */
    method DeleteAttempt(item: DriveItem, parentId: Option<string>, ghost attempts: nat) returns (done: bool, r: Result<(), DriveError>)
      requires attempts < MaxAttempts
      modifies this
      ensures done ==> Step(r, drive) == DeleteAttempts(old(drive), item, parentId, attempts)
      ensures !done ==> DeleteAttempts(drive, item, parentId, attempts + 1) == DeleteAttempts(old(drive), item, parentId, attempts)
    {
      var failure := ExecuteDeleteCall(item, parentId);
      if failure.Some? {
        if failure.value.status == 404 {
          return true, Ok(());
        }
        var handled := HandleGoogledriveErrors(failure.value, "delete");
        if handled.Err? {
          return true, Err(handled.error);
        }
      }
      done, r := false, Ok(());
    }

    /** `googledrive_upload`, with the mimetype guess as a parameter. */
    method GoogledriveUpload(filename: string, guessedType: Option<string>, parentId: Option<string>)
      returns (r: Result<(), DriveError>)
      modifies this
      ensures Step(r, drive) == Upload(old(drive), writeAsGoogleDoc, filename, guessedType, parentId)
    {
      var metadata := Metadata(filename, None, None);
      if writeAsGoogleDoc && guessedType == Some(Csv) {
        metadata := metadata.(mimeType := Some(Spreadsheet));
        if EndsWith(Lower(filename), ".csv") {
          metadata := metadata.(name := filename + ".csv");
        }
      }
      var mimetype := guessedType;
      if mimetype.None? {
        mimetype := Some("binary/octet-stream");
      }
      var media := Media(mimetype.value);
      var query := QueryParentsIn([IdText(parentId)], Some(filename), None, Some(false));
      var files := GoogledriveList(query);
      if files.Err? {
        return Err(files.error);
      }
      if |files.value| == 0 {
        var created := GoogledriveCreate(metadata, Some(media), parentId);
        if created.Err? {
          return Err(created.error);
        }
      } else {
        var updated := GoogledriveUpdate(files.value[0].id, metadata, Some(media), parentId);
        if updated.Err? {
          return Err(updated.error);
        }
      }
      r := Ok(());
    }
  }
}
